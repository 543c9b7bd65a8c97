/** The daemon's path locker (pkg/syncer/locker.go): a table of reference-counted mutexes, and
    acquisition of several keys in sorted order. Each thread does one Lock or one LockMany; every
    critical section and every mutex operation is one step. */
module PathLocker {
  import opened Basics
  import opened Paths

  // ---- the keys of a call ----

  /** The order of sort.Strings. */
  predicate Less(a: string, b: string) {
    b != "" && (a == "" || a[0] < b[0] || (a[0] == b[0] && Less(a[1..], b[1..])))
  }

  lemma {:induction false} LessTransitive(a: string, b: string, c: string)
    requires Less(a, b) && Less(b, c)
    ensures Less(a, c)
  {
    if a != "" && a[0] == b[0] && b[0] == c[0] {
      LessTransitive(a[1..], b[1..], c[1..]);
    }
  }

  lemma {:induction false} LessIrreflexive(a: string)
    ensures !Less(a, a)
  {
    if a != "" {
      LessIrreflexive(a[1..]);
    }
  }

  lemma {:induction false} LessTotal(a: string, b: string)
    ensures a == b || Less(a, b) || Less(b, a)
  {
    if a != "" && b != "" && a[0] == b[0] {
      LessTotal(a[1..], b[1..]);
      assert a == [a[0]] + a[1..] && b == [b[0]] + b[1..];
    }
  }

  ghost predicate Ascending(keys: seq<string>) {
    forall i, j :: 0 <= i < j < |keys| ==> Less(keys[i], keys[j])
  }

  function Insert(key: string, keys: seq<string>): seq<string> {
    if keys == [] || Less(key, keys[0]) then [key] + keys else [keys[0]] + Insert(key, keys[1..])
  }

  function Sort(keys: seq<string>): seq<string> {
    if keys == [] then [] else Insert(keys[0], Sort(keys[1..]))
  }

  lemma {:induction false} InsertMembers(key: string, keys: seq<string>)
    ensures forall k :: k in Insert(key, keys) <==> k == key || k in keys
  {
    if keys != [] && !Less(key, keys[0]) {
      InsertMembers(key, keys[1..]);
      assert keys == [keys[0]] + keys[1..];
    }
  }

  lemma {:induction false} InsertAscending(key: string, keys: seq<string>)
    requires Ascending(keys) && key !in keys
    ensures Ascending(Insert(key, keys))
  {
    if keys != [] {
      if Less(key, keys[0]) {
        forall j | 0 < j < |keys| ensures Less(key, keys[j]) {
          LessTransitive(key, keys[0], keys[j]);
        }
      } else {
        LessTotal(key, keys[0]);
        assert keys[0] in keys;
        InsertAscending(key, keys[1..]);
        InsertMembers(key, keys[1..]);
        forall k | k in Insert(key, keys[1..]) ensures Less(keys[0], k) {
        }
      }
    }
  }

  lemma {:induction false} SortAscending(keys: seq<string>)
    requires forall i, j :: 0 <= i < j < |keys| ==> keys[i] != keys[j]
    ensures Ascending(Sort(keys)) && forall k :: k in Sort(keys) <==> k in keys
  {
    if keys != [] {
      SortAscending(keys[1..]);
      InsertMembers(keys[0], Sort(keys[1..]));
      assert keys == [keys[0]] + keys[1..];
      InsertAscending(keys[0], Sort(keys[1..]));
    }
  }

  /** The keys LockMany locks: the paths with slashes normalised, each once, in ascending order. */
  method LockKeys(paths: seq<string>) returns (keys: seq<string>)
    ensures Ascending(keys)
    ensures forall k :: k in keys <==> exists i :: 0 <= i < |paths| && ToSlash(paths[i]) == k
  {
    var found: seq<string> := [];
    var seen: set<string> := {};
    for n := 0 to |paths|
      invariant forall k :: k in seen <==> k in found
      invariant forall i, j :: 0 <= i < j < |found| ==> found[i] != found[j]
      invariant forall k :: k in found <==> exists i :: 0 <= i < n && ToSlash(paths[i]) == k
    {
      var key := ToSlash(paths[n]);
      if key in seen {
        continue;
      }
      seen := seen + {key};
      found := found + [key];
    }
    SortAscending(found);
    return Sort(found);
  }

  // ---- threads and the lock table ----

  /** holder is the thread inside entry.mu. */
  datatype Entry = Entry(refCount: int, holder: Option<nat>)

  datatype Pc =
    | Acquiring(i: nat)
    | Waiting(i: nat)
    | Working
    | Releasing(i: nat)
    | Unreffing(i: nat)
    | Done

  /** got: the entries the thread took from the table for its first keys. */
  datatype Thread = Thread(keys: seq<string>, got: seq<nat>, pc: Pc)

  datatype State = State(locks: map<string, nat>, entries: map<nat, Entry>, threads: map<nat, Thread>)

  /** How many of its keys the thread has referenced, and how many it holds. */
  function Refs(t: Thread): int {
    match t.pc
    case Acquiring(i) => i
    case Waiting(i) => i + 1
    case Working => |t.keys|
    case Releasing(i) => i + 1
    case Unreffing(i) => i + 1
    case Done => 0
  }

  function Holds(t: Thread): int {
    if t.pc.Waiting? || t.pc.Unreffing? then Refs(t) - 1 else Refs(t)
  }

  ghost predicate ThreadOk(t: Thread) {
    && Ascending(t.keys) && 0 <= Refs(t) <= |t.got| <= |t.keys|
    && (t.pc.Acquiring? || t.pc.Waiting? ==> Refs(t) == |t.got|)
  }

  predicate RefsKey(t: Thread, k: string) {
    exists j :: 0 <= j < Refs(t) && j < |t.keys| && t.keys[j] == k
  }

  predicate HoldsKey(t: Thread, k: string) {
    exists j :: 0 <= j < Holds(t) && j < |t.keys| && t.keys[j] == k
  }

  /** A thread's next step; `e` is the identity of an entry it may have to create. */
  predicate Enabled(s: State, r: nat, e: nat) {
    && r in s.threads && e !in s.entries
    && var t := s.threads[r];
       match t.pc
       case Acquiring(i) => true
       case Waiting(i) => i < |t.got| && t.got[i] in s.entries && s.entries[t.got[i]].holder.None?
       case Working => true
       case Releasing(i) => i < |t.got| && t.got[i] in s.entries
       case Unreffing(i) => i < |t.got| && i < |t.keys| && t.got[i] in s.entries
       case Done => false
  }

  function Moved(s: State, r: nat, pc: Pc): State
    requires r in s.threads
  {
    s.(threads := s.threads[r := s.threads[r].(pc := pc)])
  }

  function Next(s: State, r: nat, e: nat): State
    requires Enabled(s, r, e)
  {
    var t := s.threads[r];
    match t.pc
    case Acquiring(i) => if i >= |t.keys| then Moved(s, r, Working) else Referenced(s, r, i, e)
    case Waiting(i) =>
      var x := t.got[i];
      Moved(s, r, Acquiring(i + 1)).(entries := s.entries[x := s.entries[x].(holder := Some(r))])
    case Working => Moved(s, r, if t.keys == [] then Done else Releasing(|t.keys| - 1))
    case Releasing(i) =>
      var x := t.got[i];
      Moved(s, r, Unreffing(i)).(entries := s.entries[x := s.entries[x].(holder := None)])
    case Unreffing(i) =>
      var x := t.got[i];
      var left := s.entries[x].refCount - 1;
      Moved(s, r, if i == 0 then Done else Releasing(i - 1)).(
        entries := s.entries[x := s.entries[x].(refCount := left)],
        locks := if left == 0 then s.locks - {t.keys[i]} else s.locks)
  }

  /** Lock's first critical section: find or create the entry and count the reference. */
  function Referenced(s: State, r: nat, i: nat, e: nat): State
    requires r in s.threads && i < |s.threads[r].keys| && e !in s.entries
  {
    var t := s.threads[r];
    var key := t.keys[i];
    var known := key in s.locks && s.locks[key] in s.entries;
    var x := if known then s.locks[key] else e;
    var count := if known then s.entries[x].refCount + 1 else 1;
    var holder := if known then s.entries[x].holder else None;
    State(s.locks[key := x], s.entries[x := Entry(count, holder)], s.threads[r := t.(got := t.got + [x], pc := Waiting(i))])
  }

  /** Any number of threads, each with the ascending keys of its one call. */
  ghost predicate Initial(s: State) {
    && s.locks == map[] && s.entries == map[]
    && forall r :: r in s.threads ==> s.threads[r].pc == Acquiring(0) && s.threads[r].got == [] && Ascending(s.threads[r].keys)
  }

  ghost predicate Run(ss: seq<State>, who: seq<(nat, nat)>) {
    && |ss| == |who| + 1 && Initial(ss[0])
    && forall i :: 0 <= i < |who| ==> Enabled(ss[i], who[i].0, who[i].1) && ss[i + 1] == Next(ss[i], who[i].0, who[i].1)
  }

  // ---- the invariant ----

  function Users(s: State, k: string): set<nat> {
    set r | r in s.threads && RefsKey(s.threads[r], k)
  }

  /** A referenced key is in the table under the entry the thread has. */
  ghost predicate GotOk(s: State, r: nat, j: nat)
    requires r in s.threads
  {
    var t := s.threads[r];
    0 <= j < Refs(t) && j < |t.keys| && j < |t.got| ==> t.keys[j] in s.locks && s.locks[t.keys[j]] == t.got[j]
  }

  /** The count is the number of holders and waiters, positive; the mutex is held by exactly the thread holding the key. */
  ghost predicate KeyOk(s: State, k: string)
    requires k in s.locks
  {
    && s.locks[k] in s.entries && s.entries[s.locks[k]].refCount == |Users(s, k)| > 0
    && (forall r :: r in s.threads ==> (HoldsKey(s.threads[r], k) <==> s.entries[s.locks[k]].holder == Some(r)))
    && (s.entries[s.locks[k]].holder.Some? ==> s.entries[s.locks[k]].holder.value in s.threads)
  }

  ghost predicate Inv(s: State) {
    && (forall r :: r in s.threads ==> ThreadOk(s.threads[r]))
    && (forall r, j :: r in s.threads ==> GotOk(s, r, j))
    && (forall k :: k in s.locks ==> KeyOk(s, k))
    && (forall k, l :: k in s.locks && l in s.locks && s.locks[k] == s.locks[l] ==> k == l)
  }

  lemma KeysDistinct(keys: seq<string>, i: nat, j: nat)
    requires Ascending(keys) && i < |keys| && j < |keys| && keys[i] == keys[j]
    ensures i == j
  {
    LessIrreflexive(keys[i]);
  }

  // ---- steps ----

  /** Only thread r changes, and it references and holds the same keys. */
  lemma IdleKeeps(s: State, r: nat, pc: Pc)
    requires Inv(s) && r in s.threads
    requires var t := s.threads[r]; var u := t.(pc := pc); ThreadOk(u) && Refs(u) == Refs(t) && Holds(u) == Holds(t)
    ensures Inv(Moved(s, r, pc))
  {
    var after := Moved(s, r, pc);
    forall q, j | q in after.threads ensures GotOk(after, q, j) {
      assert GotOk(s, q, j);
    }
    forall k | k in after.locks ensures KeyOk(after, k) {
      assert KeyOk(s, k);
      assert Users(after, k) == Users(s, k);
    }
  }

  /** The entry of key k changes its holder, and thread r its hold on k; nothing else changes. */
  ghost predicate HoldStep(s: State, t: State, r: nat, k: string, before: Option<nat>, holder: Option<nat>) {
    && t.locks == s.locks && k in s.locks && s.locks[k] in s.entries && s.entries[s.locks[k]].holder == before
    && t.entries == s.entries[s.locks[k] := s.entries[s.locks[k]].(holder := holder)]
    && r in s.threads && t.threads.Keys == s.threads.Keys
    && (forall q :: q in s.threads && q != r ==> t.threads[q] == s.threads[q])
    && t.threads[r].keys == s.threads[r].keys && t.threads[r].got == s.threads[r].got
    && Refs(t.threads[r]) == Refs(s.threads[r])
    && (forall l :: l != k ==> (HoldsKey(t.threads[r], l) <==> HoldsKey(s.threads[r], l)))
    && (HoldsKey(t.threads[r], k) <==> holder == Some(r))
    && ((before == None && holder == Some(r)) || (before == Some(r) && holder == None))
  }

  lemma HoldStepKeeps(s: State, t: State, r: nat, k: string, before: Option<nat>, holder: Option<nat>)
    requires Inv(s) && HoldStep(s, t, r, k, before, holder) && ThreadOk(t.threads[r])
    ensures Inv(t)
  {
    forall q, j | q in t.threads ensures GotOk(t, q, j) {
      assert GotOk(s, q, j);
    }
    forall l | l in t.locks ensures KeyOk(t, l) {
      HoldKeyOk(s, t, r, k, before, holder, l);
    }
  }

  lemma HoldKeyOk(s: State, t: State, r: nat, k: string, before: Option<nat>, holder: Option<nat>, l: string)
    requires HoldStep(s, t, r, k, before, holder) && l in s.locks && KeyOk(s, l) && KeyOk(s, k)
    requires s.locks[l] == s.locks[k] ==> l == k
    ensures KeyOk(t, l)
  {
    SameUsers(s, t, r, l);
    HoldersAfter(s, t, r, k, before, holder, l);
  }

  lemma SameUsers(s: State, t: State, r: nat, l: string)
    requires r in s.threads && t.threads.Keys == s.threads.Keys
    requires forall q :: q in s.threads && q != r ==> t.threads[q] == s.threads[q]
    requires RefsKey(t.threads[r], l) <==> RefsKey(s.threads[r], l)
    ensures Users(t, l) == Users(s, l)
  {
  }

  lemma HoldersAfter(s: State, t: State, r: nat, k: string, before: Option<nat>, holder: Option<nat>, l: string)
    requires HoldStep(s, t, r, k, before, holder) && l in s.locks && KeyOk(s, l) && KeyOk(s, k)
    requires s.locks[l] == s.locks[k] ==> l == k
    ensures forall q :: q in t.threads ==> (HoldsKey(t.threads[q], l) <==> t.entries[t.locks[l]].holder == Some(q))
  {
    forall q | q in t.threads ensures HoldsKey(t.threads[q], l) <==> t.entries[t.locks[l]].holder == Some(q) {
      assert HoldsKey(s.threads[q], l) <==> s.entries[s.locks[l]].holder == Some(q);
    }
  }

  lemma TakeKeeps(s: State, r: nat, e: nat)
    requires Inv(s) && Enabled(s, r, e) && s.threads[r].pc.Waiting?
    ensures Inv(Next(s, r, e))
  {
    var t, i := Next(s, r, e), s.threads[r].pc.i;
    var x, y := s.threads[r], t.threads[r];
    assert ThreadOk(x) && GotOk(s, r, i);
    var k := x.keys[i];
    assert KeyOk(s, k);
    forall l ensures HoldsKey(y, l) <==> HoldsKey(x, l) || l == k {
      assert l == k ==> 0 <= i < Holds(y) && y.keys[i] == l;
    }
    HoldStepKeeps(s, t, r, k, None, Some(r));
  }

  lemma UnlockKeeps(s: State, r: nat, e: nat)
    requires Inv(s) && Enabled(s, r, e) && s.threads[r].pc.Releasing?
    ensures Inv(Next(s, r, e))
  {
    var t, i := Next(s, r, e), s.threads[r].pc.i;
    var x, y := s.threads[r], t.threads[r];
    assert ThreadOk(x) && GotOk(s, r, i);
    var k := x.keys[i];
    assert KeyOk(s, k) && HoldsKey(x, k);
    forall l ensures HoldsKey(y, l) <==> HoldsKey(x, l) && l != k {
      LastKey(x, i, l);
    }
    HoldStepKeeps(s, t, r, k, Some(r), None);
  }

  /** Among the first i + 1 keys, those other than the last are the first i. */
  lemma LastKey(x: Thread, i: nat, l: string)
    requires Ascending(x.keys) && i < |x.keys|
    ensures (exists j :: 0 <= j < i && x.keys[j] == l) <==> (exists j :: 0 <= j < i + 1 && x.keys[j] == l) && l != x.keys[i]
  {
    forall j: nat | j < i && x.keys[j] == l ensures l != x.keys[i] && j < i + 1 {
      if l == x.keys[i] {
        KeysDistinct(x.keys, j, i);
      }
    }
    if exists j :: 0 <= j < i + 1 && x.keys[j] == l {
      var j :| 0 <= j < i + 1 && x.keys[j] == l;
      assert j == i || (0 <= j < i && x.keys[j] == l);
    }
  }

  /** Thread r references key k, whose entry x it found in the table or made; holds stay as they were. */
  ghost predicate RefStep(s: State, t: State, r: nat, k: string, x: nat) {
    && r in s.threads && t.threads.Keys == s.threads.Keys
    && (forall q :: q in s.threads && q != r ==> t.threads[q] == s.threads[q])
    && (forall l :: RefsKey(t.threads[r], l) <==> RefsKey(s.threads[r], l) || l == k)
    && (forall l :: HoldsKey(t.threads[r], l) <==> HoldsKey(s.threads[r], l))
    && !RefsKey(s.threads[r], k)
    && t.locks == s.locks[k := x]
    && (if k in s.locks then x == s.locks[k] && x in s.entries && t.entries == s.entries[x := s.entries[x].(refCount := s.entries[x].refCount + 1)]
        else x !in s.entries && t.entries == s.entries[x := Entry(1, None)])
  }

  lemma RefKeyOk(s: State, t: State, r: nat, k: string, x: nat, l: string)
    requires RefStep(s, t, r, k, x) && l in t.locks && (l in s.locks ==> KeyOk(s, l))
    requires k !in s.locks ==> Users(s, k) == {} && forall q :: q in s.threads ==> !HoldsKey(s.threads[q], k)
    requires l in s.locks && k in s.locks && s.locks[l] == s.locks[k] ==> l == k
    ensures KeyOk(t, l)
  {
    if l == k {
      ReferenceCounts(s, t, r, k);
    } else {
      SameUsers(s, t, r, l);
    }
    forall q | q in t.threads ensures HoldsKey(t.threads[q], l) <==> t.entries[t.locks[l]].holder == Some(q) {
      assert l in s.locks ==> (HoldsKey(s.threads[q], l) <==> s.entries[s.locks[l]].holder == Some(q));
    }
  }

  lemma IsRefStep(s: State, r: nat, e: nat)
    requires Enabled(s, r, e) && ThreadOk(s.threads[r]) && s.threads[r].pc.Acquiring? && s.threads[r].pc.i < |s.threads[r].keys|
    requires var k := s.threads[r].keys[s.threads[r].pc.i]; k in s.locks ==> s.locks[k] in s.entries
    ensures var k := s.threads[r].keys[s.threads[r].pc.i];
      RefStep(s, Next(s, r, e), r, k, if k in s.locks then s.locks[k] else e)
    ensures ThreadOk(Next(s, r, e).threads[r])
  {
    var t, i := Next(s, r, e), s.threads[r].pc.i;
    var x, y := s.threads[r], t.threads[r];
    NotYetReferenced(x, i);
    forall l ensures RefsKey(y, l) <==> RefsKey(x, l) || l == x.keys[i] {
      OneMoreRef(x, y, i, l);
    }
    forall l ensures HoldsKey(y, l) <==> HoldsKey(x, l) {
    }
  }

  lemma StillInjective(s: State, t: State, k: string, x: nat)
    requires forall l :: l in s.locks ==> s.locks[l] in s.entries
    requires forall l, m :: l in s.locks && m in s.locks && s.locks[l] == s.locks[m] ==> l == m
    requires t.locks == s.locks[k := x] && (if k in s.locks then x == s.locks[k] else x !in s.entries)
    ensures forall l, m :: l in t.locks && m in t.locks && t.locks[l] == t.locks[m] ==> l == m
  {
  }

  lemma RefStepKeeps(s: State, t: State, r: nat, k: string, x: nat)
    requires Inv(s) && RefStep(s, t, r, k, x) && ThreadOk(t.threads[r])
    requires forall q, j :: q in t.threads ==> GotOk(t, q, j)
    ensures Inv(t)
  {
    if k !in s.locks {
      FreshKeyUnused(s, k);
    }
    forall l | l in t.locks ensures KeyOk(t, l) {
      assert l in s.locks ==> KeyOk(s, l);
      RefKeyOk(s, t, r, k, x, l);
    }
    forall l | l in s.locks ensures s.locks[l] in s.entries {
      assert KeyOk(s, l);
    }
    StillInjective(s, t, k, x);
  }

  lemma ReferenceKeeps(s: State, r: nat, e: nat)
    requires Inv(s) && Enabled(s, r, e) && s.threads[r].pc.Acquiring? && s.threads[r].pc.i < |s.threads[r].keys|
    ensures Inv(Next(s, r, e))
  {
    var k := s.threads[r].keys[s.threads[r].pc.i];
    assert k in s.locks ==> KeyOk(s, k);
    assert ThreadOk(s.threads[r]);
    IsRefStep(s, r, e);
    ReferenceGot(s, r, e);
    RefStepKeeps(s, Next(s, r, e), r, k, if k in s.locks then s.locks[k] else e);
  }

  lemma NotYetReferenced(x: Thread, i: nat)
    requires Ascending(x.keys) && i < |x.keys| && Refs(x) <= i
    ensures !RefsKey(x, x.keys[i])
  {
    forall j: nat | j < Refs(x) && j < |x.keys| ensures x.keys[j] != x.keys[i] {
      if x.keys[j] == x.keys[i] {
        KeysDistinct(x.keys, j, i);
      }
    }
  }

  lemma OneMoreRef(x: Thread, y: Thread, i: nat, l: string)
    requires x.keys == y.keys && i < |x.keys| && Refs(x) == i && Refs(y) == i + 1
    ensures RefsKey(y, l) <==> RefsKey(x, l) || l == x.keys[i]
  {
    if l == x.keys[i] {
      assert 0 <= i < Refs(y) && y.keys[i] == l;
    }
  }

  lemma ReferenceGot(s: State, r: nat, e: nat)
    requires Inv(s) && Enabled(s, r, e) && s.threads[r].pc.Acquiring? && s.threads[r].pc.i < |s.threads[r].keys|
    ensures forall q, j :: q in Next(s, r, e).threads ==> GotOk(Next(s, r, e), q, j)
  {
    var t := Next(s, r, e);
    var k := s.threads[r].keys[s.threads[r].pc.i];
    forall q, j | q in t.threads ensures GotOk(t, q, j) {
      assert GotOk(s, q, j) && ThreadOk(s.threads[r]);
      assert k in s.locks ==> KeyOk(s, k);
    }
  }

  /** A key outside the table is referenced and held by nobody. */
  lemma FreshKeyUnused(s: State, k: string)
    requires Inv(s) && k !in s.locks
    ensures Users(s, k) == {} && forall q :: q in s.threads ==> !HoldsKey(s.threads[q], k)
  {
    forall q | q in s.threads ensures !RefsKey(s.threads[q], k) && !HoldsKey(s.threads[q], k) {
      forall j: nat | j < Refs(s.threads[q]) && j < |s.threads[q].keys| ensures s.threads[q].keys[j] != k {
        assert ThreadOk(s.threads[q]) && GotOk(s, q, j);
      }
    }
  }

  lemma ReferenceCounts(s: State, t: State, r: nat, k: string)
    requires r in s.threads && t.threads.Keys == s.threads.Keys
    requires forall q :: q in s.threads && q != r ==> t.threads[q] == s.threads[q]
    requires RefsKey(t.threads[r], k) && !RefsKey(s.threads[r], k)
    ensures |Users(t, k)| == |Users(s, k)| + 1
  {
    assert Users(t, k) == Users(s, k) + {r};
  }

  /** Thread r gives up its reference to k; the last one takes the key out of the table. */
  ghost predicate UnrefStep(s: State, t: State, r: nat, k: string) {
    && r in s.threads && t.threads.Keys == s.threads.Keys
    && (forall q :: q in s.threads && q != r ==> t.threads[q] == s.threads[q])
    && (forall l :: RefsKey(t.threads[r], l) <==> RefsKey(s.threads[r], l) && l != k)
    && (forall l :: HoldsKey(t.threads[r], l) <==> HoldsKey(s.threads[r], l))
    && RefsKey(s.threads[r], k)
    && k in s.locks && s.locks[k] in s.entries
    && var x := s.locks[k];
       && t.entries == s.entries[x := s.entries[x].(refCount := s.entries[x].refCount - 1)]
       && t.locks == if s.entries[x].refCount == 1 then s.locks - {k} else s.locks
  }

  lemma UnreferenceCounts(s: State, t: State, r: nat, k: string)
    requires UnrefStep(s, t, r, k)
    ensures |Users(t, k)| == |Users(s, k)| - 1
  {
    assert Users(s, k) == Users(t, k) + {r} && r !in Users(t, k);
  }

  lemma UnrefKeyOk(s: State, t: State, r: nat, k: string, l: string)
    requires UnrefStep(s, t, r, k) && l in t.locks && KeyOk(s, l) && KeyOk(s, k)
    requires s.locks[l] == s.locks[k] ==> l == k
    ensures KeyOk(t, l)
  {
    if l == k {
      UnreferenceCounts(s, t, r, k);
    } else {
      SameUsers(s, t, r, l);
    }
    forall q | q in t.threads ensures HoldsKey(t.threads[q], l) <==> t.entries[t.locks[l]].holder == Some(q) {
      assert HoldsKey(s.threads[q], l) <==> s.entries[s.locks[l]].holder == Some(q);
    }
  }

  lemma UnrefGotOk(s: State, t: State, r: nat, k: string, q: nat, j: nat)
    requires UnrefStep(s, t, r, k) && KeyOk(s, k) && q in t.threads && GotOk(s, q, j)
    requires Refs(t.threads[r]) <= Refs(s.threads[r]) && t.threads[r].keys == s.threads[r].keys && t.threads[r].got == s.threads[r].got
    ensures GotOk(t, q, j)
  {
    UnreferenceCounts(s, t, r, k);
    var x := t.threads[q];
    if j < Refs(x) && j < |x.keys| && x.keys[j] == k {
      assert RefsKey(x, k) && q in Users(t, k);
    }
  }

  lemma UnrefStepKeeps(s: State, t: State, r: nat, k: string)
    requires Inv(s) && UnrefStep(s, t, r, k) && ThreadOk(t.threads[r])
    requires Refs(t.threads[r]) <= Refs(s.threads[r]) && t.threads[r].keys == s.threads[r].keys && t.threads[r].got == s.threads[r].got
    ensures Inv(t)
  {
    assert KeyOk(s, k);
    forall l | l in t.locks ensures KeyOk(t, l) {
      UnrefKeyOk(s, t, r, k, l);
    }
    forall q, j | q in t.threads ensures GotOk(t, q, j) {
      assert GotOk(s, q, j);
      if j >= 0 {
        UnrefGotOk(s, t, r, k, q, j);
      }
    }
  }

  lemma UnreferenceKeeps(s: State, r: nat, e: nat)
    requires Inv(s) && Enabled(s, r, e) && s.threads[r].pc.Unreffing?
    ensures Inv(Next(s, r, e))
  {
    var t, i := Next(s, r, e), s.threads[r].pc.i;
    var x, y := s.threads[r], t.threads[r];
    var k := x.keys[i];
    assert ThreadOk(x) && GotOk(s, r, i) && KeyOk(s, k);
    assert 0 <= i < Refs(x) && x.keys[i] == k;
    forall l ensures RefsKey(y, l) <==> RefsKey(x, l) && l != k {
      LastKey(x, i, l);
    }
    forall l ensures HoldsKey(y, l) <==> HoldsKey(x, l) {
    }
    UnrefStepKeeps(s, t, r, k);
  }

  lemma StepKeeps(s: State, r: nat, e: nat)
    requires Inv(s) && Enabled(s, r, e)
    ensures Inv(Next(s, r, e))
  {
    var t := s.threads[r];
    assert ThreadOk(t);
    match t.pc
    case Acquiring(i) => if i < |t.keys| { ReferenceKeeps(s, r, e); } else { IdleKeeps(s, r, Working); }
    case Waiting(i) => TakeKeeps(s, r, e);
    case Working => IdleKeeps(s, r, if t.keys == [] then Done else Releasing(|t.keys| - 1));
    case Releasing(i) => UnlockKeeps(s, r, e);
    case Unreffing(i) => UnreferenceKeeps(s, r, e);
  }

  lemma {:induction false} RunKeeps(ss: seq<State>, who: seq<(nat, nat)>, i: nat)
    requires Run(ss, who) && i < |ss|
    ensures Inv(ss[i])
  {
    if i > 0 {
      RunKeeps(ss, who, i - 1);
      StepKeeps(ss[i - 1], who[i - 1].0, who[i - 1].1);
    }
  }

  // ---- the theorems ----

  /** At most one thread holds a key. */
  lemma MutualExclusion(ss: seq<State>, who: seq<(nat, nat)>, i: nat, g: nat, h: nat, k: string)
    requires Run(ss, who) && i < |ss| && g in ss[i].threads && h in ss[i].threads
    requires HoldsKey(ss[i].threads[g], k) && HoldsKey(ss[i].threads[h], k)
    ensures g == h
  {
    RunKeeps(ss, who, i);
    HeldIsReferenced(ss[i], g, k);
    assert KeyOk(ss[i], k);
  }

  lemma HeldIsReferenced(s: State, r: nat, k: string)
    requires Inv(s) && r in s.threads && HoldsKey(s.threads[r], k)
    ensures k in s.locks
  {
    var t := s.threads[r];
    var j :| 0 <= j < Refs(t) && j < |t.keys| && t.keys[j] == k;
    assert ThreadOk(t) && GotOk(s, r, j);
  }

  /** A key is in the table exactly while some thread holds or awaits it, and its count is their number. */
  lemma InTableIffInUse(ss: seq<State>, who: seq<(nat, nat)>, i: nat, k: string)
    requires Run(ss, who) && i < |ss|
    ensures k in ss[i].locks <==> Users(ss[i], k) != {}
    ensures k in ss[i].locks ==> ss[i].locks[k] in ss[i].entries && ss[i].entries[ss[i].locks[k]].refCount == |Users(ss[i], k)|
  {
    RunKeeps(ss, who, i);
    if k in ss[i].locks {
      assert KeyOk(ss[i], k);
    } else {
      FreshKeyUnused(ss[i], k);
    }
  }

  ghost predicate AllDone(s: State) {
    forall r :: r in s.threads ==> s.threads[r].pc.Done?
  }

  /** When all threads are done the table is empty. */
  lemma EndsEmpty(ss: seq<State>, who: seq<(nat, nat)>, i: nat)
    requires Run(ss, who) && i < |ss| && AllDone(ss[i])
    ensures ss[i].locks == map[]
  {
    forall k ensures k !in ss[i].locks {
      InTableIffInUse(ss, who, i, k);
      assert Users(ss[i], k) == {};
    }
  }

  // ---- progress ----

  function KeysAbove(s: State, k: string): set<string> {
    set r, j | r in s.threads && 0 <= j < |s.threads[r].keys| && Less(k, s.threads[r].keys[j]) :: s.threads[r].keys[j]
  }

  /** The keys above the one thread r waits for. */
  function Wanted(s: State, r: nat): set<string>
    requires r in s.threads
  {
    var t := s.threads[r];
    if t.pc.Waiting? && t.pc.i < |t.keys| then KeysAbove(s, t.keys[t.pc.i]) else {}
  }

  /** From a thread that waits, follow holders to ever greater keys until one can step. */
  lemma {:induction false} SomeoneSteps(s: State, r: nat, e: nat) returns (q: nat)
    requires Inv(s) && r in s.threads && !s.threads[r].pc.Done? && e !in s.entries
    ensures Enabled(s, q, e)
    decreases s.threads[r].pc.Waiting?, Wanted(s, r)
  {
    var t := s.threads[r];
    assert ThreadOk(t);
    if !t.pc.Waiting? {
      if t.pc.Releasing? || t.pc.Unreffing? {
        assert GotOk(s, r, t.pc.i) && KeyOk(s, t.keys[t.pc.i]);
      }
      return r;
    }
    var k := t.keys[t.pc.i];
    assert GotOk(s, r, t.pc.i) && KeyOk(s, k);
    var holder := s.entries[s.locks[k]].holder;
    if holder.None? {
      return r;
    }
    var h := holder.value;
    assert HoldsKey(s.threads[h], k);
    HolderWantsMore(s, h, k);
    q := SomeoneSteps(s, h, e);
  }

  /** A thread that holds k is not done, and if it waits, it waits for a greater key. */
  lemma HolderWantsMore(s: State, h: nat, k: string)
    requires h in s.threads && ThreadOk(s.threads[h]) && HoldsKey(s.threads[h], k)
    ensures !s.threads[h].pc.Done?
    ensures s.threads[h].pc.Waiting? ==> Wanted(s, h) < KeysAbove(s, k)
  {
    var u := s.threads[h];
    var j :| 0 <= j < Holds(u) && j < |u.keys| && u.keys[j] == k;
    if u.pc.Waiting? {
      var wanted := u.keys[u.pc.i];
      assert Less(k, wanted);
      forall x | x in KeysAbove(s, wanted) ensures x in KeysAbove(s, k) {
        LessTransitive(k, wanted, x);
      }
      LessIrreflexive(wanted);
      assert wanted in KeysAbove(s, k) && wanted !in KeysAbove(s, wanted);
    }
  }

  /** In every reachable state in which some thread has not finished, some thread can step. */
  lemma NoDeadlock(ss: seq<State>, who: seq<(nat, nat)>, i: nat, e: nat)
    requires Run(ss, who) && i < |ss| && !AllDone(ss[i]) && e !in ss[i].entries
    ensures exists q :: Enabled(ss[i], q, e)
  {
    RunKeeps(ss, who, i);
    var r :| r in ss[i].threads && !ss[i].threads[r].pc.Done?;
    var q := SomeoneSteps(ss[i], r, e);
  }

  /** Steps a thread still has to take. */
  function StepsLeft(t: Thread): int {
    var n := |t.keys|;
    match t.pc
    case Acquiring(i) => 2 * (n - i) + 2 * n + 2
    case Waiting(i) => 2 * (n - i) + 2 * n + 1
    case Working => 2 * n + 1
    case Releasing(i) => 2 * i + 2
    case Unreffing(i) => 2 * i + 1
    case Done => 0
  }

  /** Every step brings its thread closer to the end and leaves the others where they are. */
  lemma StepsRunOut(ss: seq<State>, who: seq<(nat, nat)>, i: nat)
    requires Run(ss, who) && i < |who|
    ensures var r := who[i].0;
      && r in ss[i].threads && r in ss[i + 1].threads
      && 0 <= StepsLeft(ss[i + 1].threads[r]) < StepsLeft(ss[i].threads[r])
      && forall q :: q != r && q in ss[i].threads ==> q in ss[i + 1].threads && ss[i + 1].threads[q] == ss[i].threads[q]
  {
    RunKeeps(ss, who, i);
    RunKeeps(ss, who, i + 1);
    var r := who[i].0;
    assert ThreadOk(ss[i].threads[r]) && ThreadOk(ss[i + 1].threads[r]);
  }
}
