/** The byte-bounded LRU cache of file contents (pkg/contentcache/cache.go). */
module ContentCache {
  import opened Basics
  import opened Paths

  datatype Signature = Signature(size: int, modTime: int)

  datatype Entry = Entry(path: Path, sig: Signature, content: Bytes)

  /** The cache as a value: its entries, most recently used first. */
  type Recency = seq<Entry>

  // ---- recency lists ----

  function Total(lru: Recency): nat {
    if lru == [] then 0 else |lru[0].content| + Total(lru[1..])
  }

  function PathsOf(lru: Recency): set<Path> {
    set e | e in lru :: e.path
  }

  ghost predicate DistinctPaths(lru: Recency) {
    forall i, j :: 0 <= i < j < |lru| ==> lru[i].path != lru[j].path
  }

  /** The list without the entries stored at the given keys; the rest keeps its order. */
  function Drop(lru: Recency, keys: set<Path>): Recency {
    if lru == [] then []
    else if lru[0].path in keys then Drop(lru[1..], keys)
    else [lru[0]] + Drop(lru[1..], keys)
  }

  /** Evict from the back until the rest fits. */
  function Fit(max: int, lru: Recency): Recency {
    if Total(lru) <= max || lru == [] then lru else Fit(max, lru[..|lru| - 1])
  }

  lemma {:induction false} DropMembers(lru: Recency, keys: set<Path>)
    ensures forall e :: e in Drop(lru, keys) <==> e in lru && e.path !in keys
  {
    if lru != [] {
      DropMembers(lru[1..], keys);
      assert lru == [lru[0]] + lru[1..];
    }
  }

  lemma {:induction false} DropDistinct(lru: Recency, keys: set<Path>)
    requires DistinctPaths(lru)
    ensures DistinctPaths(Drop(lru, keys))
  {
    if lru != [] {
      DropDistinct(lru[1..], keys);
      DropMembers(lru[1..], keys);
      assert forall e :: e in lru[1..] ==> e.path != lru[0].path;
    }
  }

  lemma {:induction false} DropNothing(lru: Recency, keys: set<Path>)
    requires forall e :: e in lru ==> e.path !in keys
    ensures Drop(lru, keys) == lru
  {
    if lru != [] {
      DropNothing(lru[1..], keys);
    }
  }

  lemma {:induction false} DropTwice(lru: Recency, a: set<Path>, b: set<Path>)
    ensures Drop(Drop(lru, a), b) == Drop(lru, a + b)
  {
    if lru != [] {
      DropTwice(lru[1..], a, b);
    }
  }

  lemma {:induction false} DropOneTotal(lru: Recency, e: Entry)
    requires DistinctPaths(lru) && e in lru
    ensures Total(Drop(lru, {e.path})) == Total(lru) - |e.content|
  {
    if lru[0] == e {
      forall d | d in lru[1..] ensures d.path != e.path {
        var j :| 0 <= j < |lru[1..]| && lru[1..][j] == d;
        assert lru[j + 1] == d;
      }
      DropNothing(lru[1..], {e.path});
    } else {
      assert e in lru[1..];
      var j :| 0 <= j < |lru[1..]| && lru[1..][j] == e;
      assert lru[j + 1] == e;
      DropOneTotal(lru[1..], e);
    }
  }

  lemma {:induction false} DropTotal(lru: Recency, keys: set<Path>)
    ensures Total(Drop(lru, keys)) <= Total(lru)
  {
    if lru != [] {
      DropTotal(lru[1..], keys);
    }
  }

  lemma {:induction false} TotalAppend(a: Recency, b: Recency)
    ensures Total(a + b) == Total(a) + Total(b)
  {
    if a == [] {
      assert a + b == b;
    } else {
      assert (a + b)[1..] == a[1..] + b;
      TotalAppend(a[1..], b);
    }
  }

  lemma {:induction false} DropAppendLast(lru: Recency, e: Entry, keys: set<Path>)
    ensures Drop(lru + [e], keys) == Drop(lru, keys) + (if e.path in keys then [] else [e])
  {
    if lru == [] {
      assert lru + [e] == [e];
    } else {
      assert (lru + [e])[1..] == lru[1..] + [e];
      DropAppendLast(lru[1..], e, keys);
    }
  }

  /** What eviction keeps is the longest prefix of the recency order that fits. */
  lemma {:induction false} FitLongest(max: int, lru: Recency)
    requires max >= 0
    ensures Fit(max, lru) <= lru && Total(Fit(max, lru)) <= max
    ensures forall n :: |Fit(max, lru)| < n <= |lru| ==> Total(lru[..n]) > max
    decreases |lru|
  {
    if Total(lru) > max {
      var shorter := lru[..|lru| - 1];
      FitLongest(max, shorter);
      forall n | |Fit(max, lru)| < n <= |lru| ensures Total(lru[..n]) > max {
        assert n < |lru| ==> lru[..n] == shorter[..n];
        assert n == |lru| ==> lru[..n] == lru;
      }
    }
  }

  /** An entry that fits on its own survives eviction when it is the most recent one. */
  lemma FitKeepsNewest(max: int, lru: Recency)
    requires lru != [] && |lru[0].content| <= max
    ensures Fit(max, lru) != [] && Fit(max, lru)[0] == lru[0]
  {
    FitLongest(max, lru);
    assert lru[..1] == [lru[0]];
    assert Total(lru[..1]) == |lru[0].content|;
  }

  // ---- the operations on values ----

  datatype Op =
    | Get(path: string, sig: Signature)
    | Put(path: string, sig: Signature, content: Bytes)
    | Invalidate(path: string)
    | InvalidatePrefix(path: string)
    | Clear

  /** The bytes a Get returns. */
  function Hit(max: int, lru: Recency, key: Path, sig: Signature): Option<Bytes> {
    if max <= 0 || lru == [] then None
    else if lru[0].path == key then (if lru[0].sig == sig then Some(lru[0].content) else None)
    else Hit(max, lru[1..], key, sig)
  }

  function Below(lru: Recency, prefix: Path): set<Path> {
    set e | e in lru && prefix <= e.path :: e.path
  }

  /** The recency list after an operation. */
  function Step(max: int, lru: Recency, op: Op): Recency {
    if max <= 0 && !op.Clear? then lru
    else
      match op
      case Get(path, sig) =>
        var hit := Hit(max, lru, Key(path), sig);
        var rest := Drop(lru, {Key(path)});
        if hit.Some? then [Entry(Key(path), sig, hit.value)] + rest else rest
      case Put(path, sig, content) =>
        var rest := Drop(lru, {Key(path)});
        if |content| > max then rest else Fit(max, [Entry(Key(path), sig, content)] + rest)
      case Invalidate(path) => Drop(lru, {Key(path)})
      case InvalidatePrefix(path) => Drop(lru, Below(lru, Key(path)))
      case Clear => []
  }

  function Run(max: int, ops: seq<Op>): Recency {
    if ops == [] then [] else Step(max, Run(max, ops[..|ops| - 1]), ops[|ops| - 1])
  }

  lemma {:induction false} HitFinds(max: int, lru: Recency, key: Path, sig: Signature)
    requires max > 0
    ensures Hit(max, lru, key, sig).Some? ==> Entry(key, sig, Hit(max, lru, key, sig).value) in lru
    ensures DistinctPaths(lru) ==> forall e :: e in lru && e.path == key ==>
      Hit(max, lru, key, sig) == if e.sig == sig then Some(e.content) else None
    ensures key !in PathsOf(lru) ==> Hit(max, lru, key, sig) == None
  {
    if lru != [] {
      HitFinds(max, lru[1..], key, sig);
      assert lru == [lru[0]] + lru[1..];
      if lru[0].path == key && DistinctPaths(lru) {
        forall e | e in lru && e.path == key ensures e == lru[0] {
          var j :| 0 <= j < |lru| && lru[j] == e;
        }
      }
      assert lru[0].path in PathsOf(lru);
      assert PathsOf(lru[1..]) <= PathsOf(lru);
    }
  }

  lemma GoneIsBelow(lru: Recency, entries: map<Path, Entry>, prefix: Path, gone: set<Path>)
    requires forall e :: e in lru ==> e.path in entries && entries[e.path] == e
    requires forall k :: k in entries ==> entries[k] in lru && entries[k].path == k
    requires forall k :: k in gone <==> k in entries && prefix <= k
    ensures gone == Below(lru, prefix)
  {
    forall k | k in gone ensures k in Below(lru, prefix) {
      assert entries[k] in lru;
    }
  }

  // ---- the cache object ----

  class Cache {
    const maxBytes: int
    var used: int
    var lru: Recency
    var entries: map<Path, Entry>

    /** Map and list hold the same entries, and used is the sum of their lengths. */
    ghost predicate Linked()
      reads this
    {
      && DistinctPaths(lru) && used == Total(lru)
      && (forall e :: e in lru ==> e.path in entries && entries[e.path] == e && Canonical(e.path))
      && (forall k :: k in entries ==> entries[k] in lru && entries[k].path == k)
    }

    ghost predicate Valid()
      reads this
    {
      Linked() && (maxBytes > 0 ==> used <= maxBytes) && (maxBytes <= 0 ==> lru == [])
    }

    constructor (maxBytes: int)
      ensures Valid() && lru == [] && this.maxBytes == maxBytes
    {
      this.maxBytes := maxBytes;
      used, lru, entries := 0, [], map[];
    }

    /** The negative-used clamp never fires: used drops by exactly the entry's length. */
    method RemoveElement(item: Entry)
      requires Linked() && item in lru
      modifies this
      ensures Linked() && lru == Drop(old(lru), {item.path})
      ensures used == old(used) - |item.content|
    {
      DropOneTotal(lru, item);
      DropMembers(lru, {item.path});
      DropDistinct(lru, {item.path});
      entries := entries - {item.path};
      lru := Drop(lru, {item.path});
      used := used - |item.content|;
      if used < 0 {
        used := 0;
      }
      forall e | e in lru ensures e.path in entries && entries[e.path] == e {
        assert e in old(lru) && e.path != item.path;
      }
      forall k | k in entries ensures entries[k] in lru {
        assert old(entries)[k] in old(lru);
      }
    }

    method Get(relPath: string, sig: Signature) returns (r: Option<Bytes>)
      requires Valid()
      modifies this
      ensures Valid()
      ensures r == Hit(maxBytes, old(lru), Key(relPath), sig)
      ensures lru == Step(maxBytes, old(lru), Op.Get(relPath, sig))
    {
      if maxBytes <= 0 {
        return None;
      }
      var key := Key(relPath);
      HitFinds(maxBytes, lru, key, sig);
      if key !in entries {
        DropNothing(lru, {key});
        assert key !in PathsOf(lru);
        return None;
      }
      var item := entries[key];
      if item.sig != sig {
        RemoveElement(item);
        return None;
      }
      MoveToFront(item);
      return Some(item.content);
    }

    method MoveToFront(item: Entry)
      requires Valid() && item in lru
      modifies this`lru
      ensures Valid() && lru == [item] + Drop(old(lru), {item.path})
    {
      DropMembers(lru, {item.path});
      DropDistinct(lru, {item.path});
      DropOneTotal(lru, item);
      lru := [item] + Drop(lru, {item.path});
      forall e ensures e in lru <==> e in old(lru) {
        if e in old(lru) && e.path == item.path {
          assert entries[e.path] == e && entries[item.path] == item;
        }
      }
    }

    method Put(relPath: string, sig: Signature, content: Bytes) returns (stored: bool)
      requires Valid()
      modifies this
      ensures Valid()
      ensures stored == (maxBytes > 0 && |content| <= maxBytes)
      ensures lru == Step(maxBytes, old(lru), Op.Put(relPath, sig, content))
      ensures stored ==> lru != [] && lru[0] == Entry(Key(relPath), sig, content)
    {
      if maxBytes <= 0 {
        return false;
      }
      var key := Key(relPath);
      NormalizeSpellsKey(relPath);
      if |content| > maxBytes {
        DropIfPresent(key);
        return false;
      }
      DropIfPresent(key);
      DropMembers(old(lru), {key});
      PushFront(Entry(key, sig, content));
      FitKeepsNewest(maxBytes, lru);
      EvictLocked();
      return true;
    }

    method PushFront(item: Entry)
      requires Valid() && maxBytes > 0 && Canonical(item.path)
      requires forall e :: e in lru ==> e.path != item.path
      modifies this
      ensures Linked() && lru == [item] + old(lru)
    {
      lru := [item] + lru;
      entries := entries[item.path := item];
      used := used + |item.content|;
      assert lru[1..] == old(lru);
      assert forall e :: e in lru <==> e == item || e in old(lru);
    }

    method DropIfPresent(key: Path)
      requires Valid()
      modifies this
      ensures Valid() && lru == Drop(old(lru), {key})
    {
      if key in entries {
        RemoveElement(entries[key]);
      } else {
        DropNothing(lru, {key});
      }
      DropTotal(old(lru), {key});
    }

    method EvictLocked()
      requires Linked() && maxBytes > 0
      modifies this
      ensures Valid() && lru == Fit(maxBytes, old(lru))
    {
      while used > maxBytes
        invariant Linked()
        invariant Fit(maxBytes, lru) == Fit(maxBytes, old(lru))
        decreases |lru|
      {
        if lru == [] {
          return;
        }
        var back := lru[|lru| - 1];
        ghost var front := lru[..|lru| - 1];
        assert lru == front + [back];
        DropAppendLast(front, back, {back.path});
        DropNothing(front, {back.path});
        RemoveElement(back);
        assert lru == front;
      }
    }

    method Invalidate(relPath: string)
      requires Valid()
      modifies this
      ensures Valid() && lru == Step(maxBytes, old(lru), Op.Invalidate(relPath))
    {
      if maxBytes <= 0 {
        return;
      }
      DropIfPresent(Key(relPath));
    }

    method RemoveIfBelow(path: Path, key: string, ghost prefix: Path)
      requires Valid() && path in entries && Canonical(prefix) && key == Join(prefix)
      modifies this
      ensures Valid() && lru == if prefix <= path then Drop(old(lru), {path}) else old(lru)
    {
      assert entries[path] in lru;
      MatchesPrefixIsAncestor(path, prefix);
      if MatchesPrefix(Join(path), key) {
        DropTotal(lru, {path});
        RemoveElement(entries[path]);
      }
    }

    method InvalidatePrefix(relPath: string)
      requires Valid()
      modifies this
      ensures Valid() && lru == Step(maxBytes, old(lru), Op.InvalidatePrefix(relPath))
    {
      if maxBytes <= 0 {
        return;
      }
      NormalizeSpellsKey(relPath);
      RemoveBelow(Normalize(relPath), Key(relPath));
    }

    method RemoveBelow(key: string, ghost prefix: Path)
      requires Valid() && Canonical(prefix) && key == Join(prefix)
      modifies this
      ensures Valid() && lru == Drop(old(lru), Below(old(lru), prefix))
    {
      var todo := entries.Keys;
      ghost var lru0, entries0 := lru, entries;
      ghost var gone: set<Path> := {};
      DropNothing(lru, {});
      while todo != {}
        invariant Valid() && lru == Drop(lru0, gone)
        invariant todo <= entries0.Keys && todo !! gone
        invariant forall k :: k in gone <==> k in entries0 && k !in todo && prefix <= k
        decreases todo
      {
        var path :| path in todo;
        DropMembers(lru0, gone);
        assert entries0[path] in lru0 && entries0[path] in lru;
        DropTwice(lru0, gone, {path});
        RemoveIfBelow(path, key, prefix);
        if prefix <= path {
          gone := gone + {path};
        }
        todo := todo - {path};
      }
      GoneIsBelow(lru0, entries0, prefix, gone);
    }

    method Clear()
      requires Valid()
      modifies this
      ensures Valid() && lru == Step(maxBytes, old(lru), Op.Clear)
    {
      used, lru, entries := 0, [], map[];
    }
  }

  // ---- whole histories ----

  /** Every history leaves a list of distinct keys within the budget, that is, what Valid requires. */
  lemma {:induction false} RunBounded(max: int, ops: seq<Op>)
    ensures DistinctPaths(Run(max, ops))
    ensures max > 0 ==> Total(Run(max, ops)) <= max
    ensures max <= 0 ==> Run(max, ops) == []
  {
    if ops != [] {
      var before := ops[..|ops| - 1];
      RunBounded(max, before);
      StepBounded(max, Run(max, before), ops[|ops| - 1]);
    }
  }

  lemma StepBounded(max: int, lru: Recency, op: Op)
    requires DistinctPaths(lru) && (max > 0 ==> Total(lru) <= max) && (max <= 0 ==> lru == [])
    ensures var after := Step(max, lru, op);
      DistinctPaths(after) && (max > 0 ==> Total(after) <= max) && (max <= 0 ==> after == [])
  {
    if max > 0 {
      match op
      case Get(path, sig) =>
        StepGetBounded(max, lru, Key(path), sig);
      case Put(path, sig, content) =>
        DropMembers(lru, {Key(path)});
        DropDistinct(lru, {Key(path)});
        DropTotal(lru, {Key(path)});
        FitLongest(max, [Entry(Key(path), sig, content)] + Drop(lru, {Key(path)}));
      case Invalidate(path) => DropDistinct(lru, {Key(path)}); DropTotal(lru, {Key(path)});
      case InvalidatePrefix(path) => DropDistinct(lru, Below(lru, Key(path))); DropTotal(lru, Below(lru, Key(path)));
      case Clear =>
    }
  }

  lemma StepGetBounded(max: int, lru: Recency, key: Path, sig: Signature)
    requires max > 0 && DistinctPaths(lru)
    ensures var hit := Hit(max, lru, key, sig);
      var after := if hit.Some? then [Entry(key, sig, hit.value)] + Drop(lru, {key}) else Drop(lru, {key});
      DistinctPaths(after) && Total(after) <= Total(lru)
  {
    HitFinds(max, lru, key, sig);
    DropMembers(lru, {key});
    DropDistinct(lru, {key});
    DropTotal(lru, {key});
    var hit := Hit(max, lru, key, sig);
    if hit.Some? {
      var e := Entry(key, sig, hit.value);
      DropOneTotal(lru, e);
      assert ([e] + Drop(lru, {key}))[1..] == Drop(lru, {key});
    }
  }

  /** Operations after which an entry stored at key under sig may no longer be served. */
  predicate Spoils(op: Op, key: Path, sig: Signature) {
    match op
    case Get(path, asked) => Key(path) == key && asked != sig
    case Put(path, _, _) => Key(path) == key
    case Invalidate(path) => Key(path) == key
    case InvalidatePrefix(path) => Key(path) <= key
    case Clear => true
  }

  /** The history contains a Put of exactly this entry that nothing later spoils. */
  ghost predicate Justified(ops: seq<Op>, e: Entry) {
    exists i :: 0 <= i < |ops| && PutsEntry(ops[i], e) && forall j :: i < j < |ops| ==> !Spoils(ops[j], e.path, e.sig)
  }

  predicate PutsEntry(op: Op, e: Entry) {
    op.Put? && Key(op.path) == e.path && op.sig == e.sig && op.content == e.content
  }

  lemma JustifiedNext(ops: seq<Op>, op: Op, e: Entry)
    ensures Justified(ops + [op], e) <==> PutsEntry(op, e) || (Justified(ops, e) && !Spoils(op, e.path, e.sig))
  {
    var all := ops + [op];
    if PutsEntry(op, e) {
      assert PutsEntry(all[|ops|], e);
    } else if Justified(ops, e) && !Spoils(op, e.path, e.sig) {
      var i :| 0 <= i < |ops| && PutsEntry(ops[i], e) && forall j :: i < j < |ops| ==> !Spoils(ops[j], e.path, e.sig);
      assert PutsEntry(all[i], e);
    }
    if Justified(all, e) && !PutsEntry(op, e) {
      var i :| 0 <= i < |all| && PutsEntry(all[i], e) && forall j :: i < j < |all| ==> !Spoils(all[j], e.path, e.sig);
      assert i < |ops| && PutsEntry(ops[i], e) && !Spoils(all[|ops|], e.path, e.sig);
      assert forall j :: i < j < |ops| ==> all[j] == ops[j];
    }
  }

  /** Everything the cache holds, after any history, is justified by it. */
  lemma {:induction false} EntriesJustified(max: int, ops: seq<Op>, e: Entry)
    requires e in Run(max, ops)
    ensures Justified(ops, e)
  {
    if ops != [] {
      var before, op := ops[..|ops| - 1], ops[|ops| - 1];
      assert ops == before + [op];
      JustifiedNext(before, op, e);
      RunBounded(max, before);
      RunBounded(max, ops);
      StepKeepsOnly(max, Run(max, before), op, e);
      if !PutsEntry(op, e) {
        EntriesJustified(max, before, e);
      }
    }
  }

  /** An entry present after a step was put by it, or was present before and not spoilt. */
  lemma StepKeepsOnly(max: int, lru: Recency, op: Op, e: Entry)
    requires max > 0 && DistinctPaths(lru) && e in Step(max, lru, op)
    ensures PutsEntry(op, e) || (e in lru && !Spoils(op, e.path, e.sig))
  {
    match op
    case Get(path, sig) => DropMembers(lru, {Key(path)}); HitFinds(max, lru, Key(path), sig);
    case Put(path, sig, content) =>
      DropMembers(lru, {Key(path)});
      FitLongest(max, [Entry(Key(path), sig, content)] + Drop(lru, {Key(path)}));
    case Invalidate(path) => DropMembers(lru, {Key(path)});
    case InvalidatePrefix(path) => DropMembers(lru, Below(lru, Key(path)));
    case Clear =>
  }

  /** No operation but a Put changes which entries are stored, other than to take away the ones it spoils. */
  lemma StepKeepsExactly(max: int, lru: Recency, op: Op, e: Entry)
    requires max > 0 && DistinctPaths(lru) && !op.Put?
    ensures e in Step(max, lru, op) <==> e in lru && !Spoils(op, e.path, e.sig)
  {
    match op
    case Get(path, sig) =>
      DropMembers(lru, {Key(path)});
      HitFinds(max, lru, Key(path), sig);
    case Invalidate(path) => DropMembers(lru, {Key(path)});
    case InvalidatePrefix(path) => DropMembers(lru, Below(lru, Key(path)));
    case Clear =>
  }

  /** lru[..i] + lru[n..] is the list without the entry of the key, if it has one. */
  ghost predicate Without(lru: Recency, key: Path, i: nat, n: nat) {
    && i <= n <= |lru| && n <= i + 1 && (i < n ==> lru[i].path == key)
    && (forall j :: 0 <= j < i ==> lru[j].path != key) && (forall j :: n <= j < |lru| ==> lru[j].path != key)
  }

  lemma {:induction false} DropIsWithout(lru: Recency, key: Path) returns (i: nat, n: nat)
    requires DistinctPaths(lru)
    ensures Without(lru, key, i, n) && Drop(lru, {key}) == lru[..i] + lru[n..]
  {
    if lru == [] {
      i, n := 0, 0;
    } else if lru[0].path == key {
      i, n := 0, 1;
      assert forall j :: 0 <= j < |lru[1..]| ==> lru[1..][j] == lru[j + 1];
      DropNothing(lru[1..], {key});
    } else {
      i, n := DropIsWithout(lru[1..], key);
      WithoutLater(lru, key, i, n);
      i, n := i + 1, n + 1;
    }
  }

  lemma WithoutLater(lru: Recency, key: Path, i: nat, n: nat)
    requires lru != [] && lru[0].path != key && Without(lru[1..], key, i, n)
    ensures Without(lru, key, i + 1, n + 1) && lru[..i + 1] + lru[n + 1..] == [lru[0]] + (lru[1..][..i] + lru[1..][n..])
  {
    assert forall j :: 0 < j < |lru| ==> lru[j] == lru[1..][j - 1];
  }

  /** A Put takes the old entry of its key out. When the content is within the budget, the new entry comes first and as
      many of the others follow, most recent first, as fit; otherwise nothing else happens. */
  lemma PutMeaning(max: int, lru: Recency, path: string, sig: Signature, content: Bytes) returns (i: nat, n: nat)
    requires max > 0 && DistinctPaths(lru)
    ensures Without(lru, Key(path), i, n)
    ensures var rest, after := lru[..i] + lru[n..], Step(max, lru, Put(path, sig, content));
      if |content| > max then after == rest
      else
        var queue := [Entry(Key(path), sig, content)] + rest;
        && after != [] && after <= queue && Total(after) <= max
        && forall m :: |after| < m <= |queue| ==> Total(queue[..m]) > max
  {
    i, n := DropIsWithout(lru, Key(path));
    if |content| <= max {
      FitLongest(max, [Entry(Key(path), sig, content)] + Drop(lru, {Key(path)}));
      FitKeepsNewest(max, [Entry(Key(path), sig, content)] + Drop(lru, {Key(path)}));
    }
  }

  /** Every hit returns the bytes of the most recent Put at that normalised path, that Put carried the
      queried signature, and no covering invalidation, clear or mismatched Get came later. */
  lemma HitJustified(max: int, ops: seq<Op>, path: string, sig: Signature)
    requires Hit(max, Run(max, ops), Key(path), sig).Some?
    ensures Justified(ops, Entry(Key(path), sig, Hit(max, Run(max, ops), Key(path), sig).value))
  {
    HitFinds(max, Run(max, ops), Key(path), sig);
    EntriesJustified(max, ops, Entry(Key(path), sig, Hit(max, Run(max, ops), Key(path), sig).value));
  }

  // ---- the unbounded cache ----

  type Ideal = map<Path, Entry>

  /** The same operation on a cache that never evicts and accepts every Put. */
  function IdealStep(m: Ideal, op: Op): Ideal {
    match op
    case Get(path, sig) => if Key(path) in m && m[Key(path)].sig != sig then m - {Key(path)} else m
    case Put(path, sig, content) => m[Key(path) := Entry(Key(path), sig, content)]
    case Invalidate(path) => m - {Key(path)}
    case InvalidatePrefix(path) => map k | k in m && !(Key(path) <= k) :: m[k]
    case Clear => map[]
  }

  function IdealRun(ops: seq<Op>): Ideal {
    if ops == [] then map[] else IdealStep(IdealRun(ops[..|ops| - 1]), ops[|ops| - 1])
  }

  /** The unbounded cache holds exactly the justified entries. */
  lemma {:induction false} IdealExact(ops: seq<Op>, e: Entry)
    ensures Justified(ops, e) <==> e.path in IdealRun(ops) && IdealRun(ops)[e.path] == e
  {
    if ops != [] {
      var before, op := ops[..|ops| - 1], ops[|ops| - 1];
      assert ops == before + [op];
      JustifiedNext(before, op, e);
      IdealExact(before, e);
    }
  }

  /** So the bounded cache is always a part of the unbounded one fed with the same calls. */
  lemma BoundedWithinIdeal(max: int, ops: seq<Op>)
    ensures forall e :: e in Run(max, ops) ==> e.path in IdealRun(ops) && IdealRun(ops)[e.path] == e
  {
    forall e | e in Run(max, ops) ensures e.path in IdealRun(ops) && IdealRun(ops)[e.path] == e {
      EntriesJustified(max, ops, e);
      IdealExact(ops, e);
    }
  }

  // ---- recency ----

  /** The operation last used the entry at key. */
  predicate Touches(op: Op, key: Path) {
    (op.Get? || op.Put?) && Key(op.path) == key
  }

  /** When the key was last asked for or stored; -1 if never. */
  function LastTouch(ops: seq<Op>, key: Path): int {
    if ops == [] then -1
    else if Touches(ops[|ops| - 1], key) then |ops| - 1
    else LastTouch(ops[..|ops| - 1], key)
  }

  lemma {:induction false} LastTouchEarlier(ops: seq<Op>, key: Path)
    ensures LastTouch(ops, key) < |ops|
  {
    if ops != [] {
      LastTouchEarlier(ops[..|ops| - 1], key);
    }
  }

  ghost predicate ByRecency(ops: seq<Op>, lru: Recency) {
    forall i, j :: 0 <= i < j < |lru| ==> LastTouch(ops, lru[i].path) > LastTouch(ops, lru[j].path)
  }

  lemma {:induction false} DropByRecency(ops: seq<Op>, lru: Recency, keys: set<Path>)
    requires ByRecency(ops, lru)
    ensures ByRecency(ops, Drop(lru, keys))
  {
    if lru != [] {
      DropByRecency(ops, lru[1..], keys);
      DropMembers(lru[1..], keys);
    }
  }

  /** Entries other than the one just used keep their times. */
  lemma OthersKeepTimes(ops: seq<Op>, op: Op, lru: Recency)
    requires ByRecency(ops, lru) && forall e :: e in lru ==> !Touches(op, e.path)
    ensures ByRecency(ops + [op], lru)
    ensures forall e :: e in lru ==> LastTouch(ops + [op], e.path) == LastTouch(ops, e.path) < |ops|
  {
    assert (ops + [op])[..|ops|] == ops;
    forall e | e in lru ensures LastTouch(ops + [op], e.path) == LastTouch(ops, e.path) < |ops| {
      LastTouchEarlier(ops, e.path);
    }
    forall i, j | 0 <= i < j < |lru| ensures LastTouch(ops + [op], lru[i].path) > LastTouch(ops + [op], lru[j].path) {
      assert lru[i] in lru && lru[j] in lru;
    }
  }

  lemma NewestFirst(ops: seq<Op>, op: Op, e: Entry, rest: Recency)
    requires ByRecency(ops, rest) && Touches(op, e.path) && forall d :: d in rest ==> !Touches(op, d.path)
    ensures ByRecency(ops + [op], [e] + rest)
  {
    OthersKeepTimes(ops, op, rest);
    assert (ops + [op])[|ops|] == op;
    assert forall j :: 0 <= j < |rest| ==> rest[j] in rest;
  }

  lemma StepByRecency(max: int, ops: seq<Op>, lru: Recency, op: Op)
    requires max > 0 && ByRecency(ops, lru)
    ensures ByRecency(ops + [op], Step(max, lru, op))
  {
    match op
    case Get(path, sig) =>
      DropMembers(lru, {Key(path)});
      DropByRecency(ops, lru, {Key(path)});
      var hit := Hit(max, lru, Key(path), sig);
      if hit.Some? {
        NewestFirst(ops, op, Entry(Key(path), sig, hit.value), Drop(lru, {Key(path)}));
      } else {
        OthersKeepTimes(ops, op, Drop(lru, {Key(path)}));
      }
    case Put(path, sig, content) =>
      var e := Entry(Key(path), sig, content);
      DropMembers(lru, {Key(path)});
      DropByRecency(ops, lru, {Key(path)});
      NewestFirst(ops, op, e, Drop(lru, {Key(path)}));
      OthersKeepTimes(ops, op, Drop(lru, {Key(path)}));
      FitLongest(max, [e] + Drop(lru, {Key(path)}));
    case Invalidate(path) =>
      DropByRecency(ops, lru, {Key(path)});
      OthersKeepTimes(ops, op, Drop(lru, {Key(path)}));
    case InvalidatePrefix(path) =>
      DropByRecency(ops, lru, Below(lru, Key(path)));
      OthersKeepTimes(ops, op, Drop(lru, Below(lru, Key(path))));
    case Clear =>
  }

  /** After every history the list is in the order of last use, so what eviction drops from the back is
      what was least recently used. */
  lemma {:induction false} RunByRecency(max: int, ops: seq<Op>)
    ensures ByRecency(ops, Run(max, ops))
  {
    RunBounded(max, ops);
    if ops != [] && max > 0 {
      var before, op := ops[..|ops| - 1], ops[|ops| - 1];
      RunByRecency(max, before);
      StepByRecency(max, before, Run(max, before), op);
      assert ops == before + [op];
    }
  }
}
