/** The manager's session table (pkg/session/manager.go) under concurrent connects, disconnects,
    removals, lookups and expiry (pkg/session/service.go): the newest session of a user wins. Each
    critical section is one step; a lookup is three, since it checks expiry outside the lock. */
module SessionTable {
  import opened Basics

  /** How a connection stands: not yet registered, registered, or past HandleDisconnect. */
  datatype Stage = Created | Registered(prev: Option<nat>) | Serving | Disconnected

  /** replaced: closed with ErrSessionReplaced. The disconnect time and `removed` are history. */
  datatype Session = Session(
    user: string,
    stage: Stage,
    replaced: bool,
    offlineUntil: Option<int>,
    disconnectedAt: Option<int>,
    removed: bool)

  type Table = map<string, nat>

  predicate Expired(x: Session, now: int) {
    x.offlineUntil.Some? && x.offlineUntil.value <= now
  }

  /** pruneExpiredLocked. */
  function Pruned(table: Table, sessions: map<nat, Session>, now: int): Table {
    map u | u in table && !(table[u] in sessions && Expired(sessions[table[u]], now)) :: table[u]
  }

  // ---- the manager's critical sections ----

  datatype Core = Core(table: Table, sessions: map<nat, Session>)

  function RegisterIn(c: Core, n: nat, now: int): (Core, Option<nat>)
    requires n in c.sessions
  {
    var user := c.sessions[n].user;
    var kept := Pruned(c.table, c.sessions, now);
    (c.(table := kept[user := n]), if user in kept then Some(kept[user]) else None)
  }

  predicate Current(c: Core, n: nat)
    requires n in c.sessions
  {
    c.sessions[n].user in c.table && c.table[c.sessions[n].user] == n
  }

  function RemoveIn(c: Core, n: nat): Core
    requires n in c.sessions
  {
    if Current(c, n) then c.(table := c.table - {c.sessions[n].user}) else c
  }

  function RemoveExpiredIn(c: Core, user: string, n: nat, now: int): Core {
    if user in c.table && c.table[user] == n && n in c.sessions && Expired(c.sessions[n], now) then c.(table := c.table - {user}) else c
  }

  /** RetainOffline. */
  function Retained(x: Session, until: int): Session {
    if x.replaced then x else x.(offlineUntil := Some(until))
  }

  function DisconnectIn(c: Core, n: nat, replacedErr: bool, ttl: int, now: int): Core
    requires n in c.sessions
  {
    if !Current(c, n) then c
    else if replacedErr || ttl <= 0 then c.(table := c.table - {c.sessions[n].user})
    else
      var sessions := c.sessions[n := Retained(c.sessions[n], now + ttl)];
      Core(Pruned(c.table, sessions, now), sessions)
  }

  class Manager {
    const ttl: int
    var table: Table
    var sessions: map<nat, Session>

    ghost function Contents(): Core
      reads this
    {
      Core(table, sessions)
    }

    constructor (ttl: int)
      ensures this.ttl == ttl && Contents() == Core(map[], map[])
    {
      this.ttl := ttl;
      table, sessions := map[], map[];
    }

    method PruneExpiredLocked(now: int)
      modifies this`table
      ensures table == Pruned(old(table), sessions, now)
    {
      var todo := table.Keys;
      while todo != {}
        invariant todo <= old(table).Keys
        invariant forall u :: u in todo ==> u in table
        invariant table == map u | u in old(table) && (u in todo || u in Pruned(old(table), sessions, now)) :: old(table)[u]
        decreases todo
      {
        var user :| user in todo;
        var n := table[user];
        todo := todo - {user};
        if n in sessions && Expired(sessions[n], now) {
          table := table - {user};
        }
      }
    }

    method Register(n: nat, now: int) returns (prev: Option<nat>)
      requires n in sessions
      modifies this`table
      ensures (Contents(), prev) == RegisterIn(old(Contents()), n, now)
    {
      var user := sessions[n].user;
      PruneExpiredLocked(now);
      prev := if user in table then Some(table[user]) else None;
      table := table[user := n];
    }

    /** Get, when nothing happens between its steps. */
    method Get(user: string, now: int) returns (r: Option<nat>)
      requires forall u :: u in table ==> table[u] in sessions
      modifies this`table
      ensures r == if user in old(table) && !Expired(sessions[old(table)[user]], now) then Some(old(table)[user]) else None
      ensures Contents() == if user in old(table) then RemoveExpiredIn(old(Contents()), user, old(table)[user], now) else old(Contents())
    {
      if user !in table {
        return None;
      }
      var n := table[user];
      if Expired(sessions[n], now) {
        RemoveExpired(user, n, now);
        return None;
      }
      return Some(n);
    }

    method RemoveExpired(user: string, expired: nat, now: int)
      modifies this`table
      ensures Contents() == RemoveExpiredIn(old(Contents()), user, expired, now)
    {
      if user in table && table[user] == expired && expired in sessions && Expired(sessions[expired], now) {
        table := table - {user};
      }
    }

    method Remove(n: nat)
      requires n in sessions
      modifies this`table
      ensures Contents() == RemoveIn(old(Contents()), n)
    {
      var user := sessions[n].user;
      if user in table && table[user] == n {
        table := table - {user};
      }
    }

    method HandleDisconnect(n: nat, replacedErr: bool, now: int)
      requires n in sessions
      modifies this
      ensures Contents() == DisconnectIn(old(Contents()), n, replacedErr, ttl, now)
      ensures !Current(old(Contents()), n) ==> Contents() == old(Contents())
      ensures forall m :: m in old(sessions) && m != n ==> m in sessions && sessions[m] == old(sessions)[m]
      ensures forall u :: u in table ==> u in old(table) && table[u] == old(table)[u]
      ensures Current(old(Contents()), n) && (replacedErr || ttl <= 0) ==> table == old(table) - {sessions[n].user}
      ensures Current(old(Contents()), n) && !replacedErr && ttl > 0 && !old(sessions)[n].replaced ==>
        Current(Contents(), n) && sessions[n].offlineUntil == Some(now + ttl)
    {
      var user := sessions[n].user;
      if user !in table || table[user] != n {
        return;
      }
      if replacedErr || ttl <= 0 {
        table := table - {user};
        return;
      }
      sessions := sessions[n := Retained(sessions[n], now + ttl)];
      PruneExpiredLocked(now);
    }
  }

  // ---- all interleavings ----

  datatype Lookup = Looked(user: string, n: nat) | Removing(user: string, n: nat) | Answered(user: string, found: Option<nat>)

  /** latest: the session most recently registered for each user. */
  datatype State = State(core: Core, now: int, latest: map<string, nat>, lookups: map<nat, Lookup>)

  datatype Action =
    | Tick(now: int)
    | Connect(n: nat, user: string)
    | Register(n: nat)
    | ClosePrevious(n: nat)
    | Disconnect(n: nat, replacedErr: bool)
    | Remove(n: nat)
    | Prune
    | Look(g: nat, user: string)
    | Check(g: nat)
    | Evict(g: nat)

  predicate Enabled(s: State, a: Action) {
    match a
    case Tick(now) => s.now <= now
    case Connect(n, user) => n !in s.core.sessions && user != ""
    case Register(n) => n in s.core.sessions && s.core.sessions[n].stage.Created?
    case ClosePrevious(n) =>
      && n in s.core.sessions && s.core.sessions[n].stage.Registered?
      && (s.core.sessions[n].stage.prev.Some? ==> s.core.sessions[n].stage.prev.value in s.core.sessions)
    case Disconnect(n, _) => n in s.core.sessions && s.core.sessions[n].stage.Serving?
    case Remove(n) => n in s.core.sessions
    case Prune => true
    case Look(g, user) => g !in s.lookups
    case Check(g) => g in s.lookups && s.lookups[g].Looked? && s.lookups[g].n in s.core.sessions
    case Evict(g) => g in s.lookups && s.lookups[g].Removing?
  }

  function With(c: Core, n: nat, x: Session): Core {
    c.(sessions := c.sessions[n := x])
  }

  function Next(ttl: int, s: State, a: Action): State
    requires Enabled(s, a)
  {
    match a
    case Tick(now) => s.(now := now)
    case Connect(n, user) => s.(core := With(s.core, n, Session(user, Created, false, None, None, false)))
    case Register(n) =>
      var (core, prev) := RegisterIn(s.core, n, s.now);
      var x := s.core.sessions[n];
      s.(core := With(core, n, x.(stage := Registered(prev))), latest := s.latest[x.user := n])
    case ClosePrevious(n) =>
      var x := s.core.sessions[n];
      var served := With(s.core, n, x.(stage := Serving));
      s.(core := if x.stage.prev.None? then served
                 else With(served, x.stage.prev.value, served.sessions[x.stage.prev.value].(replaced := true)))
    case Disconnect(n, replacedErr) =>
      var core := DisconnectIn(s.core, n, replacedErr, ttl, s.now);
      s.(core := With(core, n, core.sessions[n].(stage := Disconnected, disconnectedAt := Some(s.now))))
    case Remove(n) =>
      var x := s.core.sessions[n];
      s.(core := With(RemoveIn(s.core, n), n, x.(removed := x.removed || Current(s.core, n))))
    case Prune => s.(core := s.core.(table := Pruned(s.core.table, s.core.sessions, s.now)))
    case Look(g, user) =>
      s.(lookups := s.lookups[g := if user in s.core.table then Looked(user, s.core.table[user]) else Answered(user, None)])
    case Check(g) =>
      var l := s.lookups[g];
      s.(lookups := s.lookups[g :=
        if Expired(s.core.sessions[l.n], s.now) then Removing(l.user, l.n) else Answered(l.user, Some(l.n))])
    case Evict(g) =>
      var l := s.lookups[g];
      s.(core := RemoveExpiredIn(s.core, l.user, l.n, s.now), lookups := s.lookups[g := Answered(l.user, None)])
  }

  ghost predicate Run(ttl: int, ss: seq<State>, acts: seq<Action>) {
    && |ss| == |acts| + 1 && ss[0].core == Core(map[], map[]) && ss[0].latest == map[] && ss[0].lookups == map[]
    && forall i :: 0 <= i < |acts| ==> Enabled(ss[i], acts[i]) && ss[i + 1] == Next(ttl, ss[i], acts[i])
  }

  // ---- the invariant ----

  /** Someone has taken the session's place, or is about to close it for that reason. */
  ghost predicate SessionOk(ttl: int, s: State, n: nat)
    requires n in s.core.sessions
  {
    var x := s.core.sessions[n];
    && x.user != ""
    && (x.offlineUntil.Some? ==> ttl > 0 && x.disconnectedAt.Some? && x.offlineUntil.value == x.disconnectedAt.value + ttl)
    && (x.disconnectedAt.Some? <==> x.stage.Disconnected?)
    && (x.stage.Created? ==> !x.removed && !x.replaced && (x.user in s.latest ==> s.latest[x.user] != n))
    && (!x.stage.Created? ==> x.user in s.latest)
    && (x.replaced ==> s.latest[x.user] != n)
    && (x.stage.Registered? && x.stage.prev.Some? ==> Superseded(s, x.stage.prev.value, x.user))
  }

  ghost predicate Superseded(s: State, n: nat, user: string) {
    && n in s.core.sessions && s.core.sessions[n].user == user && !s.core.sessions[n].stage.Created?
    && user in s.latest && s.latest[user] != n
  }

  ghost predicate EntryOk(s: State, user: string)
    requires user in s.core.table
  {
    var n := s.core.table[user];
    && n in s.core.sessions && s.core.sessions[n].user == user
    && user in s.latest && s.latest[user] == n && !s.core.sessions[n].removed
    && (s.core.sessions[n].stage.Disconnected? ==> s.core.sessions[n].offlineUntil.Some?)
  }

  /** The newest session is in the table until it is removed, let go at its disconnect, or expired. */
  ghost predicate LatestOk(s: State, user: string)
    requires user in s.latest
  {
    var n := s.latest[user];
    && n in s.core.sessions && s.core.sessions[n].user == user && !s.core.sessions[n].stage.Created?
    && (InForce(s.core.sessions[n], s.now) ==> user in s.core.table && s.core.table[user] == n)
  }

  /** Connected, or offline and kept for less than the TTL. */
  predicate InForce(x: Session, now: int) {
    !x.removed && (x.stage.Disconnected? ==> x.offlineUntil.Some? && now < x.offlineUntil.value)
  }

  ghost predicate LookupOk(s: State, g: nat)
    requires g in s.lookups
  {
    var l := s.lookups[g];
    l.Looked? || l.Removing? ==>
      && l.n in s.core.sessions && s.core.sessions[l.n].user == l.user
      && l.user in s.latest && !s.core.sessions[l.n].stage.Created?
  }

  ghost predicate Inv(ttl: int, s: State) {
    && (forall n :: n in s.core.sessions ==> SessionOk(ttl, s, n))
    && (forall user :: user in s.core.table ==> EntryOk(s, user))
    && (forall user :: user in s.latest ==> LatestOk(s, user))
    && (forall g :: g in s.lookups ==> LookupOk(s, g))
  }

  // ---- every step keeps it ----

  lemma StepKeeps(ttl: int, s: State, a: Action)
    requires Inv(ttl, s) && Enabled(s, a)
    ensures Inv(ttl, Next(ttl, s, a))
  {
    var t := Next(ttl, s, a);
    ActorOk(ttl, s, a);
    forall n | n in t.core.sessions ensures SessionOk(ttl, t, n) {
      assert n in s.core.sessions ==> SessionOk(ttl, s, n);
      SessionKept(ttl, s, a, n);
    }
    forall user | user in t.core.table ensures EntryOk(t, user) {
      assert user in s.core.table ==> EntryOk(s, user);
      EntryKept(ttl, s, a, user);
    }
    forall user | user in t.latest ensures LatestOk(t, user) {
      assert user in s.latest ==> LatestOk(s, user) && SessionOk(ttl, s, s.latest[user]);
      LatestKept(ttl, s, a, user);
    }
    forall g | g in t.lookups ensures LookupOk(t, g) {
      assert g in s.lookups ==> LookupOk(s, g);
      LookupKept(ttl, s, a, g);
    }
  }

  /** What the invariant says about the session an action is about, and its user's table entry. */
  ghost predicate Actor(ttl: int, s: State, a: Action) {
    match a
    case Connect(n, user) => user in s.latest ==> s.latest[user] in s.core.sessions
    case Register(n) => Pointed(ttl, s, n)
    case ClosePrevious(n) => Pointed(ttl, s, n)
    case Disconnect(n, _) => Pointed(ttl, s, n)
    case Remove(n) => Pointed(ttl, s, n)
    case Look(g, user) => user in s.core.table ==> EntryOk(s, user) && Pointed(ttl, s, s.core.table[user])
    case _ => true
  }

  ghost predicate Pointed(ttl: int, s: State, n: nat) {
    && n in s.core.sessions && SessionOk(ttl, s, n)
    && (s.core.sessions[n].user in s.core.table ==>
          && EntryOk(s, s.core.sessions[n].user)
          && SessionOk(ttl, s, s.core.table[s.core.sessions[n].user]))
  }

  lemma ActorOk(ttl: int, s: State, a: Action)
    requires Inv(ttl, s) && Enabled(s, a)
    ensures Actor(ttl, s, a)
  {
    forall n | n in s.core.sessions ensures Pointed(ttl, s, n) {
      assert SessionOk(ttl, s, n);
      assert s.core.sessions[n].user in s.core.table ==> EntryOk(s, s.core.sessions[n].user);
    }
    if a.Look? && a.user in s.core.table {
      assert EntryOk(s, a.user);
    }
    if a.Connect? && a.user in s.latest {
      assert LatestOk(s, a.user);
    }
  }

  lemma SessionKept(ttl: int, s: State, a: Action, n: nat)
    requires Actor(ttl, s, a) && Enabled(s, a) && n in Next(ttl, s, a).core.sessions
    requires n in s.core.sessions ==> SessionOk(ttl, s, n)
    ensures SessionOk(ttl, Next(ttl, s, a), n)
  {
    match a
    case Register(m) => SessionAtRegister(ttl, s, m, n);
    case ClosePrevious(m) => SessionAtClose(ttl, s, m, n);
    case Disconnect(m, replacedErr) => SessionAtDisconnect(ttl, s, m, replacedErr, n);
    case _ =>
  }

  lemma SessionAtRegister(ttl: int, s: State, m: nat, n: nat)
    requires Actor(ttl, s, Register(m)) && Enabled(s, Register(m)) && n in s.core.sessions && SessionOk(ttl, s, n)
    ensures SessionOk(ttl, Next(ttl, s, Register(m)), n)
  {
    var t := Next(ttl, s, Register(m));
    assert t.core.sessions.Keys == s.core.sessions.Keys;
    assert forall k :: k in s.core.sessions && k != m ==> t.core.sessions[k] == s.core.sessions[k];
  }

  lemma SessionAtClose(ttl: int, s: State, m: nat, n: nat)
    requires Actor(ttl, s, ClosePrevious(m)) && Enabled(s, ClosePrevious(m)) && n in s.core.sessions && SessionOk(ttl, s, n)
    ensures SessionOk(ttl, Next(ttl, s, ClosePrevious(m)), n)
  {
  }

  lemma SessionAtDisconnect(ttl: int, s: State, m: nat, replacedErr: bool, n: nat)
    requires Actor(ttl, s, Disconnect(m, replacedErr)) && Enabled(s, Disconnect(m, replacedErr))
    requires n in s.core.sessions && SessionOk(ttl, s, n)
    ensures SessionOk(ttl, Next(ttl, s, Disconnect(m, replacedErr)), n)
  {
  }

  lemma EntryKept(ttl: int, s: State, a: Action, user: string)
    requires Actor(ttl, s, a) && Enabled(s, a) && user in Next(ttl, s, a).core.table
    requires user in s.core.table ==> EntryOk(s, user)
    ensures EntryOk(Next(ttl, s, a), user)
  {
    match a
    case Disconnect(m, replacedErr) => EntryAtDisconnect(ttl, s, m, replacedErr, user);
    case ClosePrevious(m) => EntryAtClose(ttl, s, m, user);
    case _ =>
  }

  lemma EntryAtDisconnect(ttl: int, s: State, m: nat, replacedErr: bool, user: string)
    requires Actor(ttl, s, Disconnect(m, replacedErr)) && Enabled(s, Disconnect(m, replacedErr))
    requires user in Next(ttl, s, Disconnect(m, replacedErr)).core.table && user in s.core.table && EntryOk(s, user)
    ensures EntryOk(Next(ttl, s, Disconnect(m, replacedErr)), user)
  {
  }

  lemma EntryAtClose(ttl: int, s: State, m: nat, user: string)
    requires Actor(ttl, s, ClosePrevious(m)) && Enabled(s, ClosePrevious(m)) && user in s.core.table && EntryOk(s, user)
    ensures EntryOk(Next(ttl, s, ClosePrevious(m)), user)
  {
  }

  lemma LatestKept(ttl: int, s: State, a: Action, user: string)
    requires Actor(ttl, s, a) && Enabled(s, a) && user in Next(ttl, s, a).latest
    requires user in s.latest ==> LatestOk(s, user) && SessionOk(ttl, s, s.latest[user])
    ensures LatestOk(Next(ttl, s, a), user)
  {
    match a
    case Disconnect(m, replacedErr) => LatestAtDisconnect(ttl, s, m, replacedErr, user);
    case _ =>
  }

  lemma LatestAtDisconnect(ttl: int, s: State, m: nat, replacedErr: bool, user: string)
    requires Actor(ttl, s, Disconnect(m, replacedErr)) && Enabled(s, Disconnect(m, replacedErr))
    requires user in s.latest && LatestOk(s, user) && SessionOk(ttl, s, s.latest[user])
    ensures LatestOk(Next(ttl, s, Disconnect(m, replacedErr)), user)
  {
  }

  lemma LookupKept(ttl: int, s: State, a: Action, g: nat)
    requires Actor(ttl, s, a) && Enabled(s, a) && g in Next(ttl, s, a).lookups
    requires g in s.lookups ==> LookupOk(s, g)
    ensures LookupOk(Next(ttl, s, a), g)
  {
  }

  lemma {:induction false} RunKeeps(ttl: int, ss: seq<State>, acts: seq<Action>, i: nat)
    requires Run(ttl, ss, acts) && i < |ss|
    ensures Inv(ttl, ss[i])
  {
    if i > 0 {
      RunKeeps(ttl, ss, acts, i - 1);
      StepKeeps(ttl, ss[i - 1], acts[i - 1]);
    }
  }

  // ---- the theorems ----

  /** What a lookup made in one go at this moment would find. */
  function Visible(s: State, user: string): Option<nat> {
    if user in s.core.table && s.core.table[user] in s.core.sessions && !Expired(s.core.sessions[s.core.table[user]], s.now)
    then Some(s.core.table[user]) else None
  }

  /** Exactly the user's most recently registered session is visible, and exactly while it is connected or
      has been offline for less than the TTL, unless it was removed. */
  lemma NewestSessionWins(ttl: int, ss: seq<State>, acts: seq<Action>, i: nat, user: string, n: nat)
    requires Run(ttl, ss, acts) && i < |ss|
    ensures Visible(ss[i], user) == Some(n) <==>
      user in ss[i].latest && ss[i].latest[user] == n && n in ss[i].core.sessions && InForce(ss[i].core.sessions[n], ss[i].now)
  {
    RunKeeps(ttl, ss, acts, i);
    assert user in ss[i].core.table ==> EntryOk(ss[i], user) && SessionOk(ttl, ss[i], ss[i].core.table[user]);
    assert user in ss[i].latest ==> LatestOk(ss[i], user) && SessionOk(ttl, ss[i], ss[i].latest[user]);
  }

  /** The session a step acts for, if any. */
  function ActsFor(s: State, a: Action): Option<nat> {
    match a
    case ClosePrevious(n) => Some(n)
    case Disconnect(n, _) => Some(n)
    case Remove(n) => Some(n)
    case Evict(g) => if g in s.lookups && s.lookups[g].Removing? then Some(s.lookups[g].n) else None
    case _ => None
  }

  /** A visible session leaves the table only by its own disconnect or removal, by a newer registration of its
      user, or because its time is up. */
  lemma OnlyItselfOrNewer(ttl: int, s: State, a: Action, user: string)
    requires Inv(ttl, s) && Enabled(s, a) && user in s.core.table
    requires user !in Next(ttl, s, a).core.table || Next(ttl, s, a).core.table[user] != s.core.table[user]
    ensures var n := s.core.table[user];
      || (n in s.core.sessions && Expired(s.core.sessions[n], s.now))
      || ((a.Disconnect? || a.Remove?) && ActsFor(s, a) == Some(n))
      || (a.Register? && Next(ttl, s, a).latest[user] == a.n != n)
  {
    ActorOk(ttl, s, a);
    assert EntryOk(s, user);
    match a
    case Disconnect(m, _) => assert s.core.sessions[m].user == user ==> Pointed(ttl, s, m);
    case _ =>
  }

  /** No step of an older session changes what is visible. */
  lemma OlderSessionsHarmless(ttl: int, ss: seq<State>, acts: seq<Action>, i: nat, user: string, n: nat)
    requires Run(ttl, ss, acts) && i < |acts| && Visible(ss[i], user) == Some(n)
    requires ActsFor(ss[i], acts[i]).Some? && ActsFor(ss[i], acts[i]) != Some(n)
    ensures Visible(ss[i + 1], user) == Some(n)
  {
    RunKeeps(ttl, ss, acts, i);
    RunKeeps(ttl, ss, acts, i + 1);
    var s, t := ss[i], ss[i + 1];
    assert user in t.core.table && t.core.table[user] == n by {
      if user !in t.core.table || t.core.table[user] != n {
        OnlyItselfOrNewer(ttl, s, acts[i], user);
      }
    }
    assert EntryOk(s, user) && EntryOk(t, user);
    SameTimes(ttl, s, acts[i], n);
  }

  lemma SameTimes(ttl: int, s: State, a: Action, n: nat)
    requires Enabled(s, a) && ActsFor(s, a).Some? && ActsFor(s, a) != Some(n) && n in s.core.sessions
    ensures Next(ttl, s, a).now == s.now && n in Next(ttl, s, a).core.sessions
    ensures Next(ttl, s, a).core.sessions[n].offlineUntil == s.core.sessions[n].offlineUntil
  {
  }

  /** A lookup, however interleaved, never answers with a session at or past its disconnect time plus the TTL. */
  lemma NeverAnswersExpired(ttl: int, ss: seq<State>, acts: seq<Action>, i: nat, g: nat, n: nat)
    requires Run(ttl, ss, acts) && i < |acts| && acts[i] == Check(g) && ss[i + 1].lookups[g] == Answered(ss[i].lookups[g].user, Some(n))
    ensures n in ss[i].core.sessions && ss[i].core.sessions[n].user == ss[i].lookups[g].user
    ensures var x := ss[i].core.sessions[n]; x.offlineUntil.Some? ==> x.disconnectedAt.Some? && ss[i].now < x.disconnectedAt.value + ttl
  {
    RunKeeps(ttl, ss, acts, i);
    assert LookupOk(ss[i], g) && SessionOk(ttl, ss[i], n);
  }

  /** The session kept offline is never one that was closed as replaced, so keeping it is never refused. */
  lemma RetainNeverRefused(ttl: int, ss: seq<State>, acts: seq<Action>, i: nat, n: nat)
    requires Run(ttl, ss, acts) && i < |ss| && n in ss[i].core.sessions && Current(ss[i].core, n)
    ensures !ss[i].core.sessions[n].replaced
  {
    RunKeeps(ttl, ss, acts, i);
    assert EntryOk(ss[i], ss[i].core.sessions[n].user) && SessionOk(ttl, ss[i], n);
  }

  /** What is visible after a disconnect: the session that went, if it was visible, stays so exactly when it is
      kept offline; every other user sees what it saw before. */
  lemma DisconnectMeaning(ttl: int, ss: seq<State>, acts: seq<Action>, i: nat, n: nat, replacedErr: bool, user: string)
    requires Run(ttl, ss, acts) && i < |acts| && acts[i] == Disconnect(n, replacedErr)
    ensures Visible(ss[i + 1], user) ==
      if Visible(ss[i], user) == Some(n) && (replacedErr || ttl <= 0) then None else Visible(ss[i], user)
  {
    var s, t := ss[i], ss[i + 1];
    RunKeeps(ttl, ss, acts, i);
    assert SessionOk(ttl, s, n);
    assert s.core.sessions[n].user in s.core.table ==> EntryOk(s, s.core.sessions[n].user);
    assert user in s.core.table ==> EntryOk(s, user) && SessionOk(ttl, s, s.core.table[user]);
    DisconnectTable(ttl, s, n, replacedErr, user);
  }

  /** A session kept at its disconnect is no longer visible once the TTL is over. */
  lemma OfflineEnds(ttl: int, ss: seq<State>, acts: seq<Action>, i: nat, user: string, n: nat)
    requires Run(ttl, ss, acts) && i < |ss| && Visible(ss[i], user) == Some(n)
    ensures n in ss[i].core.sessions
    ensures var x := ss[i].core.sessions[n]; x.disconnectedAt.Some? ==> ss[i].now < x.disconnectedAt.value + ttl
  {
    RunKeeps(ttl, ss, acts, i);
    assert EntryOk(ss[i], user) && SessionOk(ttl, ss[i], n);
  }

  /** A registration or a prune leaves no expired entry, and takes nothing visible from anybody but the user who
      registers, who then sees the new session. */
  lemma PruneMeaning(ttl: int, ss: seq<State>, acts: seq<Action>, i: nat, user: string)
    requires Run(ttl, ss, acts) && i < |acts| && (acts[i].Register? || acts[i].Prune?)
    ensures Visible(ss[i + 1], user) ==
      if acts[i].Register? && ss[i].core.sessions[acts[i].n].user == user then Some(acts[i].n) else Visible(ss[i], user)
    ensures user in ss[i + 1].core.table ==> Visible(ss[i + 1], user) == Some(ss[i + 1].core.table[user])
  {
    RunKeeps(ttl, ss, acts, i);
    assert user in ss[i].core.table ==> EntryOk(ss[i], user) && SessionOk(ttl, ss[i], ss[i].core.table[user]);
    if acts[i].Register? {
      assert SessionOk(ttl, ss[i], acts[i].n);
    }
  }

  /** A lookup that found an expired session takes that one out, if it is still there and expired, and never anything
      a user can see: not even when a new session came in meanwhile. */
  lemma EvictMeaning(ttl: int, ss: seq<State>, acts: seq<Action>, i: nat, g: nat, user: string)
    requires Run(ttl, ss, acts) && i < |acts| && acts[i] == Evict(g)
    ensures Visible(ss[i + 1], user) == Visible(ss[i], user)
    ensures var l := ss[i].lookups[g];
      l.user in ss[i + 1].core.table && l.n in ss[i].core.sessions && Expired(ss[i].core.sessions[l.n], ss[i].now) ==>
        ss[i + 1].core.table[l.user] != l.n
  {
    RunKeeps(ttl, ss, acts, i);
    assert LookupOk(ss[i], g);
  }

  /** n owes it to m, the session it replaced, to close it, or has done so. */
  predicate Closes(s: State, n: nat, m: nat) {
    && n in s.core.sessions && m in s.core.sessions && n != m
    && if s.core.sessions[n].stage.Registered? then s.core.sessions[n].stage.prev == Some(m)
       else !s.core.sessions[n].stage.Created? && s.core.sessions[m].replaced
  }

  lemma StepKeepsCloses(ttl: int, s: State, a: Action, n: nat, m: nat)
    requires Enabled(s, a) && Closes(s, n, m)
    ensures Closes(Next(ttl, s, a), n, m)
  {
  }

  /** Whatever session of the user was visible when a new one registered has been closed as replaced by the time
      the new one is served, and ever after. */
  lemma {:induction false} ReplacedIsClosed(ttl: int, ss: seq<State>, acts: seq<Action>, j: nat, i: nat, n: nat, m: nat)
    requires Run(ttl, ss, acts) && j < i < |ss| && acts[j] == Register(n) && n in ss[j].core.sessions
    requires Visible(ss[j], ss[j].core.sessions[n].user) == Some(m)
    ensures Closes(ss[i], n, m)
    ensures ss[i].core.sessions[n].stage.Serving? || ss[i].core.sessions[n].stage.Disconnected? ==> ss[i].core.sessions[m].replaced
  {
    if i == j + 1 {
      RunKeeps(ttl, ss, acts, j);
      assert EntryOk(ss[j], ss[j].core.sessions[n].user) && SessionOk(ttl, ss[j], n);
    } else {
      ReplacedIsClosed(ttl, ss, acts, j, i - 1, n, m);
      StepKeepsCloses(ttl, ss[i - 1], acts[i - 1], n, m);
    }
  }

  lemma DisconnectTable(ttl: int, s: State, n: nat, replacedErr: bool, user: string)
    requires Enabled(s, Disconnect(n, replacedErr)) && SessionOk(ttl, s, n)
    requires s.core.sessions[n].user in s.core.table ==> EntryOk(s, s.core.sessions[n].user)
    requires user in s.core.table ==> EntryOk(s, user) && SessionOk(ttl, s, s.core.table[user])
    ensures Visible(Next(ttl, s, Disconnect(n, replacedErr)), user) ==
      if Visible(s, user) == Some(n) && (replacedErr || ttl <= 0) then None else Visible(s, user)
  {
  }
}
