/** The PTY slots of the session manager (pkg/session/manager.go) under any number of concurrent
    attach handlers (pkg/ptyservice/service.go): one slot, and one live host, per user. */
module PtySlots {
  import opened Basics

  // ---- the slot table ----

  /** activePTY and nextPTYID. */
  datatype Slots = Slots(active: map<string, string>, next: nat)

  datatype Claim = Claimed(sid: string) | EmptyUser | Busy

  function SessionId(user: string, n: nat): string {
    user + "-pty-" + Digits(n)
  }

  function Registered(s: Slots, user: string): (Slots, Claim) {
    if user == "" then (s, EmptyUser)
    else if user in s.active then (s, Busy)
    else
      var sid := SessionId(user, s.next + 1);
      (Slots(s.active[user := sid], s.next + 1), Claimed(sid))
  }

  function Unregistered(s: Slots, user: string, sid: string): (Slots, bool) {
    if user == "" || sid == "" || user !in s.active || s.active[user] != sid then (s, false)
    else (s.(active := s.active - {user}), true)
  }

  /** The id was issued to the user at some time up to now. */
  ghost predicate EverIssued(s: Slots, user: string, sid: string) {
    user != "" && exists n {:trigger SessionId(user, n)} :: 1 <= n <= s.next && sid == SessionId(user, n)
  }

  ghost predicate AllIssued(s: Slots) {
    forall user :: user in s.active ==> EverIssued(s, user, s.active[user])
  }

  lemma IssuedStays(s: Slots, t: Slots, user: string, sid: string)
    requires EverIssued(s, user, sid) && s.next <= t.next
    ensures EverIssued(t, user, sid)
  {
    var n :| 1 <= n <= s.next && sid == SessionId(user, n);
  }

  /** A claim gets an id that was never issued to the user before, and the table still knows its ids. */
  lemma ClaimMeaning(s: Slots, user: string)
    requires AllIssued(s)
    ensures var (t, claim) := Registered(s, user);
      && AllIssued(t)
      && (claim.Claimed? ==> EverIssued(t, user, claim.sid) && !EverIssued(s, user, claim.sid))
  {
    var (t, claim) := Registered(s, user);
    if claim.Claimed? {
      assert claim.sid == SessionId(user, t.next);
      forall n | 1 <= n <= s.next ensures SessionId(user, n) != claim.sid {
        if SessionId(user, n) == claim.sid {
          SessionIdInjective(user, n, t.next);
        }
      }
      forall u | u in t.active ensures EverIssued(t, u, t.active[u]) {
        if u != user {
          IssuedStays(s, t, u, t.active[u]);
        }
      }
    }
  }

  /** Freeing with the claimed id gives back the table as it was, but for the counter; no other id frees it,
      and freeing it twice is refused. */
  lemma ClaimAndFree(s: Slots, user: string, other: string)
    requires AllIssued(s) && Registered(s, user).1.Claimed?
    ensures var (t, claim) := Registered(s, user);
      && Unregistered(t, user, claim.sid) == (Slots(s.active, t.next), true)
      && (other != claim.sid ==> Unregistered(t, user, other) == (t, false))
      && !Unregistered(Unregistered(t, user, claim.sid).0, user, other).1
  {
    var (t, claim) := Registered(s, user);
    assert claim.sid != "" by { assert claim.sid[|user|] == '-'; }
    assert t.active - {user} == s.active;
  }

  class SlotTable {
    var active: map<string, string>
    var next: nat

    ghost function Contents(): Slots
      reads this
    {
      Slots(active, next)
    }

    /** Every slot is held under an id that was issued to its user. */
    ghost predicate Valid()
      reads this
    {
      AllIssued(Contents())
    }

    constructor ()
      ensures Valid() && Contents() == Slots(map[], 0)
    {
      active, next := map[], 0;
    }

    /** A free slot is claimed under an id never issued before; otherwise nothing changes. */
    method RegisterPTY(user: string) returns (claim: Claim)
      requires Valid()
      modifies this
      ensures Valid() && (Contents(), claim) == Registered(old(Contents()), user)
      ensures claim.Claimed? <==> user != "" && user !in old(active)
      ensures claim.Claimed? ==> active == old(active)[user := claim.sid] && !EverIssued(old(Contents()), user, claim.sid)
      ensures !claim.Claimed? ==> Contents() == old(Contents())
    {
      ClaimMeaning(Contents(), user);
      if user == "" {
        return EmptyUser;
      }
      if user in active {
        return Busy;
      }
      next := next + 1;
      var sid := SessionId(user, next);
      active := active[user := sid];
      return Claimed(sid);
    }

    /** Frees the slot exactly when it is held under this very id; nobody else's slot changes. */
    method UnregisterPTY(user: string, sid: string) returns (ok: bool)
      requires Valid()
      modifies this
      ensures Valid() && (Contents(), ok) == Unregistered(old(Contents()), user, sid)
      ensures ok <==> user in old(active) && old(active)[user] == sid
      ensures ok ==> user !in active && forall u :: u != user ==> (u in active <==> u in old(active)) && (u in active ==> active[u] == old(active)[u])
      ensures !ok ==> Contents() == old(Contents())
    {
      if user == "" || sid == "" {
        return false;
      }
      if user !in active || active[user] != sid {
        return false;
      }
      active := active - {user};
      return true;
    }
  }

  /** No session id is ever issued twice to a user. */
  lemma SessionIdInjective(user: string, a: nat, b: nat)
    requires SessionId(user, a) == SessionId(user, b)
    ensures a == b
  {
    var prefix := user + "-pty-";
    assert SessionId(user, a)[|prefix|..] == Digits(a) && SessionId(user, b)[|prefix|..] == Digits(b);
    DigitsInjective(a, b);
  }

  // ---- what an attach handler does with its slot and its host ----

  datatype Effect =
    | Reserve(sid: string)
    | SpawnHost
    | HostWaited
    | Free(sid: string)

  /** Hosting: a host may be alive. Waited: its Wait has returned. */
  datatype Pc =
    | Idle
    | Reserved(sid: string)
    | Hosting(sid: string)
    | Waited(sid: string)
    | Finished(sid: string)

  function Advance(pc: Pc, e: Effect): Option<Pc> {
    match (pc, e)
    case (Idle, Reserve(sid)) => Some(Reserved(sid))
    case (Reserved(sid), SpawnHost) => Some(Hosting(sid))
    case (Hosting(sid), HostWaited) => Some(Waited(sid))
    case (Waited(sid), HostWaited) => Some(Waited(sid))
    case (Reserved(sid), Free(freed)) => if freed == sid then Some(Finished(sid)) else None
    case (Waited(sid), Free(freed)) => if freed == sid then Some(Finished(sid)) else None
    case _ => None
  }

  /** Where a handler stands after its effects; None when it broke the discipline. */
  function Standing(log: seq<Effect>): Option<Pc> {
    if log == [] then Some(Idle)
    else
      match Standing(log[..|log| - 1])
      case None => None
      case Some(pc) => Advance(pc, log[|log| - 1])
  }

  lemma StandingAfter(log: seq<Effect>, e: Effect)
    requires Standing(log).Some?
    ensures Standing(log + [e]) == Advance(Standing(log).value, e)
  {
    assert (log + [e])[..|log|] == log;
  }

  // ---- every interleaving of handlers ----

  datatype Handler = Handler(user: string, pc: Pc)

  datatype System = System(slots: Slots, handlers: map<nat, Handler>)

  datatype Action =
    | Begin(h: nat, user: string)
    | Act(h: nat, effect: Effect)

  predicate Holding(pc: Pc) {
    pc.Reserved? || pc.Hosting? || pc.Waited?
  }

  /** A handler acts as Advance allows; Reserve gets the id the manager issues, if it issues one. */
  predicate Enabled(s: System, a: Action) {
    match a
    case Begin(h, user) => h !in s.handlers
    case Act(h, e) =>
      && h in s.handlers && Advance(s.handlers[h].pc, e).Some?
      && (e.Reserve? ==> Registered(s.slots, s.handlers[h].user).1 == Claimed(e.sid))
  }

  function Next(s: System, a: Action): System
    requires Enabled(s, a)
  {
    match a
    case Begin(h, user) => s.(handlers := s.handlers[h := Handler(user, Idle)])
    case Act(h, e) =>
      var hd := s.handlers[h];
      var slots := match e {
        case Reserve(sid) => Registered(s.slots, hd.user).0
        case Free(sid) => Unregistered(s.slots, hd.user, sid).0
        case _ => s.slots
      };
      System(slots, s.handlers[h := hd.(pc := Advance(hd.pc, e).value)])
  }

  ghost predicate Run(ss: seq<System>, acts: seq<Action>) {
    && |ss| == |acts| + 1 && ss[0] == System(Slots(map[], 0), map[])
    && forall i :: 0 <= i < |acts| ==> Enabled(ss[i], acts[i]) && ss[i + 1] == Next(ss[i], acts[i])
  }

  ghost predicate Issued(s: System, user: string, sid: string) {
    EverIssued(s.slots, user, sid)
  }

  ghost predicate HandlerOk(s: System, h: nat)
    requires h in s.handlers
  {
    var hd := s.handlers[h];
    && (!hd.pc.Idle? ==> Issued(s, hd.user, hd.pc.sid))
    && (Holding(hd.pc) ==> hd.user in s.slots.active && s.slots.active[hd.user] == hd.pc.sid)
  }

  /** Two handlers of one user never have the same id. */
  ghost predicate Apart(s: System, g: nat, h: nat)
    requires g in s.handlers && h in s.handlers
  {
    g != h && s.handlers[g].user == s.handlers[h].user && !s.handlers[g].pc.Idle? && !s.handlers[h].pc.Idle?
    ==> s.handlers[g].pc.sid != s.handlers[h].pc.sid
  }

  ghost predicate HeldBySome(s: System, user: string) {
    exists h :: h in s.handlers && s.handlers[h].user == user && Holding(s.handlers[h].pc)
  }

  ghost predicate Inv(s: System) {
    && (forall h :: h in s.handlers ==> HandlerOk(s, h))
    && (forall g, h :: g in s.handlers && h in s.handlers ==> Apart(s, g, h))
    && (forall user :: user in s.slots.active ==> HeldBySome(s, user))
  }

  lemma StepKeeps(s: System, a: Action)
    requires Inv(s) && Enabled(s, a)
    ensures Inv(Next(s, a))
  {
    match a
    case Begin(h, user) => BeginKeeps(s, h, user);
    case Act(h, e) =>
      match e
      case Reserve(sid) => ReserveKeeps(s, h, sid);
      case Free(sid) => FreeKeeps(s, h, sid);
      case _ => MoveKeeps(s, h, e);
  }

  lemma BeginKeeps(s: System, h: nat, user: string)
    requires Inv(s) && Enabled(s, Begin(h, user))
    ensures Inv(Next(s, Begin(h, user)))
  {
    var t := Next(s, Begin(h, user));
    forall g | g in t.handlers ensures HandlerOk(t, g) { assert g != h ==> HandlerOk(s, g); }
    forall g, k | g in t.handlers && k in t.handlers ensures Apart(t, g, k) {
      assert g != h && k != h ==> Apart(s, g, k);
    }
    forall u | u in t.slots.active ensures HeldBySome(t, u) {
      assert HeldBySome(s, u);
      var k :| k in s.handlers && s.handlers[k].user == u && Holding(s.handlers[k].pc);
      assert k in t.handlers && t.handlers[k] == s.handlers[k];
    }
  }

  lemma MoveKeeps(s: System, h: nat, e: Effect)
    requires Inv(s) && Enabled(s, Act(h, e)) && (e.SpawnHost? || e.HostWaited?)
    ensures Inv(Next(s, Act(h, e)))
  {
    var t := Next(s, Act(h, e));
    forall g | g in t.handlers ensures HandlerOk(t, g) { assert HandlerOk(s, g); }
    forall g, k | g in t.handlers && k in t.handlers ensures Apart(t, g, k) { assert Apart(s, g, k); }
    forall u | u in t.slots.active ensures HeldBySome(t, u) {
      assert HeldBySome(s, u);
      var k :| k in s.handlers && s.handlers[k].user == u && Holding(s.handlers[k].pc);
      assert k in t.handlers && t.handlers[k].user == u && Holding(t.handlers[k].pc);
    }
  }

  lemma ReserveKeeps(s: System, h: nat, sid: string)
    requires Inv(s) && Enabled(s, Act(h, Reserve(sid)))
    ensures Inv(Next(s, Act(h, Reserve(sid))))
  {
    var t := Next(s, Act(h, Reserve(sid)));
    var user := s.handlers[h].user;
    assert sid == SessionId(user, t.slots.next);
    forall g | g in t.handlers ensures HandlerOk(t, g) {
      assert HandlerOk(s, g);
    }
    forall g, k | g in t.handlers && k in t.handlers ensures Apart(t, g, k) {
      assert Apart(s, g, k);
      if s.handlers[k].user == user { NewIdDiffers(s, k, sid); }
      if s.handlers[g].user == user { NewIdDiffers(s, g, sid); }
    }
    forall u | u in t.slots.active ensures HeldBySome(t, u) {
      if u == user {
        assert h in t.handlers && Holding(t.handlers[h].pc);
      } else {
        assert HeldBySome(s, u);
        var k :| k in s.handlers && s.handlers[k].user == u && Holding(s.handlers[k].pc);
        assert k in t.handlers && t.handlers[k] == s.handlers[k];
      }
    }
  }

  lemma NewIdDiffers(s: System, g: nat, sid: string)
    requires g in s.handlers && HandlerOk(s, g)
    requires sid == SessionId(s.handlers[g].user, s.slots.next + 1)
    ensures !s.handlers[g].pc.Idle? ==> s.handlers[g].pc.sid != sid
  {
    var user := s.handlers[g].user;
    forall n: nat | SessionId(user, n) == sid ensures n == s.slots.next + 1 {
      SessionIdInjective(user, n, s.slots.next + 1);
    }
  }

  lemma FreeKeeps(s: System, h: nat, sid: string)
    requires Inv(s) && Enabled(s, Act(h, Free(sid)))
    ensures Inv(Next(s, Act(h, Free(sid))))
  {
    var t := Next(s, Act(h, Free(sid)));
    assert HandlerOk(s, h);
    forall g | g in t.handlers ensures HandlerOk(t, g) {
      assert HandlerOk(s, g) && Apart(s, g, h);
    }
    forall g, k | g in t.handlers && k in t.handlers ensures Apart(t, g, k) { assert Apart(s, g, k); }
    forall u | u in t.slots.active ensures HeldBySome(t, u) {
      assert HeldBySome(s, u);
      var k :| k in s.handlers && s.handlers[k].user == u && Holding(s.handlers[k].pc);
      assert k in t.handlers && HandlerOk(s, k);
      assert k != h;
    }
  }

  lemma {:induction false} RunKeeps(ss: seq<System>, acts: seq<Action>, i: nat)
    requires Run(ss, acts) && i < |ss|
    ensures Inv(ss[i])
  {
    if i > 0 {
      RunKeeps(ss, acts, i - 1);
      StepKeeps(ss[i - 1], acts[i - 1]);
    }
  }

  /** In every interleaving, no two hosts of one user are alive together. */
  lemma OneLiveHostPerUser(ss: seq<System>, acts: seq<Action>, i: nat, g: nat, h: nat)
    requires Run(ss, acts) && i < |ss| && g in ss[i].handlers && h in ss[i].handlers
    requires ss[i].handlers[g].pc.Hosting? && ss[i].handlers[h].pc.Hosting?
    requires ss[i].handlers[g].user == ss[i].handlers[h].user
    ensures g == h
  {
    RunKeeps(ss, acts, i);
    assert HandlerOk(ss[i], g) && HandlerOk(ss[i], h) && Apart(ss[i], g, h);
  }

  /** A slot is taken exactly while one of the user's handlers holds it. */
  lemma SlotHeldIff(ss: seq<System>, acts: seq<Action>, i: nat, user: string)
    requires Run(ss, acts) && i < |ss|
    ensures user in ss[i].slots.active <==> HeldBySome(ss[i], user)
  {
    RunKeeps(ss, acts, i);
    if HeldBySome(ss[i], user) {
      var h :| h in ss[i].handlers && ss[i].handlers[h].user == user && Holding(ss[i].handlers[h].pc);
      assert HandlerOk(ss[i], h);
    }
  }

  /** Once a handler has finished, its id frees nothing any more, whoever holds the slot by then. */
  lemma StaleIdFreesNothing(ss: seq<System>, acts: seq<Action>, i: nat, h: nat)
    requires Run(ss, acts) && i < |ss| && h in ss[i].handlers && ss[i].handlers[h].pc.Finished?
    ensures Unregistered(ss[i].slots, ss[i].handlers[h].user, ss[i].handlers[h].pc.sid) == (ss[i].slots, false)
  {
    var s := ss[i];
    var user := s.handlers[h].user;
    RunKeeps(ss, acts, i);
    if user in s.slots.active {
      assert HeldBySome(s, user);
      var k :| k in s.handlers && s.handlers[k].user == user && Holding(s.handlers[k].pc);
      assert HandlerOk(s, k) && Apart(s, h, k);
    }
  }

  /** The only id that frees a slot is the one of the handler holding it. */
  lemma FreeOnlyByHolder(ss: seq<System>, acts: seq<Action>, i: nat, user: string, sid: string)
    requires Run(ss, acts) && i < |ss| && Unregistered(ss[i].slots, user, sid).1
    ensures exists h ::
        h in ss[i].handlers && ss[i].handlers[h].user == user && Holding(ss[i].handlers[h].pc) && ss[i].handlers[h].pc.sid == sid
  {
    RunKeeps(ss, acts, i);
    assert HeldBySome(ss[i], user);
    var h :| h in ss[i].handlers && ss[i].handlers[h].user == user && Holding(ss[i].handlers[h].pc);
    assert HandlerOk(ss[i], h);
  }
}
