/** Any number of attaches (PtyAttach) over one slot table (PtySlots), in any interleaving of what they do
    to the table and to their hosts. */
module PtyShared {
  import opened PtySlots
  import opened PtyAttach

  /** One attach: who it is for, what it met, and what came of it. */
  datatype Participant = Participant(user: string, setup: Setup, picks: seq<Pick>, frameMax: int, attempt: Attempt)

  ghost predicate Real(ps: map<nat, Participant>) {
    forall h :: h in ps ==> AttachOk(ps[h].attempt, ps[h].setup, ps[h].picks, ps[h].frameMax)
  }

  /** The table, and how many of its effects each attach has performed. */
  datatype Joint = Joint(slots: Slots, done: map<nat, nat>)

  /** The next effect of attach h; a claim is the one the table makes at that moment. */
  predicate CanAct(ps: map<nat, Participant>, j: Joint, h: nat) {
    && h in ps && h in j.done && j.done[h] < |ps[h].attempt.log|
    && (ps[h].attempt.log[j.done[h]].Reserve? ==> Registered(j.slots, ps[h].user).1 == ps[h].setup.claim)
  }

  function Acted(ps: map<nat, Participant>, j: Joint, h: nat): Joint
    requires CanAct(ps, j, h)
  {
    var slots := match ps[h].attempt.log[j.done[h]] {
      case Reserve(_) => Registered(j.slots, ps[h].user).0
      case Free(sid) => Unregistered(j.slots, ps[h].user, sid).0
      case _ => j.slots
    };
    Joint(slots, j.done[h := j.done[h] + 1])
  }

  ghost predicate Interleaving(ps: map<nat, Participant>, js: seq<Joint>, who: seq<nat>) {
    && |js| == |who| + 1 && js[0] == Joint(Slots(map[], 0), map h | h in ps :: 0)
    && forall i :: 0 <= i < |who| ==> CanAct(ps, js[i], who[i]) && js[i + 1] == Acted(ps, js[i], who[i])
  }

  /** The attach has spawned its host and its Wait has not returned. */
  predicate HostAlive(p: Participant, n: nat) {
    n <= |p.attempt.log| && SpawnHost in p.attempt.log[..n] && HostWaited !in p.attempt.log[..n]
  }

  // ---- logs and their prefixes ----

  lemma {:induction false} PrefixStands(log: seq<Effect>, n: nat)
    requires Standing(log).Some? && n <= |log|
    ensures Standing(log[..n]).Some?
    decreases |log|
  {
    if n == |log| {
      assert log[..n] == log;
    } else {
      var most := log[..|log| - 1];
      assert most[..n] == log[..n];
      PrefixStands(most, n);
    }
  }

  /** The discipline in terms of the effects: where a handler stands is what it has done. */
  lemma {:induction false} StandingMeans(log: seq<Effect>)
    requires Standing(log).Some?
    ensures Standing(log).value.Idle? <==> log == []
    ensures Standing(log).value.Hosting? <==> SpawnHost in log && HostWaited !in log
    ensures Standing(log).value.Reserved? ==> SpawnHost !in log
    ensures forall e :: e in log && e.Reserve? ==> Standing(log).value.sid == e.sid
    ensures Standing(log).value.Reserved? || Standing(log).value.Idle? ==> HostWaited !in log && SpawnHost !in log
  {
    if log != [] {
      var most, last := log[..|log| - 1], log[|log| - 1];
      StandingMeans(most);
      assert log == most + [last];
    }
  }

  lemma OneMoreEffect(log: seq<Effect>, n: nat)
    requires Standing(log).Some? && n < |log|
    ensures Standing(log[..n]).Some? && Standing(log[..n + 1]) == Advance(Standing(log[..n]).value, log[n])
    ensures Standing(log[..n + 1]).Some?
  {
    PrefixStands(log, n);
    PrefixStands(log, n + 1);
    assert log[..n + 1] == log[..n] + [log[n]];
    StandingAfter(log[..n], log[n]);
  }

  /** What the interleaving needs of an attach: the discipline, under the id it was given. */
  ghost predicate Disciplined(p: Participant) {
    var pc := Standing(p.attempt.log);
    pc.Some? && (!pc.value.Idle? ==> p.setup.claim == Claimed(pc.value.sid))
  }

  lemma RealIsDisciplined(ps: map<nat, Participant>, h: nat)
    requires Real(ps) && h in ps
    ensures Disciplined(ps[h])
  {
  }

  lemma ReserveIsClaim(p: Participant, n: nat)
    requires Disciplined(p) && n < |p.attempt.log| && p.attempt.log[n].Reserve?
    ensures p.setup.claim == Claimed(p.attempt.log[n].sid)
  {
    StandingMeans(p.attempt.log);
  }

  // ---- the interleaving is a run of the slot system ----

  ghost predicate CountedFor(p: Participant, n: nat) {
    n <= |p.attempt.log| && Standing(p.attempt.log[..n]).Some?
  }

  ghost predicate Counted(ps: map<nat, Participant>, j: Joint) {
    j.done.Keys == ps.Keys && forall h :: h in ps ==> CountedFor(ps[h], j.done[h])
  }

  ghost function HandlerAt(p: Participant, n: nat): Handler
    requires CountedFor(p, n)
  {
    Handler(p.user, Standing(p.attempt.log[..n]).value)
  }

  /** The state of the slot system that an interleaving has reached. */
  ghost function SystemOf(ps: map<nat, Participant>, j: Joint): System
    requires Counted(ps, j)
  {
    System(j.slots, map h | h in ps :: HandlerAt(ps[h], j.done[h]))
  }

  lemma NextHandler(p: Participant, n: nat)
    requires Disciplined(p) && CountedFor(p, n) && n < |p.attempt.log|
    ensures CountedFor(p, n + 1) && Advance(HandlerAt(p, n).pc, p.attempt.log[n]).Some?
    ensures HandlerAt(p, n + 1) == HandlerAt(p, n).(pc := Advance(HandlerAt(p, n).pc, p.attempt.log[n]).value)
  {
    OneMoreEffect(p.attempt.log, n);
  }

  /** Each effect is a step the slot system allows, with the same result. */
  lemma ActIsStep(ps: map<nat, Participant>, j: Joint, h: nat)
    requires Counted(ps, j) && CanAct(ps, j, h) && Disciplined(ps[h])
    ensures Counted(ps, Acted(ps, j, h))
    ensures var a := Act(h, ps[h].attempt.log[j.done[h]]);
      Enabled(SystemOf(ps, j), a) && Next(SystemOf(ps, j), a) == SystemOf(ps, Acted(ps, j, h))
  {
    var p, n := ps[h], j.done[h];
    var e := p.attempt.log[n];
    NextHandler(p, n);
    if e.Reserve? {
      ReserveIsClaim(p, n);
    }
    var k := Acted(ps, j, h);
    assert k.done == j.done[h := n + 1];
    forall g | g in ps ensures CountedFor(ps[g], k.done[g]) {
      assert g != h ==> k.done[g] == j.done[g];
    }
    SameSystem(ps, j, k, h);
  }

  lemma SameSystem(ps: map<nat, Participant>, j: Joint, k: Joint, h: nat)
    requires Counted(ps, j) && Counted(ps, k) && h in ps && k.done == j.done[h := j.done[h] + 1]
    ensures SystemOf(ps, k).handlers == SystemOf(ps, j).handlers[h := HandlerAt(ps[h], j.done[h] + 1)]
  {
  }

  ghost predicate AllDisciplined(ps: map<nat, Participant>) {
    forall h :: h in ps ==> Disciplined(ps[h])
  }

  /** The slot system's invariant holds of the state reached. */
  ghost predicate Kept(ps: map<nat, Participant>, j: Joint) {
    Counted(ps, j) && Inv(SystemOf(ps, j))
  }

  lemma InterleavingKeeps(ps: map<nat, Participant>, js: seq<Joint>, who: seq<nat>, i: nat)
    requires Real(ps) && Interleaving(ps, js, who) && i < |js|
    ensures Counted(ps, js[i]) && Inv(SystemOf(ps, js[i]))
  {
    forall h | h in ps ensures Disciplined(ps[h]) {
      RealIsDisciplined(ps, h);
    }
    StepsKeep(ps, js, who, i);
  }

  lemma {:induction false} StepsKeep(ps: map<nat, Participant>, js: seq<Joint>, who: seq<nat>, i: nat)
    requires AllDisciplined(ps) && Interleaving(ps, js, who) && i < |js|
    ensures Kept(ps, js[i])
  {
    if i == 0 {
      NobodyStarted(ps, js[0]);
    } else {
      var k := i - 1;
      StepsKeep(ps, js, who, k);
      assert CanAct(ps, js[k], who[k]) && js[k + 1] == Acted(ps, js[k], who[k]);
      ActKeeps(ps, js[k], who[k]);
    }
  }

  lemma NobodyStarted(ps: map<nat, Participant>, j: Joint)
    requires j == Joint(Slots(map[], 0), map h | h in ps :: 0)
    ensures Kept(ps, j)
  {
    forall h | h in ps ensures CountedFor(ps[h], 0) && HandlerAt(ps[h], 0).pc == Idle {
      assert ps[h].attempt.log[..0] == [];
    }
  }

  lemma ActKeeps(ps: map<nat, Participant>, j: Joint, h: nat)
    requires Kept(ps, j) && CanAct(ps, j, h) && Disciplined(ps[h])
    ensures Kept(ps, Acted(ps, j, h))
  {
    ActIsStep(ps, j, h);
    StepKeeps(SystemOf(ps, j), Act(h, ps[h].attempt.log[j.done[h]]));
  }

  /** However the attaches of one user interleave, at most one of their hosts is alive. */
  lemma AttachesShareOneHost(ps: map<nat, Participant>, js: seq<Joint>, who: seq<nat>, i: nat, g: nat, h: nat)
    requires Real(ps) && Interleaving(ps, js, who) && i < |js| && g in ps && h in ps && ps[g].user == ps[h].user
    requires g in js[i].done && h in js[i].done && HostAlive(ps[g], js[i].done[g]) && HostAlive(ps[h], js[i].done[h])
    ensures g == h
  {
    var j := js[i];
    InterleavingKeeps(ps, js, who, i);
    StandingMeans(ps[g].attempt.log[..j.done[g]]);
    StandingMeans(ps[h].attempt.log[..j.done[h]]);
    var s := SystemOf(ps, j);
    assert HandlerOk(s, g) && HandlerOk(s, h) && Apart(s, g, h);
  }

  /** When all attaches have returned and done all their effects, no slot is taken. */
  lemma AttachesLeaveNoSlot(ps: map<nat, Participant>, js: seq<Joint>, who: seq<nat>, i: nat)
    requires Real(ps) && Interleaving(ps, js, who) && i < |js|
    requires forall h :: h in ps ==> ps[h].attempt.returned && h in js[i].done && js[i].done[h] == |ps[h].attempt.log|
    ensures js[i].slots.active == map[]
  {
    var j := js[i];
    InterleavingKeeps(ps, js, who, i);
    forall h | h in ps ensures !Holding(HandlerAt(ps[h], j.done[h]).pc) {
      assert ps[h].attempt.log[..j.done[h]] == ps[h].attempt.log;
    }
    NobodyHolds(SystemOf(ps, j));
  }

  lemma NobodyHolds(s: System)
    requires forall user :: user in s.slots.active ==> HeldBySome(s, user)
    requires forall h :: h in s.handlers ==> !Holding(s.handlers[h].pc)
    ensures s.slots.active == map[]
  {
    forall user ensures user !in s.slots.active {
      assert user in s.slots.active ==> HeldBySome(s, user);
    }
  }
}
