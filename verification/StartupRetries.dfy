/** What a failed component is owed, and what an abort is due to (onFailure, busHandlers, abort). */
module StartupRetries {
  import opened Basics
  import opened Dependencies
  import opened Startup
  import opened StartupInvariants
  import opened StartupEvents
  import opened StartupTheorems
  import opened StartupProgress
  import opened StartupStability

  // ---- retries owed ----

  /** Someone can drive a retry of c: another component has started, or one that depends on c has yet to begin. */
  predicate Drivable(cfg: Config, s: State, c: Component) {
    || (exists n :: n in s.members && n != c && s.members[n].phase == PhaseStarted)
    || (exists n :: n in s.members && n != c && s.members[n].phase == PhasePending && n in cfg.dependsOn && c in cfg.dependsOn[n])
  }

  /** When a failure of c is handled, the retries given to c grow by one exactly when it has attempts left and
      someone can drive it, and nobody else's grow; the new retry is for the next attempt. */
  lemma HandledFailureIsOwedOneRetry(cfg: Config, s: State)
    requires Enabled(cfg, s, OnFailure)
    ensures var f := s.coordinator.failure;
      var t := Effect(cfg, s, OnFailure);
      var owed := f.attempt < cfg.maxAttempts && Drivable(cfg, s, f.component);
      && t.members.Keys == s.members.Keys
      && Supply(t, f.component) == Supply(s, f.component) + (if owed then 1 else 0)
      && (forall d :: d in s.members && d != f.component ==> Supply(t, d) == Supply(s, d) && t.members[d] == s.members[d])
      && (owed ==> t.coordinator == Granting(f.component, f.attempt + 1))
  {
    OnFailureShape(cfg, s);
    DrivableAfter(cfg, s, Effect(cfg, s, OnFailure), s.coordinator.failure);
  }

  lemma DrivableAfter(cfg: Config, s: State, t: State, f: Failure)
    requires Handled(cfg, s, t, f)
    ensures PeerStarted(t, f.component) || HasPendingDependent(cfg, t, f.component) <==> Drivable(cfg, s, f.component)
  {
    if PeerStarted(t, f.component) {
      var n :| n in t.members && n != f.component && t.members[n].phase == PhaseStarted;
      assert n in s.members && s.members[n].phase == PhaseStarted;
    }
    if HasPendingDependent(cfg, t, f.component) {
      var n :| n in t.members && n != f.component && t.members[n].phase == PhasePending && DependsOn(cfg, n, f.component);
      assert n in s.members && s.members[n].phase == PhasePending;
    }
    if Drivable(cfg, s, f.component) {
      var n :| n in s.members && n != f.component && (s.members[n].phase == PhaseStarted
        || (s.members[n].phase == PhasePending && n in cfg.dependsOn && f.component in cfg.dependsOn[n]));
      assert n in t.members && t.members[n].phase == s.members[n].phase;
      assert s.members[n].phase == PhasePending ==> DependsOn(cfg, n, f.component);
    }
  }

  /** The retry decided on is queued for the component next, unless its queue is full. */
  lemma OwedRetryIsQueued(cfg: Config, s: State)
    requires Enabled(cfg, s, OnFailure)
    requires var f := s.coordinator.failure;
      && f.attempt < cfg.maxAttempts && Drivable(cfg, s, f.component)
      && |s.members[f.component].retries| < RETRY_BUFFER_SIZE
    ensures var f := s.coordinator.failure;
      var t := Effect(cfg, s, OnFailure);
      && Enabled(cfg, t, PublishRetry)
      && f.component in Effect(cfg, t, PublishRetry).members
      && Effect(cfg, t, PublishRetry).members[f.component].retries == s.members[f.component].retries + [f.attempt + 1]
  {
    HandledFailureIsOwedOneRetry(cfg, s);
    OnFailureShape(cfg, s);
  }

  // ---- what an abort is due to ----

  /** The step sends on a channel that is full. */
  predicate SendsOnFull(s: State, a: Action) {
    match a
    case PublishFailure(_) => |s.failures| >= FAIL_BUFFER_SIZE
    case Drive(_, peer) => peer in s.members && |s.members[peer].retries| >= RETRY_BUFFER_SIZE
    case PublishRetry =>
      && s.coordinator.Granting? && s.coordinator.to in s.members
      && |s.members[s.coordinator.to].retries| >= RETRY_BUFFER_SIZE
    case _ => false
  }

  ghost predicate Overflowed(cfg: Config, acts: seq<Action>) {
    exists i :: 0 <= i < |acts| && OverflowsAt(cfg, acts, i)
  }

  ghost predicate OverflowsAt(cfg: Config, acts: seq<Action>, i: nat)
    requires i < |acts|
  {
    Execute(cfg, acts[..i]).Some? && SendsOnFull(Execute(cfg, acts[..i]).value, acts[i])
  }

  predicate HasEvent(s: State, e: Event) {
    e in s.events
  }

  /** An overflow is signalled, being aborted for, or has been. */
  ghost predicate OverflowShows(s: State) {
    s.overflow.Some? || s.coordinator.AbortOverflow? || exists c :: HasEvent(s, Aborted(c, QueueOverflow))
  }

  ghost predicate AllDown(s: State) {
    forall c :: c in s.members ==> IsDown(s.members[c].phase) && !Up(s.members[c].pc)
  }

  lemma OverflowNeedsFullQueue(cfg: Config, s: State, a: Action)
    requires Enabled(cfg, s, a) && !OverflowShows(s) && OverflowShows(Effect(cfg, s, a))
    ensures SendsOnFull(s, a)
  {
    if IsMemberStep(a) {
      MemberOverflow(cfg, s, a);
    } else {
      CoordinatorOverflow(cfg, s, a);
    }
  }

  lemma NewEvent(s: State, t: State, c: Component)
    requires (forall e :: e in t.events ==> e in s.events || e != Aborted(c, QueueOverflow))
    ensures HasEvent(t, Aborted(c, QueueOverflow)) ==> HasEvent(s, Aborted(c, QueueOverflow))
  {
  }

  lemma MemberOverflow(cfg: Config, s: State, a: Action)
    requires IsMemberStep(a) && Enabled(cfg, s, a) && !OverflowShows(s) && OverflowShows(Effect(cfg, s, a))
    ensures SendsOnFull(s, a)
  {
    var t := Effect(cfg, s, a);
    forall c ensures !HasEvent(t, Aborted(c, QueueOverflow)) {
      assert !HasEvent(s, Aborted(c, QueueOverflow));
    }
  }

  lemma CoordinatorOverflow(cfg: Config, s: State, a: Action)
    requires !IsMemberStep(a) && Enabled(cfg, s, a) && !OverflowShows(s) && OverflowShows(Effect(cfg, s, a))
    ensures SendsOnFull(s, a)
  {
    var t := Effect(cfg, s, a);
    forall c ensures !HasEvent(t, Aborted(c, QueueOverflow)) {
      assert !HasEvent(s, Aborted(c, QueueOverflow));
    }
    if a.OnFailure? {
      OnFailureShape(cfg, s);
    }
  }

  lemma OverflowedLonger(cfg: Config, acts: seq<Action>)
    requires acts != [] && Overflowed(cfg, acts[..|acts| - 1])
    ensures Overflowed(cfg, acts)
  {
    var before := acts[..|acts| - 1];
    var i :| 0 <= i < |before| && OverflowsAt(cfg, before, i);
    assert before[..i] == acts[..i] && before[i] == acts[i];
    assert OverflowsAt(cfg, acts, i);
  }

  lemma InitiallyNoOverflow(cfg: Config)
    ensures !OverflowShows(Initial(cfg))
  {
    assert forall c :: !HasEvent(Initial(cfg), Aborted(c, QueueOverflow));
  }

  /** An overflow abort, decided or sent, follows a send on a full channel. */
  lemma {:induction false} OverflowHasCause(cfg: Config, acts: seq<Action>)
    requires Execute(cfg, acts).Some? && OverflowShows(Execute(cfg, acts).value)
    ensures Overflowed(cfg, acts)
  {
    InitiallyNoOverflow(cfg);
    if acts != [] {
      var before, last := acts[..|acts| - 1], acts[|acts| - 1];
      if OverflowShows(Execute(cfg, before).value) {
        OverflowHasCause(cfg, before);
        OverflowedLonger(cfg, acts);
      } else {
        OverflowNeedsFullQueue(cfg, Execute(cfg, before).value, last);
        assert OverflowsAt(cfg, acts, |acts| - 1);
      }
    }
  }

  /** A component goes down only at its last attempt, and says so before it aborts. */
  ghost predicate GivesUpLast(cfg: Config, s: State) {
    && (forall c :: c in s.members && GoingDown(s.members[c].pc) ==> s.members[c].pc.attempt == cfg.maxAttempts)
    && (forall c :: HasEvent(s, Aborted(c, ComponentGaveUp)) ==> HasEvent(s, GaveUp(c, cfg.maxAttempts)))
  }

  lemma EventsGrow(cfg: Config, s: State, a: Action, e: Event)
    requires Enabled(cfg, s, a) && HasEvent(s, e)
    ensures HasEvent(Effect(cfg, s, a), e)
  {
    if a.OnFailure? {
      OnFailureShape(cfg, s);
    }
  }

  lemma GoingDownAtLast(cfg: Config, s: State, a: Action, c: Component)
    requires Enabled(cfg, s, a) && (c in s.members && GoingDown(s.members[c].pc) ==> s.members[c].pc.attempt == cfg.maxAttempts)
    requires c in Effect(cfg, s, a).members && GoingDown(Effect(cfg, s, a).members[c].pc)
    ensures Effect(cfg, s, a).members[c].pc.attempt == cfg.maxAttempts
  {
    if a.OnFailure? {
      OnFailureShape(cfg, s);
    } else if a.PublishFailure? {
      PublishFailureShape(cfg, s, a.c);
    }
  }

  lemma AbortAfterGaveUp(cfg: Config, s: State, a: Action, c: Component)
    requires Enabled(cfg, s, a) && TraceInv(s) && GivesUpLast(cfg, s)
    requires HasEvent(Effect(cfg, s, a), Aborted(c, ComponentGaveUp)) && !HasEvent(s, Aborted(c, ComponentGaveUp))
    ensures HasEvent(s, GaveUp(c, cfg.maxAttempts))
  {
    OnlyOwnAbort(cfg, s, a, c);
    AnnouncedBeforeAbort(s, c);
  }

  lemma AnnouncedBeforeAbort(s: State, c: Component)
    requires TraceInv(s) && c in s.members && s.members[c].pc.GaveUpSent?
    ensures HasEvent(s, GaveUp(c, s.members[c].pc.attempt))
  {
    var k := s.members[c].pc.attempt;
    assert EventsOf(s.events, c) == [GaveUp(c, k)];
    EventsOfIn(s.events, c, GaveUp(c, k));
  }

  lemma OnlyOwnAbort(cfg: Config, s: State, a: Action, c: Component)
    requires Enabled(cfg, s, a)
    requires HasEvent(Effect(cfg, s, a), Aborted(c, ComponentGaveUp)) && !HasEvent(s, Aborted(c, ComponentGaveUp))
    ensures a == AbortGaveUp(c)
  {
    if a.OnFailure? {
      OnFailureShape(cfg, s);
    }
  }

  lemma {:induction false} EventsOfIn(events: seq<Event>, c: Component, e: Event)
    requires e in EventsOf(events, c)
    ensures e in events
  {
    if events != [] {
      var most := events[..|events| - 1];
      if e in EventsOf(most, c) {
        EventsOfIn(most, c, e);
      }
    }
  }

  lemma {:induction false} ExecutionGivesUpLast(cfg: Config, acts: seq<Action>)
    requires Accepted(cfg) && Execute(cfg, acts).Some?
    ensures GivesUpLast(cfg, Execute(cfg, acts).value)
  {
    if acts == [] {
      assert forall e :: !HasEvent(Initial(cfg), e);
    } else {
      var before, last := acts[..|acts| - 1], acts[|acts| - 1];
      var s, t := Execute(cfg, before).value, Execute(cfg, acts).value;
      ExecutionGivesUpLast(cfg, before);
      ExecutionKeepsTrace(cfg, before);
      forall c | c in t.members && GoingDown(t.members[c].pc) ensures t.members[c].pc.attempt == cfg.maxAttempts {
        GoingDownAtLast(cfg, s, last, c);
      }
      forall c | HasEvent(t, Aborted(c, ComponentGaveUp)) ensures HasEvent(t, GaveUp(c, cfg.maxAttempts)) {
        if !HasEvent(s, Aborted(c, ComponentGaveUp)) {
          AbortAfterGaveUp(cfg, s, last, c);
        }
        EventsGrow(cfg, s, last, GaveUp(c, cfg.maxAttempts));
      }
    }
  }

  /** The reason an abort states is true: a channel was full, or the component failed its last attempt and said so,
      or every component is down and none ever started. */
  ghost predicate JustifiedAbort(cfg: Config, acts: seq<Action>, s: State, e: Event)
    requires e.Aborted?
  {
    match e.reason
    case QueueOverflow => Overflowed(cfg, acts)
    case ComponentGaveUp => HasEvent(s, GaveUp(e.component, cfg.maxAttempts))
    case AllFailed => AllDown(s)
  }

  /** Over every execution, whatever abort is sent is justified, and an overflow abort is so when it is decided. */
  lemma AbortsJustified(cfg: Config, acts: seq<Action>, e: Event)
    requires Accepted(cfg) && Execute(cfg, acts).Some?
    ensures e.Aborted? && e in Execute(cfg, acts).value.events ==> JustifiedAbort(cfg, acts, Execute(cfg, acts).value, e)
    ensures Execute(cfg, acts).value.coordinator.AbortOverflow? ==> Overflowed(cfg, acts)
    ensures Execute(cfg, acts).value.coordinator.AbortAllFailed? ==> AllDown(Execute(cfg, acts).value)
  {
    var s := Execute(cfg, acts).value;
    ExecutionKeeps(cfg, acts);
    ExecutionGivesUpLast(cfg, acts);
    if s.coordinator.AbortOverflow? {
      OverflowHasCause(cfg, acts);
    }
    if e.Aborted? && e in s.events {
      match e.reason
      case QueueOverflow =>
        assert HasEvent(s, Aborted(e.component, QueueOverflow));
        OverflowHasCause(cfg, acts);
      case ComponentGaveUp => assert HasEvent(s, Aborted(e.component, ComponentGaveUp));
      case AllFailed => assert IsAllFailed(e);
    }
  }

  // ---- the daemon/PTY pair never overflows ----

  /** Failures unhandled, retries on their way, and a retry promised: what a pair's component can have pending. */
  ghost function Outstanding(s: State, c: Component): nat
    requires c in s.members
  {
    Unhandled(s, c) + |s.members[c].retries| + (if s.coordinator.Granting? && s.coordinator.to == c then 1 else 0)
    + (if Promised(s, c) then 1 else 0)
  }

  /** At most one of those, two for a component that ended before its peer started, none for a started one. */
  ghost predicate Lean(s: State, c: Component)
    requires c in s.members
  {
    var m := s.members[c];
    Outstanding(s, c) <= if Up(m.pc) then 0 else if m.pc.Done? && !NoneUp(s) then 2 else 1
  }

  ghost predicate AllLean(s: State) {
    forall c :: c in s.members ==> Lean(s, c)
  }

  /** A live component that has not started is lean because its books are fair. */
  lemma FairIsLean(s: State, c: Component)
    requires c in s.members && Fair(s, c) && !Up(s.members[c].pc) && !s.members[c].pc.Done?
    ensures Outstanding(s, c) <= 1
  {
  }

  /** How much a step can add to what is outstanding for d. */
  function Added(cfg: Config, s: State, a: Action, d: Component): nat {
    if a == PublishFailure(d) || (a.MarkStarted? && a.c != d && d in PendingPeers(cfg, s, a.c)) then 1 else 0
  }

  lemma SameTodoSamePromise(s: State, t: State, d: Component)
    requires t.members.Keys == s.members.Keys
    requires forall e :: e in s.members ==> (HasTodo(t.members[e].pc, d) ==> HasTodo(s.members[e].pc, d))
    ensures Promised(t, d) ==> Promised(s, d)
  {
  }

  lemma LocalOutstanding(cfg: Config, s: State, a: Action, d: Component)
    requires cfg.maxAttempts >= 1 && MembersOk(cfg, s) && Enabled(cfg, s, a) && IsLocal(a) && d in s.members
    ensures var t := Effect(cfg, s, a); d in t.members && Outstanding(t, d) <= Outstanding(s, d)
  {
    var t := Effect(cfg, s, a);
    LocalStepIsLocal(cfg, s, a);
    LocalRetries(cfg, s, a);
    SameTodoSamePromise(s, t, d);
  }

  lemma LocalRetries(cfg: Config, s: State, a: Action)
    requires Enabled(cfg, s, a) && IsLocal(a)
    ensures var t := Effect(cfg, s, a); a.c in t.members && |t.members[a.c].retries| <= |s.members[a.c].retries|
  {
  }

  lemma FlagsOutstanding(s: State, t: State, d: Component)
    requires FlagsOnly(s, t) && d in s.members
    ensures Outstanding(t, d) <= Outstanding(s, d)
  {
    SameTodoSamePromise(s, t, d);
  }

  lemma PublishRetryOutstanding(cfg: Config, s: State, d: Component)
    requires Enabled(cfg, s, PublishRetry) && d in s.members
    ensures var t := Effect(cfg, s, PublishRetry); d in t.members && Outstanding(t, d) <= Outstanding(s, d)
  {
    var t := Effect(cfg, s, PublishRetry);
    if s.coordinator.to in s.members {
      SendRetryShape(s, s.coordinator.to, s.coordinator.attempt);
    }
    SameTodoSamePromise(s, t, d);
  }

  lemma BookOutstanding(cfg: Config, s: State, a: Action, d: Component)
    requires Enabled(cfg, s, a) && (a.PublishFailure? || a.MarkGaveUp? || a.OnFailure?) && d in s.members
    ensures var t := Effect(cfg, s, a); d in t.members && Outstanding(t, d) <= Outstanding(s, d) + Added(cfg, s, a, d)
  {
    var t := Effect(cfg, s, a);
    BookStepKeepsTodo(cfg, s, a, d);
    match a
    case PublishFailure(c) =>
      PublishFailureShape(cfg, s, c);
      FailureSentCounts(cfg, s, t, c, d);
    case MarkGaveUp(c) => assert GaveUpStep(s, t, c);
    case OnFailure => OnFailureShape(cfg, s); HandledOutstanding(cfg, s, t, s.coordinator.failure, d);
  }

  lemma HandledOutstanding(cfg: Config, s: State, t: State, f: Failure, d: Component)
    requires Handled(cfg, s, t, f) && d in s.members && (Promised(t, d) ==> Promised(s, d))
    ensures Outstanding(t, d) <= Outstanding(s, d)
  {
  }

  lemma StartOutstanding(cfg: Config, s: State, c: Component, d: Component)
    requires Enabled(cfg, s, MarkStarted(c)) && d in s.members && !HasTodo(s.members[d].pc, d)
    ensures var t := Effect(cfg, s, MarkStarted(c)); d in t.members && Outstanding(t, d) <= Outstanding(s, d) + Added(cfg, s, MarkStarted(c), d)
  {
    var t := Effect(cfg, s, MarkStarted(c));
    assert StartStep(cfg, s, t, c);
    PromisedAfterStart(cfg, s, t, c, d);
  }

  lemma DriveOutstanding(cfg: Config, s: State, c: Component, peer: Component, d: Component)
    requires Pair(cfg) && Domains(cfg, s) && MembersOk(cfg, s) && Enabled(cfg, s, Drive(c, peer)) && AllFair(s) && d in s.members
    ensures var t := Effect(cfg, s, Drive(c, peer)); d in t.members && Outstanding(t, d) <= Outstanding(s, d)
  {
    var u := At(s, c, Driving(s.members[c].pc.attempt, s.members[c].pc.todo - {peer}));
    var t := Effect(cfg, s, Drive(c, peer));
    assert MemberOk(cfg, s.members[c], s.aborted, s.cancelled);
    SendRetryShape(u, peer, s.members[c].pc.todo[peer]);
    assert Fair(s, c) && Fair(s, peer) && HasTodo(s.members[c].pc, peer) && Promised(s, peer);
    DrivenOutstanding(cfg, s, u, t, c, peer, d);
  }

  lemma DrivenOutstanding(cfg: Config, s: State, u: State, t: State, c: Component, peer: Component, d: Component)
    requires Pair(cfg) && Domains(cfg, s) && DriveStep(s, u, t, c, peer) && peer in s.members && peer != c && d in s.members
    requires !HasTodo(s.members[peer].pc, peer) && Promised(s, peer)
    ensures d in t.members && Outstanding(t, d) <= Outstanding(s, d)
  {
    if d == peer {
      PromiseKept(cfg, s, u, t, c, peer);
    } else {
      SameTodoSamePromise(s, t, d);
    }
  }

  lemma PromiseKept(cfg: Config, s: State, u: State, t: State, c: Component, peer: Component)
    requires Pair(cfg) && Domains(cfg, s) && DriveStep(s, u, t, c, peer) && peer in s.members && peer != c
    requires !HasTodo(s.members[peer].pc, peer)
    ensures !Promised(t, peer)
  {
    forall e | e in t.members ensures !HasTodo(t.members[e].pc, peer) {
      assert e == c || e == peer;
    }
  }

  lemma OutstandingAfter(cfg: Config, s: State, a: Action, d: Component)
    requires Pair(cfg) && cfg.maxAttempts >= 1 && Inv(cfg, s) && AllFair(s) && Enabled(cfg, s, a) && d in s.members
    ensures var t := Effect(cfg, s, a); d in t.members && Outstanding(t, d) <= Outstanding(s, d) + Added(cfg, s, a, d)
  {
    assert Fair(s, d);
    if IsLocal(a) {
      LocalOutstanding(cfg, s, a, d);
    } else if IsQuietGlobal(a) {
      GlobalIsFlagsOnly(cfg, s, a);
      FlagsOutstanding(s, Effect(cfg, s, a), d);
    } else {
      match a
      case MarkStarted(c) => StartOutstanding(cfg, s, c, d);
      case Drive(c, peer) => DriveOutstanding(cfg, s, c, peer, d);
      case PublishRetry => PublishRetryOutstanding(cfg, s, d);
      case PublishFailure(_) => BookOutstanding(cfg, s, a, d);
      case MarkGaveUp(_) => BookOutstanding(cfg, s, a, d);
      case OnFailure => BookOutstanding(cfg, s, a, d);
    }
  }

  /** A goroutine that is up stays up, one that ended stays so, and only a start brings one up. */
  lemma UpStays(cfg: Config, s: State, a: Action, d: Component)
    requires Enabled(cfg, s, a) && d in s.members && d in Effect(cfg, s, a).members
    ensures var p, q := s.members[d].pc, Effect(cfg, s, a).members[d].pc;
      && (Up(p) ==> Up(q)) && (p.Done? ==> q == p) && (Up(q) && !Up(p) ==> a == MarkStarted(d))
      && (q.Done? && !p.Done? ==> a != PublishFailure(d) && !a.MarkStarted?)
  {
    if !IsMemberStep(a) {
      CoordinatorMovesNobody(cfg, s, a, d);
    } else if a.Drive? || a.PublishFailure? {
      SendersKeepUp(cfg, s, a, d);
    } else if a.c == d {
      if a.Move? {
        assert CanMove(s, cfg.dependsOn[d], s.members[d].pc, a.to);
      }
    }
  }

  lemma SendersKeepUp(cfg: Config, s: State, a: Action, d: Component)
    requires Enabled(cfg, s, a) && (a.Drive? || a.PublishFailure?) && d in s.members && d in Effect(cfg, s, a).members
    ensures var p, q := s.members[d].pc, Effect(cfg, s, a).members[d].pc;
      && (Up(p) <==> Up(q)) && (p.Done? ==> q == p) && (q.Done? ==> p.Done?)
  {
  }

  lemma StepKeepsLean(cfg: Config, s: State, a: Action, d: Component)
    requires Pair(cfg) && cfg.maxAttempts >= 1 && Inv(cfg, s) && AllFair(s) && Enabled(cfg, s, a) && AllLean(s)
    requires d in s.members && Effect(cfg, s, a).members.Keys == s.members.Keys && Fair(Effect(cfg, s, a), d)
    ensures Lean(Effect(cfg, s, a), d)
  {
    var t := Effect(cfg, s, a);
    OutstandingAfter(cfg, s, a, d);
    UpStays(cfg, s, a, d);
    assert Fair(s, d) && Lean(s, d);
    if !Up(t.members[d].pc) && !t.members[d].pc.Done? {
      FairIsLean(t, d);
    } else if Up(t.members[d].pc) {
      StarterHasNothing(cfg, s, a, d);
    } else if s.members[d].pc.Done? {
      EndedStaysLean(cfg, s, a, d);
    } else {
      FairIsLean(s, d);
    }
  }

  lemma StarterHasNothing(cfg: Config, s: State, a: Action, d: Component)
    requires Enabled(cfg, s, a) && d in s.members && Fair(s, d) && Lean(s, d)
    requires Up(s.members[d].pc) || a == MarkStarted(d)
    ensures Outstanding(s, d) + Added(cfg, s, a, d) == 0
  {
    assert !Up(s.members[d].pc) ==> Supply(s, d) >= Tries(s.members[d].pc) + |s.members[d].retries|;
  }

  lemma EndedStaysLean(cfg: Config, s: State, a: Action, d: Component)
    requires Pair(cfg) && Domains(cfg, s) && Enabled(cfg, s, a) && d in s.members && d in Effect(cfg, s, a).members && Lean(s, d)
    requires s.members[d].pc.Done? && !Up(s.members[d].pc) && Effect(cfg, s, a).members[d].pc == s.members[d].pc
    requires Outstanding(Effect(cfg, s, a), d) <= Outstanding(s, d) + Added(cfg, s, a, d)
    requires Effect(cfg, s, a).members.Keys == s.members.Keys
    ensures Lean(Effect(cfg, s, a), d)
  {
    var t := Effect(cfg, s, a);
    if a.MarkStarted? {
      assert a.c in t.members && Up(t.members[a.c].pc);
      forall x | x in s.members ensures !Up(s.members[x].pc) {
        assert x == a.c || x == d;
      }
    } else if !NoneUp(s) {
      var x :| x in s.members && Up(s.members[x].pc);
      SomeoneStaysUp(cfg, s, a, x);
    }
  }

  lemma SomeoneStaysUp(cfg: Config, s: State, a: Action, x: Component)
    requires Enabled(cfg, s, a) && x in s.members && x in Effect(cfg, s, a).members && Up(s.members[x].pc)
    ensures !NoneUp(Effect(cfg, s, a))
  {
    var t := Effect(cfg, s, a);
    UpStays(cfg, s, a, x);
    assert x in t.members && Up(t.members[x].pc);
  }

  lemma {:induction false} ExecutionIsLean(cfg: Config, acts: seq<Action>)
    requires Accepted(cfg) && |Names(cfg)| == 2 && Execute(cfg, acts).Some?
    ensures AllLean(Execute(cfg, acts).value)
  {
    var t := Execute(cfg, acts).value;
    if acts == [] {
      assert forall d :: d in t.members ==> !Promised(t, d);
    } else {
      var before, last := acts[..|acts| - 1], acts[|acts| - 1];
      var s := Execute(cfg, before).value;
      ExecutionIsLean(cfg, before);
      ExecutionIsFair(cfg, before);
      ExecutionIsFair(cfg, acts);
      ExecutionKeeps(cfg, before);
      ExecutionKeeps(cfg, acts);
      TwoArePair(cfg);
      forall d | d in t.members ensures Lean(t, d) {
        assert Fair(t, d);
        StepKeepsLean(cfg, s, last, d);
      }
    }
  }

  lemma {:induction false} FailuresOfTwo(fs: seq<Failure>, a: Component, b: Component)
    requires a != b && forall f :: f in fs ==> f.component == a || f.component == b
    ensures |fs| == Count(fs, a) + Count(fs, b)
  {
    if fs != [] {
      assert forall f :: f in fs[1..] ==> f in fs;
      FailuresOfTwo(fs[1..], a, b);
    }
  }

  lemma TwoNames(cfg: Config) returns (a: Component, b: Component)
    requires |Names(cfg)| == 2
    ensures a != b && Names(cfg) == {a, b}
  {
    a :| a in Names(cfg);
    assert |Names(cfg) - {a}| == 1;
    b :| b in Names(cfg) - {a};
    assert |Names(cfg) - {a} - {b}| == 0;
  }

  lemma PairQueuesShort(s: State, a: Component, b: Component)
    requires a != b && s.members.Keys == {a, b} && AllLean(s)
    requires forall f :: f in s.failures ==> f.component in s.members
    ensures |s.failures| <= 4 && forall c :: c in s.members ==> |s.members[c].retries| <= 2
  {
    FailuresOfTwo(s.failures, a, b);
    assert Lean(s, a) && Lean(s, b);
    forall c | c in s.members ensures |s.members[c].retries| <= 2 {
      assert Lean(s, c);
    }
  }

  /** With two components, as in the deployed pair, no channel is ever sent on while full, so no run ever
      aborts for an overflow, whatever the number of attempts. */
  lemma PairNeverOverflows(cfg: Config, acts: seq<Action>)
    requires Accepted(cfg) && |Names(cfg)| == 2 && Execute(cfg, acts).Some?
    ensures !OverflowShows(Execute(cfg, acts).value)
  {
    if Overflowed(cfg, acts) {
      var i :| 0 <= i < |acts| && OverflowsAt(cfg, acts, i);
      ExecutionIsLean(cfg, acts[..i]);
      ExecutionKeeps(cfg, acts[..i]);
      var a, b := TwoNames(cfg);
      PairQueuesShort(Execute(cfg, acts[..i]).value, a, b);
    }
    if OverflowShows(Execute(cfg, acts).value) {
      OverflowHasCause(cfg, acts);
    }
  }

  // ---- what becomes of a run ----

  lemma {:induction false} AbortIsSeen(events: seq<Event>) returns (e: Event)
    requires Aborts(events) >= 1
    ensures e in events && e.Aborted?
  {
    var last := events[|events| - 1];
    if last.Aborted? {
      e := last;
    } else {
      e := AbortIsSeen(events[..|events| - 1]);
    }
  }

  lemma AbortedHasCause(cfg: Config, acts: seq<Action>) returns (e: Event)
    requires Accepted(cfg) && Execute(cfg, acts).Some? && Execute(cfg, acts).value.aborted
    ensures e.Aborted? && e in Execute(cfg, acts).value.events && JustifiedAbort(cfg, acts, Execute(cfg, acts).value, e)
  {
    ExecutionKeepsTrace(cfg, acts);
    e := AbortIsSeen(Execute(cfg, acts).value.events);
    AbortsJustified(cfg, acts, e);
  }

  lemma FirstLed(cfg: Config, acts: seq<Action>, s: State, more: seq<Action>, t: State) returns (next: State)
    requires Execute(cfg, acts) == Some(s) && more != [] && Leads(cfg, s, more, t)
    ensures Execute(cfg, acts + [more[0]]) == Some(next) && Leads(cfg, next, more[1..], t)
  {
    assert (acts + [more[0]])[..|acts|] == acts;
    next := Effect(cfg, s, more[0]);
  }

  ghost predicate Performs(cfg: Config, acts: seq<Action>, s: State) {
    Execute(cfg, acts) == Some(s)
  }

  lemma {:induction false} LeadsExecutes(cfg: Config, acts: seq<Action>, s: State, more: seq<Action>, t: State)
    requires Performs(cfg, acts, s) && Leads(cfg, s, more, t)
    ensures Performs(cfg, acts + more, t)
    decreases |more|
  {
    if more == [] {
      assert acts + more == acts;
    } else {
      var longer, rest := acts + [more[0]], more[1..];
      assert longer + rest == acts + more;
      var next := FirstLed(cfg, acts, s, more, t);
      LeadsExecutes(cfg, longer, next, rest, t);
    }
  }

  /** Every uncancelled run can be continued, by the protocol's own steps, until all components have started or an
      abort was sent that is due to a full channel, an exhausted component, or all being down. */
  lemma EveryRunSettles(cfg: Config, acts: seq<Action>) returns (more: seq<Action>, t: State)
    requires Accepted(cfg) && Execute(cfg, acts).Some? && !Execute(cfg, acts).value.cancelled
    ensures Execute(cfg, acts + more) == Some(t)
    ensures AllStarted(cfg, t) || exists e :: HasEvent(t, e) && e.Aborted? && JustifiedAbort(cfg, acts + more, t, e)
  {
    var s := Execute(cfg, acts).value;
    more, t := RunCanSettle(cfg, s);
    LeadsExecutes(cfg, acts, s, more, t);
    if t.aborted {
      var e := AbortedHasCause(cfg, acts + more);
      assert HasEvent(t, e);
    }
  }

  /** For the pair: all components start, or one gives up at its last attempt, or all are down. */
  lemma PairSettles(cfg: Config, acts: seq<Action>) returns (more: seq<Action>, t: State)
    requires Accepted(cfg) && |Names(cfg)| == 2 && Execute(cfg, acts).Some? && !Execute(cfg, acts).value.cancelled
    ensures Execute(cfg, acts + more) == Some(t)
    ensures AllStarted(cfg, t) || AllDown(t) || exists c :: HasEvent(t, GaveUp(c, cfg.maxAttempts))
  {
    more, t := EveryRunSettles(cfg, acts);
    if !AllStarted(cfg, t) {
      var e :| HasEvent(t, e) && e.Aborted? && JustifiedAbort(cfg, acts + more, t, e);
      PairNeverOverflows(cfg, acts + more);
      assert !HasEvent(t, Aborted(e.component, QueueOverflow));
    }
  }
}
