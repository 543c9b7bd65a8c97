/** What every step of the startup protocol keeps. */
module StartupInvariants {
  import opened Basics
  import opened Dependencies
  import opened Startup

  // ---- vocabulary ----

  /** The component called ready and its goroutine got past markStarted's critical section. */
  predicate Up(pc: Pc) {
    pc.Marked? || pc.Released? || pc.Driving? || pc.Running? || pc.Exiting? || (pc.Done? && pc.ending.RunFinished?)
  }

  predicate GoingDown(pc: Pc) {
    pc.GivingUp? || pc.GaveUpMarked? || pc.GaveUpSent?
  }

  predicate HasTodo(pc: Pc, c: Component) {
    (pc.Marked? || pc.Released? || pc.Driving?) && c in pc.todo
  }

  /** Retries a goroutine has consumed. */
  function Consumed(pc: Pc): nat {
    if pc.AwaitRetry? || GoingDown(pc) then Before(Tries(pc)) else Tries(pc)
  }

  ghost predicate NoneUp(s: State) {
    forall c :: c in s.members ==> !Up(s.members[c].pc)
  }

  function Count(fs: seq<Failure>, c: Component): nat {
    if fs == [] then 0 else (if fs[0].component == c then 1 else 0) + Count(fs[1..], c)
  }

  /** Failures of c that were published and still wait for onFailure's critical section. */
  function Unhandled(s: State, c: Component): nat {
    Count(s.failures, c) + (if s.coordinator.Handling? && s.coordinator.failure.component == c then 1 else 0)
  }

  /** Retries given to c so far: consumed, queued, or being published by the coordinator. */
  function Supply(s: State, c: Component): nat
    requires c in s.members
  {
    var m := s.members[c];
    Consumed(m.pc) + |m.retries| + (if s.coordinator.Granting? && s.coordinator.to == c then 1 else 0)
  }

  /** Some started component still has c on its list of peers to retry. */
  ghost predicate Promised(s: State, c: Component) {
    exists d :: d in s.members && HasTodo(s.members[d].pc, c)
  }

  /** An abort has fired, or is certain to fire unless the run is cancelled first. */
  ghost predicate Doomed(s: State) {
    || s.aborted || s.cancelled || s.overflow.Some?
    || s.coordinator.AbortAllFailed? || s.coordinator.AbortOverflow?
    || exists c :: c in s.members && GoingDown(s.members[c].pc)
  }

  /** A started component all of whose failures were handled before it started. */
  ghost predicate Anchor(s: State, c: Component) {
    c in s.members && Up(s.members[c].pc) && s.members[c].phase == PhaseStarted && Unhandled(s, c) == 0
  }

  /** A component whose last failure was handled while nobody could drive its retry. */
  ghost predicate Undriven(cfg: Config, s: State, c: Component) {
    NoneUp(s) && c in s.members && s.members[c].phase == PhaseWaitingRetry && !HasPendingDependent(cfg, s, c)
  }

  predicate HasDependents(cfg: Config, c: Component) {
    exists d :: d in cfg.dependsOn && d != c && DependsOn(cfg, d, c)
  }

  // ---- the invariants ----

  ghost predicate Domains(cfg: Config, s: State) {
    && s.members.Keys == Names(cfg)
    && (s.coordinator.Granting? ==> s.coordinator.to in s.members)
    && (s.coordinator.Handling? ==> s.coordinator.failure.component in s.members)
    && (forall f :: f in s.failures ==> f.component in s.members)
  }

  predicate AttemptInRange(cfg: Config, pc: Pc) {
    match pc
    case AwaitDeps(_) => true
    case Done(_, _) => true
    case AwaitRetry(k) => 1 <= k < cfg.maxAttempts
    case Sleeping(k) => 1 <= k < cfg.maxAttempts
    case _ => 1 <= pc.attempt <= cfg.maxAttempts
  }

  /** What holds of one component whatever the others do. */
  predicate MemberOk(cfg: Config, m: Member, aborted: bool, cancelled: bool) {
    && AttemptInRange(cfg, m.pc)
    && (m.pc.Marked? || m.pc.Released? || m.pc.Driving? ==> m.pc.todo.Keys <= Names(cfg))
    && (m.phase == PhaseStarted ==> Up(m.pc))
    && (m.phase != PhasePending ==> Tries(m.pc) >= 1 || Up(m.pc))
    && (m.phase == PhaseGaveUp ==> m.pc.GaveUpMarked? || m.pc.GaveUpSent? || (m.pc.Done? && m.pc.ending.Exhausted?))
    && (m.released <==> Up(m.pc) && !m.pc.Marked?)
    && (m.pc.Done? && m.pc.ending.Cancelled? ==> cancelled)
    && (m.pc.Done? && m.pc.ending.Exhausted? ==> aborted)
  }

  ghost predicate MembersOk(cfg: Config, s: State) {
    && (forall c :: c in s.members ==> MemberOk(cfg, s.members[c], s.aborted, s.cancelled))
    && (s.coordinator.Stopped? ==> s.cancelled)
  }

  /** Failures are handled at most once. */
  ghost predicate FailuresCounted(s: State) {
    forall c :: c in s.members ==> Unhandled(s, c) <= Tries(s.members[c].pc)
  }

  /** Until somebody started, no component gets more retries than failures of it were handled,
      and only a component somebody depends on gets any. */
  ghost predicate NoExtraRetries(cfg: Config, s: State) {
    NoneUp(s) ==> forall c :: c in s.members && !s.members[c].pc.Done? ==>
      && Supply(s, c) + Unhandled(s, c) <= Tries(s.members[c].pc)
      && (Supply(s, c) >= 1 ==> HasDependents(cfg, c))
  }

  ghost predicate SomeAnchor(s: State) {
    NoneUp(s) || exists c :: Anchor(s, c)
  }

  /** While nobody started, components with dependencies still wait for them. */
  ghost predicate DependentsBlocked(cfg: Config, s: State) {
    NoneUp(s) ==> forall c :: c in s.members && c in cfg.dependsOn && cfg.dependsOn[c] != [] ==> Blocked(s.members[c])
  }

  predicate Blocked(m: Member) {
    m.phase == PhasePending && (m.pc == AwaitDeps(0) || (m.pc.Done? && m.pc.failures == 0))
  }

  /** Failures still in play have retries left. */
  ghost predicate RetriesLeft(cfg: Config, s: State) {
    !Doomed(s) ==>
      && (forall f :: f in s.failures ==> f.attempt < cfg.maxAttempts)
      && (s.coordinator.Handling? ==> s.coordinator.failure.attempt < cfg.maxAttempts)
      && (forall c :: c in s.members && s.members[c].phase == PhaseWaitingRetry ==> s.members[c].lastFailure < cfg.maxAttempts)
  }

  /** Every handled failure is matched by a retry, a promise of one, or an undriven wait. */
  ghost predicate EveryFailureServed(cfg: Config, s: State) {
    !Doomed(s) ==> forall c :: c in s.members && !s.members[c].pc.Done? ==> Served(cfg, s, c)
  }

  ghost predicate Served(cfg: Config, s: State, c: Component)
    requires c in s.members
  {
    var given := Supply(s, c) + Unhandled(s, c);
    || Tries(s.members[c].pc) <= given
    || (Tries(s.members[c].pc) == given + 1 && (Promised(s, c) || Undriven(cfg, s, c)))
  }

  /** If nobody started and nobody is pending, startup is being aborted. */
  ghost predicate AllDownAborts(s: State) {
    NoneUp(s) && (forall c :: c in s.members ==> s.members[c].phase != PhasePending) ==> Doomed(s)
  }

  /** Once the all-failed abort is decided, nobody has started and nobody can. */
  ghost predicate Frozen(cfg: Config, s: State) {
    && NoneUp(s)
    && (forall c :: c in s.members ==> IsDown(s.members[c].phase))
    && (forall c :: c in cfg.dependsOn ==> cfg.dependsOn[c] == [])
  }

  predicate IsAllFailed(e: Event) {
    e.Aborted? && e.reason == AllFailed
  }

  ghost predicate AllFailedFires(s: State) {
    s.coordinator.AbortAllFailed? || exists e :: e in s.events && IsAllFailed(e)
  }

  ghost predicate AllFailedFreezes(cfg: Config, s: State) {
    AllFailedFires(s) ==> Frozen(cfg, s)
  }

  ghost predicate Inv(cfg: Config, s: State) {
    && Domains(cfg, s) && MembersOk(cfg, s) && FailuresCounted(s) && NoExtraRetries(cfg, s)
    && SomeAnchor(s) && DependentsBlocked(cfg, s) && RetriesLeft(cfg, s)
    && EveryFailureServed(cfg, s) && AllDownAborts(s) && AllFailedFreezes(cfg, s)
  }

  lemma {:induction false} CountAppend(fs: seq<Failure>, f: Failure, c: Component)
    ensures Count(fs + [f], c) == Count(fs, c) + (if f.component == c then 1 else 0)
  {
    if fs == [] {
      assert fs + [f] == [f];
    } else {
      assert (fs + [f])[1..] == fs[1..] + [f];
      CountAppend(fs[1..], f, c);
    }
  }

  // ---- steps that leave the failure and retry books balanced ----

  /** Neutral steps: for every component the books (failures published, failures unhandled,
      retries given, promises) and the phase are as before, except that an overflow may drop a retry. */
  ghost predicate Neutral(cfg: Config, s: State, t: State) {
    && Domains(cfg, t) && MembersOk(cfg, t) && RetriesLeft(cfg, t)
    && t.members.Keys == s.members.Keys
    && (Doomed(s) ==> Doomed(t))
    && (AllFailedFires(t) ==> AllFailedFires(s))
    && (forall c :: c in s.members ==> NeutralFor(cfg, s, t, c))
  }

  ghost predicate NeutralFor(cfg: Config, s: State, t: State, c: Component)
    requires c in s.members && c in t.members
  {
    var m, n := s.members[c], t.members[c];
    && Tries(n.pc) == Tries(m.pc) && Unhandled(t, c) == Unhandled(s, c)
    && n.phase == m.phase && n.lastFailure == m.lastFailure && Up(n.pc) == Up(m.pc)
    && (m.pc.Done? ==> n.pc.Done?)
    && (!n.pc.Done? ==> Supply(t, c) <= Supply(s, c) && (Doomed(t) || Supply(t, c) == Supply(s, c)))
    && (forall x :: HasTodo(m.pc, x) <==> HasTodo(n.pc, x))
    && (NoneUp(s) && c in cfg.dependsOn && cfg.dependsOn[c] != [] && Blocked(m) ==> Blocked(n))
  }

  lemma NeutralKeepsBooks(cfg: Config, s: State, t: State)
    requires FailuresCounted(s) && NoExtraRetries(cfg, s) && SomeAnchor(s) && DependentsBlocked(cfg, s)
    requires Neutral(cfg, s, t)
    ensures NoneUp(t) == NoneUp(s)
    ensures FailuresCounted(t) && NoExtraRetries(cfg, t) && SomeAnchor(t) && DependentsBlocked(cfg, t)
  {
    assert NoneUp(t) == NoneUp(s) by {
      assert forall c :: c in s.members ==> NeutralFor(cfg, s, t, c);
    }
    if !NoneUp(s) {
      var c :| Anchor(s, c);
      assert Anchor(t, c);
    }
  }

  lemma NeutralKeepsServed(cfg: Config, s: State, t: State, c: Component)
    requires Neutral(cfg, s, t) && NoneUp(t) == NoneUp(s) && !Doomed(t)
    requires c in t.members && !t.members[c].pc.Done? && Served(cfg, s, c)
    ensures Served(cfg, t, c)
  {
    assert NeutralFor(cfg, s, t, c);
    if d :| d in s.members && HasTodo(s.members[d].pc, c) {
      assert NeutralFor(cfg, s, t, d) && HasTodo(t.members[d].pc, c);
    }
    if Undriven(cfg, s, c) {
      assert forall d :: d in s.members ==> NeutralFor(cfg, s, t, d);
      assert Undriven(cfg, t, c);
    }
  }

  lemma NeutralKeeps(cfg: Config, s: State, t: State)
    requires Inv(cfg, s) && Neutral(cfg, s, t)
    ensures Inv(cfg, t)
  {
    NeutralKeepsBooks(cfg, s, t);
    forall c | !Doomed(t) && c in t.members && !t.members[c].pc.Done? ensures Served(cfg, t, c) {
      assert NeutralFor(cfg, s, t, c);
      NeutralKeepsServed(cfg, s, t, c);
    }
    NeutralKeepsFreeze(cfg, s, t);
  }

  lemma NeutralKeepsFreeze(cfg: Config, s: State, t: State)
    requires AllDownAborts(s) && AllFailedFreezes(cfg, s) && Neutral(cfg, s, t) && NoneUp(t) == NoneUp(s)
    ensures AllDownAborts(t) && AllFailedFreezes(cfg, t)
  {
    assert forall c :: c in s.members ==> NeutralFor(cfg, s, t, c);
  }

  /** A neutral step of one component's goroutine, in terms of that component alone. */
  ghost predicate LocalNeutral(cfg: Config, s: State, t: State, c: Component) {
    && c in s.members && c in t.members
    && t.members == s.members[c := t.members[c]]
    && t.failures == s.failures && t.overflow == s.overflow && t.coordinator == s.coordinator
    && t.cancelled == s.cancelled && (s.aborted ==> t.aborted)
    && (forall e :: e in t.events && IsAllFailed(e) ==> e in s.events)
    && NeutralMember(cfg, s.members[c], t.members[c], t.aborted, t.cancelled)
    && (NoneUp(s) && c in cfg.dependsOn && cfg.dependsOn[c] != [] && Blocked(s.members[c]) ==> Blocked(t.members[c]))
  }

  ghost predicate NeutralMember(cfg: Config, m: Member, n: Member, aborted: bool, cancelled: bool) {
    && Tries(n.pc) == Tries(m.pc) && Up(n.pc) == Up(m.pc)
    && n.phase == m.phase && n.lastFailure == m.lastFailure
    && !m.pc.Done? && (!n.pc.Done? ==> Consumed(n.pc) + |n.retries| == Consumed(m.pc) + |m.retries|)
    && (forall x :: HasTodo(m.pc, x) <==> HasTodo(n.pc, x))
    && (GoingDown(m.pc) ==> GoingDown(n.pc) || aborted)
    && (GoingDown(n.pc) ==> GoingDown(m.pc))
    && MemberOk(cfg, n, aborted, cancelled)
  }

  lemma LocalNeutralKeepsMembers(cfg: Config, s: State, t: State, c: Component)
    requires MembersOk(cfg, s) && LocalNeutral(cfg, s, t, c)
    ensures MembersOk(cfg, t) && (Doomed(s) ==> Doomed(t))
  {
    forall d | d in t.members ensures MemberOk(cfg, t.members[d], t.aborted, t.cancelled) {
      assert d != c ==> MemberOk(cfg, s.members[d], s.aborted, s.cancelled);
    }
    if d :| d in s.members && GoingDown(s.members[d].pc) {
      assert d in t.members && (GoingDown(t.members[d].pc) || t.aborted);
    }
  }

  lemma LocalNeutralIsNeutral(cfg: Config, s: State, t: State, c: Component)
    requires Domains(cfg, s) && MembersOk(cfg, s) && RetriesLeft(cfg, s) && LocalNeutral(cfg, s, t, c)
    ensures Neutral(cfg, s, t)
  {
    LocalNeutralKeepsMembers(cfg, s, t, c);
    LocalNeutralKeepsRetriesLeft(cfg, s, t, c);
    forall d | d in s.members ensures NeutralFor(cfg, s, t, d) {
      LocalNeutralFor(cfg, s, t, c, d);
    }
  }

  lemma LocalNeutralFor(cfg: Config, s: State, t: State, c: Component, d: Component)
    requires LocalNeutral(cfg, s, t, c) && d in s.members && d in t.members
    ensures NeutralFor(cfg, s, t, d)
  {
  }

  lemma LocalNeutralKeepsRetriesLeft(cfg: Config, s: State, t: State, c: Component)
    requires RetriesLeft(cfg, s) && LocalNeutral(cfg, s, t, c) && (Doomed(s) ==> Doomed(t))
    ensures RetriesLeft(cfg, t)
  {
  }

  // ---- one lemma per action ----

  lemma MoveIsQuiet(cfg: Config, s: State, deps: seq<Component>, m: Member, to: Pc)
    requires cfg.maxAttempts >= 1 && CanMove(s, deps, m.pc, to) && MemberOk(cfg, m, s.aborted, s.cancelled)
    ensures NeutralMember(cfg, m, m.(pc := to), s.aborted, s.cancelled)
  {
  }

  lemma MoveIsLocal(cfg: Config, s: State, c: Component, to: Pc)
    requires cfg.maxAttempts >= 1 && MembersOk(cfg, s) && Enabled(cfg, s, Move(c, to))
    ensures LocalNeutral(cfg, s, Effect(cfg, s, Move(c, to)), c)
  {
    var t := At(s, c, to);
    MoveIsQuiet(cfg, s, cfg.dependsOn[c], s.members[c], to);
    if NoneUp(s) && cfg.dependsOn[c] != [] && Blocked(s.members[c]) {
      assert forall d :: d in s.members ==> !s.members[d].released;
      assert Blocked(t.members[c]);
    }
  }

  lemma ReleaseIsLocal(cfg: Config, s: State, c: Component)
    requires cfg.maxAttempts >= 1 && MembersOk(cfg, s) && Enabled(cfg, s, Release(c))
    ensures LocalNeutral(cfg, s, Effect(cfg, s, Release(c)), c)
  {
    assert MemberOk(cfg, s.members[c], s.aborted, s.cancelled);
  }

  lemma AnnounceStartedIsLocal(cfg: Config, s: State, c: Component)
    requires cfg.maxAttempts >= 1 && MembersOk(cfg, s) && Enabled(cfg, s, AnnounceStarted(c))
    ensures LocalNeutral(cfg, s, Effect(cfg, s, AnnounceStarted(c)), c)
  {
    assert MemberOk(cfg, s.members[c], s.aborted, s.cancelled);
  }

  lemma AnnounceExitedIsLocal(cfg: Config, s: State, c: Component)
    requires cfg.maxAttempts >= 1 && MembersOk(cfg, s) && Enabled(cfg, s, AnnounceExited(c))
    ensures LocalNeutral(cfg, s, Effect(cfg, s, AnnounceExited(c)), c)
  {
    assert MemberOk(cfg, s.members[c], s.aborted, s.cancelled);
  }

  lemma AnnounceGaveUpIsLocal(cfg: Config, s: State, c: Component)
    requires cfg.maxAttempts >= 1 && MembersOk(cfg, s) && Enabled(cfg, s, AnnounceGaveUp(c))
    ensures LocalNeutral(cfg, s, Effect(cfg, s, AnnounceGaveUp(c)), c)
  {
    assert MemberOk(cfg, s.members[c], s.aborted, s.cancelled);
  }

  lemma AbortGaveUpIsLocal(cfg: Config, s: State, c: Component)
    requires cfg.maxAttempts >= 1 && MembersOk(cfg, s) && Enabled(cfg, s, AbortGaveUp(c))
    ensures LocalNeutral(cfg, s, Effect(cfg, s, AbortGaveUp(c)), c)
  {
    assert MemberOk(cfg, s.members[c], s.aborted, s.cancelled);
  }

  lemma ReceiveRetryIsLocal(cfg: Config, s: State, c: Component)
    requires cfg.maxAttempts >= 1 && MembersOk(cfg, s) && Enabled(cfg, s, ReceiveRetry(c))
    ensures LocalNeutral(cfg, s, Effect(cfg, s, ReceiveRetry(c)), c)
  {
    assert MemberOk(cfg, s.members[c], s.aborted, s.cancelled);
  }

  ghost predicate IsLocal(a: Action) {
    a.Move? || a.Release? || a.AnnounceStarted? || a.AnnounceExited? || a.AnnounceGaveUp? || a.AbortGaveUp? || a.ReceiveRetry?
  }

  lemma LocalStepIsLocal(cfg: Config, s: State, a: Action)
    requires cfg.maxAttempts >= 1 && MembersOk(cfg, s) && Enabled(cfg, s, a) && IsLocal(a)
    ensures LocalNeutral(cfg, s, Effect(cfg, s, a), a.c)
  {
    match a
    case Move(c, to) => MoveIsLocal(cfg, s, c, to);
    case Release(c) => ReleaseIsLocal(cfg, s, c);
    case AnnounceStarted(c) => AnnounceStartedIsLocal(cfg, s, c);
    case AnnounceExited(c) => AnnounceExitedIsLocal(cfg, s, c);
    case AnnounceGaveUp(c) => AnnounceGaveUpIsLocal(cfg, s, c);
    case AbortGaveUp(c) => AbortGaveUpIsLocal(cfg, s, c);
    case ReceiveRetry(c) => ReceiveRetryIsLocal(cfg, s, c);
  }

  lemma LocalStepKeeps(cfg: Config, s: State, a: Action)
    requires cfg.maxAttempts >= 1 && Inv(cfg, s) && Enabled(cfg, s, a) && IsLocal(a)
    ensures Inv(cfg, Effect(cfg, s, a))
  {
    LocalStepIsLocal(cfg, s, a);
    LocalNeutralIsNeutral(cfg, s, Effect(cfg, s, a), a.c);
    NeutralKeeps(cfg, s, Effect(cfg, s, a));
  }

  /** Publishing to c's retry queue: one more message for c, or an overflow signal. */
  ghost predicate RetrySent(s: State, t: State, c: Component) {
    && c in s.members && c in t.members
    && t.failures == s.failures && t.events == s.events && t.aborted == s.aborted && t.cancelled == s.cancelled
    && (t.overflow.None? ==> s.overflow.None?)
    && t.members == s.members[c := t.members[c]]
    && ((t.members[c] == s.members[c] && t.overflow.Some?) || (QueuedOne(s.members[c], t.members[c]) && t.overflow == s.overflow))
  }

  predicate QueuedOne(m: Member, n: Member) {
    |n.retries| == |m.retries| + 1 && n == m.(retries := n.retries)
  }

  lemma SendRetryShape(s: State, c: Component, attempt: nat)
    requires c in s.members
    ensures RetrySent(s, SendRetry(s, c, attempt), c) && SendRetry(s, c, attempt).coordinator == s.coordinator
  {
    var m := s.members[c];
    assert s.members == s.members[c := m];
    if |m.retries| < RETRY_BUFFER_SIZE {
      assert QueuedOne(m, m.(retries := m.retries + [attempt]));
    }
  }

  lemma RetrySentKeepsDoom(s: State, t: State, c: Component)
    requires RetrySent(s, t, c)
    requires !s.coordinator.AbortAllFailed? && !s.coordinator.AbortOverflow?
    ensures Doomed(s) ==> Doomed(t)
  {
    if d :| d in s.members && GoingDown(s.members[d].pc) {
      assert d in t.members && GoingDown(t.members[d].pc);
    }
  }

  lemma PublishRetryIsNeutralFor(cfg: Config, s: State, t: State, c: Component, d: Component)
    requires s.coordinator.Granting? && s.coordinator.to == c && t.coordinator.Idle? && RetrySent(s, t, c)
    requires d in s.members && d in t.members
    ensures NeutralFor(cfg, s, t, d)
  {
  }

  lemma RetrySentKeepsMembers(cfg: Config, s: State, t: State, c: Component)
    requires MembersOk(cfg, s) && RetrySent(s, t, c) && (t.coordinator.Stopped? ==> s.coordinator.Stopped?)
    ensures MembersOk(cfg, t)
  {
    forall d | d in t.members ensures MemberOk(cfg, t.members[d], t.aborted, t.cancelled) {
      assert MemberOk(cfg, s.members[d], s.aborted, s.cancelled);
    }
  }

  lemma PublishRetryIsNeutral(cfg: Config, s: State, t: State, c: Component)
    requires Domains(cfg, s) && MembersOk(cfg, s) && RetriesLeft(cfg, s)
    requires s.coordinator.Granting? && s.coordinator.to == c && t.coordinator.Idle? && RetrySent(s, t, c)
    ensures Neutral(cfg, s, t)
  {
    RetrySentKeepsDoom(s, t, c);
    RetrySentKeepsMembers(cfg, s, t, c);
    forall d | d in s.members ensures NeutralFor(cfg, s, t, d) {
      PublishRetryIsNeutralFor(cfg, s, t, c, d);
    }
  }

  lemma PublishRetryKeeps(cfg: Config, s: State)
    requires Inv(cfg, s) && Enabled(cfg, s, PublishRetry)
    ensures Inv(cfg, Effect(cfg, s, PublishRetry))
  {
    SendRetryShape(s, s.coordinator.to, s.coordinator.attempt);
    PublishRetryIsNeutral(cfg, s, Effect(cfg, s, PublishRetry), s.coordinator.to);
    NeutralKeeps(cfg, s, Effect(cfg, s, PublishRetry));
  }

  /** Steps that touch no component and only move the coordinator, the cancellation and the abort flags. */
  ghost predicate FlagsOnly(s: State, t: State) {
    && t.members == s.members
    && (s.aborted ==> t.aborted) && (s.cancelled ==> t.cancelled)
    && (t.coordinator.Stopped? ==> t.cancelled)
    && (forall e :: e in t.events && IsAllFailed(e) ==> e in s.events || s.coordinator.AbortAllFailed?)
    && (s.overflow.Some? ==> t.overflow.Some? || t.coordinator.AbortOverflow?)
    && (s.coordinator.AbortAllFailed? || s.coordinator.AbortOverflow? ==> t.coordinator == s.coordinator || t.aborted)
    && !t.coordinator.Granting? == !s.coordinator.Granting?
    && (t.coordinator.Granting? || t.coordinator.AbortAllFailed? ==> t.coordinator == s.coordinator)
    && ((t.failures == s.failures && s.coordinator.Handling? == t.coordinator.Handling?
         && (t.coordinator.Handling? ==> t.coordinator == s.coordinator))
        || (s.failures != [] && t.failures == s.failures[1..] && s.coordinator.Idle? && t.coordinator == Handling(s.failures[0])))
  }

  lemma FlagsAreNeutral(cfg: Config, s: State, t: State)
    requires Domains(cfg, s) && MembersOk(cfg, s) && RetriesLeft(cfg, s) && FlagsOnly(s, t)
    ensures Neutral(cfg, s, t)
  {
    if d :| d in s.members && GoingDown(s.members[d].pc) {
      assert d in t.members;
    }
    assert Doomed(s) ==> Doomed(t);
    forall d | d in s.members ensures NeutralFor(cfg, s, t, d) {}
  }

  /** The coordinator's and the shutdown's steps that touch no component. */
  ghost predicate IsQuietGlobal(a: Action) {
    a.TakeFailure? || a.TakeOverflow? || a.Abort? || a.StopCoordinator? || a.CancelAfterAbort? || a.ExternalCancel?
    || a.CancelWhenFinished? || a.CloseEvents?
  }

  lemma GlobalIsFlagsOnly(cfg: Config, s: State, a: Action)
    requires Enabled(cfg, s, a) && IsQuietGlobal(a)
    requires s.coordinator.Stopped? ==> s.cancelled
    ensures FlagsOnly(s, Effect(cfg, s, a))
  {
  }

  lemma GlobalKeeps(cfg: Config, s: State, a: Action)
    requires Inv(cfg, s) && Enabled(cfg, s, a) && IsQuietGlobal(a)
    ensures Inv(cfg, Effect(cfg, s, a))
  {
    GlobalIsFlagsOnly(cfg, s, a);
    FlagsAreNeutral(cfg, s, Effect(cfg, s, a));
    NeutralKeeps(cfg, s, Effect(cfg, s, a));
  }

  // ---- a component starts ----

  ghost predicate StartStep(cfg: Config, s: State, t: State, c: Component) {
    && c in s.members && s.members[c].pc.Ready?
    && t == With(s, c, s.members[c].(pc := Marked(s.members[c].pc.attempt, PendingPeers(cfg, s, c)), phase := PhaseStarted))
  }

  lemma StartKeepsDoom(cfg: Config, s: State, t: State, c: Component)
    requires StartStep(cfg, s, t, c)
    ensures Doomed(s) ==> Doomed(t)
  {
    if d :| d in s.members && GoingDown(s.members[d].pc) {
      assert d in t.members && GoingDown(t.members[d].pc);
    }
  }

  lemma StartKeepsBasics(cfg: Config, s: State, t: State, c: Component)
    requires Domains(cfg, s) && MembersOk(cfg, s) && FailuresCounted(s) && RetriesLeft(cfg, s) && StartStep(cfg, s, t, c)
    ensures Domains(cfg, t) && MembersOk(cfg, t) && FailuresCounted(t) && RetriesLeft(cfg, t) && !NoneUp(t)
  {
    StartKeepsDoom(cfg, s, t, c);
    assert Up(t.members[c].pc);
  }

  /** The first component to start has no failure left to be handled. */
  lemma StartKeepsAnchor(cfg: Config, s: State, t: State, c: Component)
    requires Domains(cfg, s) && MembersOk(cfg, s) && NoExtraRetries(cfg, s) && SomeAnchor(s) && StartStep(cfg, s, t, c)
    ensures SomeAnchor(t)
  {
    if NoneUp(s) {
      assert Supply(s, c) >= Tries(s.members[c].pc);
      assert Anchor(t, c);
    } else {
      var d :| Anchor(s, d);
      assert Anchor(t, d);
    }
  }

  /** Whoever waited without a driver is on the list of the component that starts. */
  lemma StartKeepsServed(cfg: Config, s: State, t: State, c: Component)
    requires Domains(cfg, s) && RetriesLeft(cfg, s) && EveryFailureServed(cfg, s) && StartStep(cfg, s, t, c)
    ensures EveryFailureServed(cfg, t)
  {
    StartKeepsDoom(cfg, s, t, c);
    if !Doomed(t) {
      forall d | d in t.members && !t.members[d].pc.Done? ensures Served(cfg, t, d) {
        assert Served(cfg, s, d);
        assert Supply(t, d) == Supply(s, d) && Unhandled(t, d) == Unhandled(s, d);
        if Tries(s.members[d].pc) > Supply(s, d) + Unhandled(s, d) {
          if e :| e in s.members && HasTodo(s.members[e].pc, d) {
            assert HasTodo(t.members[e].pc, d);
          } else {
            assert HasTodo(t.members[c].pc, d);
          }
        }
      }
    }
  }

  /** After an all-failed abort is decided no component is about to start. */
  lemma FrozenMeansNotReady(cfg: Config, s: State, c: Component)
    requires Domains(cfg, s) && MembersOk(cfg, s) && NoExtraRetries(cfg, s) && Frozen(cfg, s) && c in s.members
    ensures !s.members[c].pc.Ready?
  {
    assert s.members[c].pc.Ready? ==> Supply(s, c) >= 1;
  }

  lemma MarkStartedKeeps(cfg: Config, s: State, c: Component)
    requires cfg.maxAttempts >= 1 && Inv(cfg, s) && Enabled(cfg, s, MarkStarted(c))
    ensures Inv(cfg, Effect(cfg, s, MarkStarted(c)))
  {
    var t := Effect(cfg, s, MarkStarted(c));
    assert StartStep(cfg, s, t, c);
    StartKeepsBasics(cfg, s, t, c);
    StartKeepsAnchor(cfg, s, t, c);
    StartKeepsServed(cfg, s, t, c);
    if AllFailedFires(s) {
      FrozenMeansNotReady(cfg, s, c);
    }
  }

  // ---- a started component publishes one of its retries ----

  ghost predicate DriveStep(s: State, u: State, t: State, c: Component, peer: Component) {
    && c in s.members && s.members[c].pc.Driving? && peer in s.members[c].pc.todo
    && u == At(s, c, Driving(s.members[c].pc.attempt, s.members[c].pc.todo - {peer}))
    && RetrySent(u, t, peer) && t.coordinator == s.coordinator
  }

  lemma DriveKeepsMembers(cfg: Config, s: State, u: State, t: State, c: Component, peer: Component)
    requires MembersOk(cfg, s) && DriveStep(s, u, t, c, peer)
    ensures MembersOk(cfg, t)
  {
    assert MemberOk(cfg, u.members[c], u.aborted, u.cancelled) by {
      assert MemberOk(cfg, s.members[c], s.aborted, s.cancelled);
    }
    assert MembersOk(cfg, u);
    RetrySentKeepsMembers(cfg, u, t, peer);
  }

  lemma DriveKeepsBasics(cfg: Config, s: State, u: State, t: State, c: Component, peer: Component)
    requires Domains(cfg, s) && FailuresCounted(s) && DriveStep(s, u, t, c, peer)
    ensures Domains(cfg, t) && FailuresCounted(t) && !NoneUp(t)
  {
    assert Up(t.members[c].pc);
  }

  lemma DriveKeepsRetriesLeft(cfg: Config, s: State, u: State, t: State, c: Component, peer: Component)
    requires Domains(cfg, s) && RetriesLeft(cfg, s) && DriveStep(s, u, t, c, peer)
    ensures Doomed(s) ==> Doomed(t)
    ensures RetriesLeft(cfg, t)
  {
    if d :| d in s.members && GoingDown(s.members[d].pc) {
      assert d in t.members && GoingDown(t.members[d].pc);
    }
  }

  lemma DriveKeepsAnchor(s: State, u: State, t: State, c: Component, peer: Component)
    requires SomeAnchor(s) && DriveStep(s, u, t, c, peer)
    ensures SomeAnchor(t)
  {
    assert Up(s.members[c].pc);
    var d :| Anchor(s, d);
    assert Anchor(t, d);
  }

  lemma DriveKeepsServed(cfg: Config, s: State, u: State, t: State, c: Component, peer: Component)
    requires EveryFailureServed(cfg, s) && DriveStep(s, u, t, c, peer)
    requires Doomed(s) ==> Doomed(t)
    ensures EveryFailureServed(cfg, t)
  {
    assert Up(s.members[c].pc);
    if !Doomed(t) {
      forall e | e in t.members && !t.members[e].pc.Done? ensures Served(cfg, t, e) {
        assert Served(cfg, s, e);
        if f :| f in s.members && HasTodo(s.members[f].pc, e) {
          assert f in t.members && (e == peer || HasTodo(t.members[f].pc, e));
        }
      }
    }
  }

  lemma DriveKeeps(cfg: Config, s: State, c: Component, peer: Component)
    requires Inv(cfg, s) && Enabled(cfg, s, Drive(c, peer))
    ensures Inv(cfg, Effect(cfg, s, Drive(c, peer)))
  {
    assert MemberOk(cfg, s.members[c], s.aborted, s.cancelled);
    var t := Effect(cfg, s, Drive(c, peer));
    var u := At(s, c, Driving(s.members[c].pc.attempt, s.members[c].pc.todo - {peer}));
    SendRetryShape(u, peer, s.members[c].pc.todo[peer]);
    assert DriveStep(s, u, t, c, peer);
    DriveKeepsMembers(cfg, s, u, t, c, peer);
    DriveKeepsBasics(cfg, s, u, t, c, peer);
    DriveKeepsRetriesLeft(cfg, s, u, t, c, peer);
    DriveKeepsAnchor(s, u, t, c, peer);
    DriveKeepsServed(cfg, s, u, t, c, peer);
    assert Up(s.members[c].pc) && t.events == s.events;
  }

  // ---- a failure is published ----

  /** Publishing c's failure: one more failure in the queue, or an overflow signal. */
  ghost predicate FailureSent(cfg: Config, s: State, t: State, c: Component) {
    && c in s.members && c in t.members && s.members[c].pc.Publishing?
    && t.members == s.members[c := t.members[c]]
    && (var k := s.members[c].pc.attempt;
        && t.members[c] == s.members[c].(pc := if k == cfg.maxAttempts then GivingUp(k) else AwaitRetry(k))
        && ((t.failures == s.failures + [Failure(c, k)] && t.overflow == s.overflow)
            || (t.failures == s.failures && t.overflow.Some?)))
    && t.coordinator == s.coordinator && t.events == s.events && t.aborted == s.aborted && t.cancelled == s.cancelled
  }

  lemma FailureSentCounts(cfg: Config, s: State, t: State, c: Component, d: Component)
    requires FailureSent(cfg, s, t, c)
    ensures Unhandled(s, d) <= Unhandled(t, d) <= Unhandled(s, d) + (if d == c then 1 else 0)
    ensures d == c && t.overflow.None? ==> Unhandled(t, d) == Unhandled(s, d) + 1
  {
    CountAppend(s.failures, Failure(c, s.members[c].pc.attempt), d);
  }

  lemma FailureSentKeepsMembers(cfg: Config, s: State, t: State, c: Component)
    requires MembersOk(cfg, s) && FailureSent(cfg, s, t, c)
    ensures MembersOk(cfg, t)
  {
    forall d | d in t.members ensures MemberOk(cfg, t.members[d], t.aborted, t.cancelled) {
      assert MemberOk(cfg, s.members[d], s.aborted, s.cancelled);
    }
  }

  lemma FailureSentKeepsBasics(cfg: Config, s: State, t: State, c: Component)
    requires cfg.maxAttempts >= 1 && Domains(cfg, s) && MembersOk(cfg, s) && FailuresCounted(s) && FailureSent(cfg, s, t, c)
    ensures Domains(cfg, t) && MembersOk(cfg, t) && FailuresCounted(t)
    ensures NoneUp(t) == NoneUp(s)
  {
    FailureSentKeepsMembers(cfg, s, t, c);
    forall d | d in t.members ensures Unhandled(t, d) <= Tries(t.members[d].pc) {
      FailureSentCounts(cfg, s, t, c, d);
    }
    assert forall d :: d in s.members ==> Up(s.members[d].pc) == Up(t.members[d].pc);
  }

  lemma FailureSentKeepsRetries(cfg: Config, s: State, t: State, c: Component)
    requires cfg.maxAttempts >= 1 && MembersOk(cfg, s) && NoExtraRetries(cfg, s) && RetriesLeft(cfg, s)
    requires FailureSent(cfg, s, t, c) && NoneUp(t) == NoneUp(s)
    ensures NoExtraRetries(cfg, t) && RetriesLeft(cfg, t)
    ensures Doomed(s) ==> Doomed(t)
  {
    forall d | NoneUp(t) && d in t.members && !t.members[d].pc.Done?
      ensures Supply(t, d) + Unhandled(t, d) <= Tries(t.members[d].pc) && (Supply(t, d) >= 1 ==> HasDependents(cfg, d))
    {
      FailureSentCounts(cfg, s, t, c, d);
      assert Supply(t, d) == Supply(s, d);
    }
    FailureSentKeepsLeft(cfg, s, t, c);
  }

  lemma FailureSentKeepsLeft(cfg: Config, s: State, t: State, c: Component)
    requires RetriesLeft(cfg, s) && FailureSent(cfg, s, t, c) && s.members[c].pc.attempt <= cfg.maxAttempts
    ensures RetriesLeft(cfg, t)
    ensures Doomed(s) ==> Doomed(t)
  {
    if d :| d in s.members && GoingDown(s.members[d].pc) {
      assert d in t.members && GoingDown(t.members[d].pc);
    }
    assert GoingDown(t.members[c].pc) ==> Doomed(t);
  }

  lemma FailureSentKeepsWaits(cfg: Config, s: State, t: State, c: Component)
    requires Domains(cfg, s) && FailureSent(cfg, s, t, c) && NoneUp(t) == NoneUp(s) && (Doomed(s) ==> Doomed(t))
    requires SomeAnchor(s) && DependentsBlocked(cfg, s) && AllDownAborts(s) && AllFailedFreezes(cfg, s)
    ensures SomeAnchor(t) && DependentsBlocked(cfg, t) && AllDownAborts(t) && AllFailedFreezes(cfg, t)
  {
    if !NoneUp(s) {
      var d :| Anchor(s, d);
      FailureSentCounts(cfg, s, t, c, d);
      assert Anchor(t, d);
    }
    assert forall d :: d in t.members ==> t.members[d].phase == s.members[d].phase;
  }

  lemma FailureSentKeepsServed(cfg: Config, s: State, t: State, c: Component)
    requires MembersOk(cfg, s) && EveryFailureServed(cfg, s) && FailureSent(cfg, s, t, c)
    requires NoneUp(t) == NoneUp(s) && (Doomed(s) ==> Doomed(t))
    ensures EveryFailureServed(cfg, t)
  {
    if !Doomed(t) {
      forall e | e in t.members && !t.members[e].pc.Done? ensures Served(cfg, t, e) {
        assert Served(cfg, s, e);
        FailureSentCounts(cfg, s, t, c, e);
        if f :| f in s.members && HasTodo(s.members[f].pc, e) {
          assert f in t.members && HasTodo(t.members[f].pc, e);
        }
        if Undriven(cfg, s, e) {
          assert Undriven(cfg, t, e);
        }
      }
    }
  }

  lemma PublishFailureShape(cfg: Config, s: State, c: Component)
    requires Enabled(cfg, s, PublishFailure(c))
    ensures FailureSent(cfg, s, Effect(cfg, s, PublishFailure(c)), c)
  {
    var k := s.members[c].pc.attempt;
    var u := At(s, c, if k == cfg.maxAttempts then GivingUp(k) else AwaitRetry(k));
    assert Effect(cfg, s, PublishFailure(c)) == SendFailure(u, Failure(c, k));
  }

  lemma PublishFailureKeeps(cfg: Config, s: State, c: Component)
    requires cfg.maxAttempts >= 1 && Inv(cfg, s) && Enabled(cfg, s, PublishFailure(c))
    ensures Inv(cfg, Effect(cfg, s, PublishFailure(c)))
  {
    PublishFailureShape(cfg, s, c);
    FailureSentKeeps(cfg, s, Effect(cfg, s, PublishFailure(c)), c);
  }

  lemma FailureSentKeeps(cfg: Config, s: State, t: State, c: Component)
    requires cfg.maxAttempts >= 1 && Inv(cfg, s) && FailureSent(cfg, s, t, c)
    ensures Inv(cfg, t)
  {
    FailureSentKeepsBasics(cfg, s, t, c);
    FailureSentKeepsRetries(cfg, s, t, c);
    FailureSentKeepsWaits(cfg, s, t, c);
    FailureSentKeepsServed(cfg, s, t, c);
  }

  // ---- a component gives up ----

  ghost predicate GaveUpStep(s: State, t: State, c: Component) {
    && c in s.members && s.members[c].pc.GivingUp?
    && t == With(s, c, s.members[c].(pc := GaveUpMarked(s.members[c].pc.attempt), phase := PhaseGaveUp))
  }

  lemma GaveUpKeepsMembers(cfg: Config, s: State, t: State, c: Component)
    requires Domains(cfg, s) && MembersOk(cfg, s) && FailuresCounted(s) && GaveUpStep(s, t, c)
    ensures Domains(cfg, t) && MembersOk(cfg, t) && FailuresCounted(t) && Doomed(t) && NoneUp(t) == NoneUp(s)
  {
    forall d | d in t.members ensures MemberOk(cfg, t.members[d], t.aborted, t.cancelled) {
      assert MemberOk(cfg, s.members[d], s.aborted, s.cancelled);
    }
    assert GoingDown(t.members[c].pc) && Doomed(t);
    assert forall d :: d in s.members ==> Up(s.members[d].pc) == Up(t.members[d].pc);
  }

  lemma GaveUpKeepsRetries(cfg: Config, s: State, t: State, c: Component)
    requires NoExtraRetries(cfg, s) && GaveUpStep(s, t, c) && NoneUp(t) == NoneUp(s)
    ensures NoExtraRetries(cfg, t)
  {
    forall d | NoneUp(t) && d in t.members && !t.members[d].pc.Done?
      ensures Supply(t, d) + Unhandled(t, d) <= Tries(t.members[d].pc) && (Supply(t, d) >= 1 ==> HasDependents(cfg, d))
    {
      assert Supply(t, d) == Supply(s, d);
    }
  }

  lemma GaveUpKeepsWaits(cfg: Config, s: State, t: State, c: Component)
    requires SomeAnchor(s) && DependentsBlocked(cfg, s) && AllFailedFreezes(cfg, s)
    requires GaveUpStep(s, t, c) && NoneUp(t) == NoneUp(s)
    ensures SomeAnchor(t) && DependentsBlocked(cfg, t) && AllFailedFreezes(cfg, t)
  {
    if !NoneUp(s) {
      var d :| Anchor(s, d);
      assert Anchor(t, d);
    }
  }

  lemma MarkGaveUpKeeps(cfg: Config, s: State, c: Component)
    requires Inv(cfg, s) && Enabled(cfg, s, MarkGaveUp(c))
    ensures Inv(cfg, Effect(cfg, s, MarkGaveUp(c)))
  {
    var t := Effect(cfg, s, MarkGaveUp(c));
    GaveUpKeepsMembers(cfg, s, t, c);
    GaveUpKeepsRetries(cfg, s, t, c);
    GaveUpKeepsWaits(cfg, s, t, c);
  }

  // ---- the coordinator handles a failure ----

  /** onFailure's critical section as a relation: the new phase of one component, then the decision. */
  ghost predicate Handled(cfg: Config, s: State, t: State, f: Failure) {
    && s.coordinator == Handling(f) && f.component in s.members
    && t.members.Keys == s.members.Keys
    && (forall d :: d in s.members && d != f.component ==> t.members[d] == s.members[d])
    && HandledMember(s.members[f.component], t.members[f.component], f)
    && t.failures == s.failures && t.overflow == s.overflow && t.events == s.events
    && t.aborted == s.aborted && t.cancelled == s.cancelled
    && t.coordinator == Decision(cfg, t, f)
  }

  predicate HandledMember(m: Member, n: Member, f: Failure) {
    if m.phase == PhaseGaveUp then n == m
    else n == m.(phase := PhaseWaitingRetry, lastFailure := f.attempt)
  }

  ghost function Decision(cfg: Config, t: State, f: Failure): Coordinator {
    var c := f.component;
    if PeerStarted(t, c) || HasPendingDependent(cfg, t, c) then
      if f.attempt < cfg.maxAttempts then Granting(c, f.attempt + 1) else Idle
    else if PeersDown(t, c) then AbortAllFailed(c)
    else Idle
  }

  lemma OnFailureShape(cfg: Config, s: State)
    requires Enabled(cfg, s, OnFailure)
    ensures Handled(cfg, s, Effect(cfg, s, OnFailure), s.coordinator.failure)
  {
    var f := s.coordinator.failure;
    var c := f.component;
    var m := s.members[c];
    var u := if m.phase == PhaseGaveUp then s
             else With(s, c, m.(phase := PhaseWaitingRetry, lastFailure := f.attempt));
    var t := Effect(cfg, s, OnFailure);
    assert t == u.(coordinator := t.coordinator);
    SamePeers(cfg, u, t, c);
  }

  /** What a failure is judged by does not depend on where the coordinator is. */
  lemma SamePeers(cfg: Config, s: State, t: State, c: Component)
    requires t.members == s.members
    ensures PeerStarted(t, c) == PeerStarted(s, c)
    ensures HasPendingDependent(cfg, t, c) == HasPendingDependent(cfg, s, c)
    ensures PeersDown(t, c) == PeersDown(s, c)
  {
  }

  lemma HandledKeepsMembers(cfg: Config, s: State, t: State, f: Failure)
    requires Domains(cfg, s) && MembersOk(cfg, s) && FailuresCounted(s) && Handled(cfg, s, t, f)
    ensures Domains(cfg, t) && MembersOk(cfg, t)
  {
    assert Unhandled(s, f.component) >= 1;
    forall d | d in t.members ensures MemberOk(cfg, t.members[d], t.aborted, t.cancelled) {
      assert MemberOk(cfg, s.members[d], s.aborted, s.cancelled);
    }
  }

  lemma HandledKeepsCounts(cfg: Config, s: State, t: State, f: Failure)
    requires FailuresCounted(s) && Handled(cfg, s, t, f)
    ensures FailuresCounted(t) && NoneUp(t) == NoneUp(s)
    ensures forall d :: d in t.members ==> Unhandled(t, d) == Unhandled(s, d) - (if d == f.component then 1 else 0)
    ensures Doomed(s) ==> Doomed(t)
  {
    assert forall d :: d in s.members ==> s.members[d].pc == t.members[d].pc;
    if d :| d in s.members && GoingDown(s.members[d].pc) {
      assert d in t.members && GoingDown(t.members[d].pc);
    }
  }

  /** Before anybody started, a peer is never found started, so a retry is granted only for a dependent's sake. */
  lemma HandledKeepsRetries(cfg: Config, s: State, t: State, f: Failure)
    requires MembersOk(cfg, t) && NoExtraRetries(cfg, s) && Handled(cfg, s, t, f) && t.members.Keys == Names(cfg)
    requires NoneUp(t) == NoneUp(s)
    requires forall d :: d in t.members ==> Unhandled(t, d) == Unhandled(s, d) - (if d == f.component then 1 else 0)
    ensures NoExtraRetries(cfg, t)
  {
    if NoneUp(t) {
      assert !PeerStarted(t, f.component);
      if n :| n in t.members && n != f.component && t.members[n].phase == PhasePending && DependsOn(cfg, n, f.component) {
        assert HasDependents(cfg, f.component);
      }
      forall d | d in t.members && !t.members[d].pc.Done?
        ensures Supply(t, d) + Unhandled(t, d) <= Tries(t.members[d].pc) && (Supply(t, d) >= 1 ==> HasDependents(cfg, d))
      {
        HandledSupply(cfg, s, t, f, d);
      }
    }
  }

  /** Handling a failure leaves the goroutines alone and gives at most one retry, to the failed component. */
  lemma HandledSupply(cfg: Config, s: State, t: State, f: Failure, d: Component)
    requires Handled(cfg, s, t, f) && d in t.members
    ensures t.members[d].pc == s.members[d].pc
    ensures Supply(t, d) == Supply(s, d) + (if d == f.component && t.coordinator.Granting? then 1 else 0)
  {
  }

  lemma HandledKeepsBlocked(cfg: Config, s: State, t: State, f: Failure)
    requires FailuresCounted(s) && DependentsBlocked(cfg, s) && RetriesLeft(cfg, s)
    requires Handled(cfg, s, t, f) && NoneUp(t) == NoneUp(s) && (Doomed(s) ==> Doomed(t))
    ensures DependentsBlocked(cfg, t) && RetriesLeft(cfg, t)
  {
    assert Unhandled(s, f.component) >= 1;
  }

  lemma HandledKeepsWaits(cfg: Config, s: State, t: State, f: Failure)
    requires MembersOk(cfg, t) && SomeAnchor(s)
    requires Handled(cfg, s, t, f) && NoneUp(t) == NoneUp(s)
    ensures SomeAnchor(t) && AllDownAborts(t)
  {
    assert Unhandled(s, f.component) >= 1;
    if !NoneUp(s) {
      var d :| Anchor(s, d);
      assert Anchor(t, d);
    } else if forall c :: c in t.members ==> t.members[c].phase != PhasePending {
      assert !PeerStarted(t, f.component) && PeersDown(t, f.component);
      assert t.coordinator.AbortAllFailed?;
    }
  }

  /** A failure nobody can drive now is either the last straw (abort) or waits for whoever starts next. */
  lemma HandledKeepsServed(cfg: Config, s: State, t: State, f: Failure)
    requires MembersOk(cfg, s) && MembersOk(cfg, t) && FailuresCounted(s) && SomeAnchor(s) && RetriesLeft(cfg, s) && EveryFailureServed(cfg, s)
    requires Handled(cfg, s, t, f) && NoneUp(t) == NoneUp(s) && (Doomed(s) ==> Doomed(t))
    requires forall d :: d in t.members ==> Unhandled(t, d) == Unhandled(s, d) - (if d == f.component then 1 else 0)
    ensures EveryFailureServed(cfg, t)
  {
    if !Doomed(t) {
      forall d | d in t.members && !t.members[d].pc.Done? ensures Served(cfg, t, d) {
        assert Served(cfg, s, d);
        if d == f.component {
          HandledIsServed(cfg, s, t, f);
        } else {
          HandledLeavesOthersServed(cfg, s, t, f, d);
        }
      }
    }
  }

  lemma HandledLeavesOthersServed(cfg: Config, s: State, t: State, f: Failure, d: Component)
    requires Handled(cfg, s, t, f) && NoneUp(t) == NoneUp(s)
    requires d in s.members && d != f.component && Served(cfg, s, d) && Unhandled(t, d) == Unhandled(s, d)
    ensures Served(cfg, t, d)
  {
    assert Supply(t, d) == Supply(s, d);
    if e :| e in s.members && HasTodo(s.members[e].pc, d) {
      assert e in t.members && HasTodo(t.members[e].pc, d);
    }
    if Undriven(cfg, s, d) {
      assert Undriven(cfg, t, d);
    }
  }

  lemma HandledIsServed(cfg: Config, s: State, t: State, f: Failure)
    requires MembersOk(cfg, s) && MembersOk(cfg, t) && FailuresCounted(s) && SomeAnchor(s) && RetriesLeft(cfg, s)
    requires Handled(cfg, s, t, f) && NoneUp(t) == NoneUp(s) && !Doomed(s) && !Doomed(t)
    requires !t.members[f.component].pc.Done? && Served(cfg, s, f.component)
    requires Unhandled(t, f.component) == Unhandled(s, f.component) - 1
    ensures Served(cfg, t, f.component)
  {
    var c := f.component;
    if !NoneUp(s) {
      var d :| Anchor(s, d);
      assert d != c && t.members[d].phase == PhaseStarted;
      assert PeerStarted(t, c);
    }
    if t.coordinator.Granting? {
      assert Supply(t, c) == Supply(s, c) + 1;
      if e :| e in s.members && HasTodo(s.members[e].pc, c) {
        assert HasTodo(t.members[e].pc, c);
      }
    } else {
      assert Supply(t, c) == Supply(s, c);
      assert MemberOk(cfg, s.members[c], s.aborted, s.cancelled);
      assert Undriven(cfg, t, c);
    }
  }

  /** The all-failed abort is only ever decided when nobody has started and nobody can. */
  lemma HandledKeepsFreeze(cfg: Config, s: State, t: State, f: Failure)
    requires MembersOk(cfg, t) && FailuresCounted(s) && SomeAnchor(t) && DependentsBlocked(cfg, s) && AllFailedFreezes(cfg, s)
    requires Handled(cfg, s, t, f) && NoneUp(t) == NoneUp(s) && t.members.Keys == Names(cfg)
    ensures AllFailedFreezes(cfg, t)
  {
    assert Unhandled(s, f.component) >= 1;
    if t.coordinator.AbortAllFailed? {
      assert forall d :: Anchor(t, d) ==> d != f.component && PeerStarted(t, f.component);
      forall c | c in cfg.dependsOn ensures cfg.dependsOn[c] == [] {
        assert c in t.members;
      }
    }
  }

  lemma OnFailureKeeps(cfg: Config, s: State)
    requires Inv(cfg, s) && Enabled(cfg, s, OnFailure)
    ensures Inv(cfg, Effect(cfg, s, OnFailure))
  {
    OnFailureShape(cfg, s);
    HandledKeeps(cfg, s, Effect(cfg, s, OnFailure), s.coordinator.failure);
  }

  lemma HandledKeeps(cfg: Config, s: State, t: State, f: Failure)
    requires Inv(cfg, s) && Handled(cfg, s, t, f)
    ensures Inv(cfg, t)
  {
    HandledKeepsMembers(cfg, s, t, f);
    HandledKeepsCounts(cfg, s, t, f);
    HandledKeepsRetries(cfg, s, t, f);
    HandledKeepsBlocked(cfg, s, t, f);
    HandledKeepsWaits(cfg, s, t, f);
    HandledKeepsServed(cfg, s, t, f);
    HandledKeepsFreeze(cfg, s, t, f);
  }

  // ---- every run ----

  lemma InitialHolds(cfg: Config)
    requires Accepted(cfg)
    ensures Inv(cfg, Initial(cfg))
  {
    var s := Initial(cfg);
    var c :| c in Names(cfg);
    assert s.members[c].phase == PhasePending;
  }

  /** Every step of the protocol keeps the invariant. */
  lemma StepKeeps(cfg: Config, s: State, a: Action)
    requires cfg.maxAttempts >= 1 && Inv(cfg, s) && Enabled(cfg, s, a)
    ensures Inv(cfg, Effect(cfg, s, a))
  {
    if IsLocal(a) {
      LocalStepKeeps(cfg, s, a);
    } else if IsQuietGlobal(a) {
      GlobalKeeps(cfg, s, a);
    } else {
      match a
      case MarkStarted(c) => MarkStartedKeeps(cfg, s, c);
      case Drive(c, peer) => DriveKeeps(cfg, s, c, peer);
      case PublishFailure(c) => PublishFailureKeeps(cfg, s, c);
      case MarkGaveUp(c) => MarkGaveUpKeeps(cfg, s, c);
      case OnFailure => OnFailureKeeps(cfg, s);
      case PublishRetry => PublishRetryKeeps(cfg, s);
    }
  }

  lemma {:induction false} ExecutionKeeps(cfg: Config, acts: seq<Action>)
    requires Accepted(cfg) && Execute(cfg, acts).Some?
    ensures Inv(cfg, Execute(cfg, acts).value)
  {
    if acts == [] {
      InitialHolds(cfg);
    } else {
      var before := acts[..|acts| - 1];
      ExecutionKeeps(cfg, before);
      StepKeeps(cfg, Execute(cfg, before).value, acts[|acts| - 1]);
    }
  }

  lemma ReachableKeeps(cfg: Config, s: State)
    requires Accepted(cfg) && Reachable(cfg, s)
    ensures Inv(cfg, s)
  {
    var acts :| Execute(cfg, acts) == Some(s);
    ExecutionKeeps(cfg, acts);
  }

  /** Reachable states are closed under steps. */
  lemma Reach(cfg: Config, s: State, a: Action)
    requires Reachable(cfg, s) && Enabled(cfg, s, a)
    ensures Reachable(cfg, Effect(cfg, s, a))
  {
    var acts :| Execute(cfg, acts) == Some(s);
    assert (acts + [a])[..|acts|] == acts;
    assert Execute(cfg, acts + [a]) == Some(Effect(cfg, s, a));
  }
}
