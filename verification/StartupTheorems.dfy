/** What the startup protocol promises over whole runs. */
module StartupTheorems {
  import opened Dependencies
  import opened Startup
  import opened StartupInvariants

  // ---- deadlock freedom ----

  /** Steps nobody inside the protocol can be waiting for: outside cancellation, a started
      component's Run returning, and the final clean-up. */
  predicate WaitsOnOutside(s: State, a: Action) {
    || a.ExternalCancel? || a.CancelWhenFinished?
    || (a.Move? && a.c in s.members && s.members[a.c].pc.Running?)
  }

  /** No step of the protocol itself is possible: no attempt or retry delay is under way,
      nothing is queued that anybody could take, and nobody is in the middle of something. */
  ghost predicate Stuck(cfg: Config, s: State) {
    forall a :: Enabled(cfg, s, a) ==> WaitsOnOutside(s, a)
  }

  predicate HasStarted(pc: Pc) {
    pc.Running? || (pc.Done? && pc.ending.RunFinished?)
  }

  /** Blocked on a dependency that has not come up, or on a retry that has not been sent. */
  predicate IsBlocked(cfg: Config, s: State, c: Component)
    requires c in s.members && c in cfg.dependsOn
  {
    var m := s.members[c];
    || (m.pc.AwaitDeps? && m.pc.next < |cfg.dependsOn[c]| && !IsReleased(s, cfg.dependsOn[c][m.pc.next]))
    || (m.pc.AwaitRetry? && m.retries == [])
  }

  /** The step a goroutine can take when it neither has started, nor ended, nor is blocked. */
  ghost function NextStep(cfg: Config, s: State, c: Component): Action
    requires c in s.members && c in cfg.dependsOn
  {
    match s.members[c].pc
    case AwaitDeps(i) => Move(c, if i < |cfg.dependsOn[c]| then AwaitDeps(i + 1) else Attempting(1))
    case Attempting(k) => Move(c, Ready(k))
    case Ready(_) => MarkStarted(c)
    case Marked(_, _) => Release(c)
    case Released(_, _) => AnnounceStarted(c)
    case Driving(k, todo) => if todo == map[] then Move(c, Running(k)) else var peer :| peer in todo; Drive(c, peer)
    case Exiting(_) => AnnounceExited(c)
    case Failed(k) => Move(c, Publishing(k))
    case Publishing(_) => PublishFailure(c)
    case AwaitRetry(_) => ReceiveRetry(c)
    case Sleeping(k) => Move(c, Attempting(k + 1))
    case GivingUp(_) => MarkGaveUp(c)
    case GaveUpMarked(_) => AnnounceGaveUp(c)
    case GaveUpSent(_) => AbortGaveUp(c)
    case _ => ExternalCancel
  }

  lemma NextStepEnabled(cfg: Config, s: State, c: Component)
    requires !s.cancelled && c in s.members && c in cfg.dependsOn
    requires !HasStarted(s.members[c].pc) && !s.members[c].pc.Done? && !IsBlocked(cfg, s, c)
    ensures Enabled(cfg, s, NextStep(cfg, s, c)) && !WaitsOnOutside(s, NextStep(cfg, s, c))
  {
  }

  /** In a stuck state every goroutine has started or is blocked on a dependency or a retry. */
  lemma StuckPositions(cfg: Config, s: State, c: Component)
    requires Domains(cfg, s) && MembersOk(cfg, s) && Stuck(cfg, s) && !s.cancelled && !s.aborted && c in s.members
    ensures HasStarted(s.members[c].pc) || IsBlocked(cfg, s, c)
  {
    assert MemberOk(cfg, s.members[c], s.aborted, s.cancelled);
    if !HasStarted(s.members[c].pc) && !s.members[c].pc.Done? && !IsBlocked(cfg, s, c) {
      NextStepEnabled(cfg, s, c);
    }
  }

  /** The step the coordinator or the canceller can take when something is left for them. */
  function CoordinatorStep(s: State): Action {
    match s.coordinator
    case Handling(_) => OnFailure
    case Granting(_, _) => PublishRetry
    case AbortAllFailed(_) => Abort
    case AbortOverflow(_) => Abort
    case _ => if s.aborted then CancelAfterAbort else if s.failures != [] then TakeFailure else TakeOverflow
  }

  lemma StuckQueues(cfg: Config, s: State)
    requires Domains(cfg, s) && (s.coordinator.Stopped? ==> s.cancelled) && Stuck(cfg, s) && !s.cancelled
    ensures s.coordinator.Idle? && s.failures == [] && s.overflow.None? && !s.aborted
  {
    if !s.coordinator.Idle? || s.failures != [] || s.overflow.Some? || s.aborted {
      CoordinatorStepEnabled(cfg, s);
    }
    assert !WaitsOnOutside(s, CoordinatorStep(s));
    assert !Enabled(cfg, s, CoordinatorStep(s));
  }

  lemma CoordinatorStepEnabled(cfg: Config, s: State)
    requires Domains(cfg, s) && !s.coordinator.Stopped? && !s.cancelled
    requires !s.coordinator.Idle? || s.failures != [] || s.overflow.Some? || s.aborted
    ensures Enabled(cfg, s, CoordinatorStep(s))
  {
    match s.coordinator
    case Handling(_) => assert Enabled(cfg, s, OnFailure);
    case Granting(_, _) => assert Enabled(cfg, s, PublishRetry);
    case AbortAllFailed(_) => assert Enabled(cfg, s, Abort);
    case AbortOverflow(_) => assert Enabled(cfg, s, Abort);
    case Idle =>
  }

  /** In a stuck state the coordinator idles over empty queues and no abort is on its way. */
  lemma StuckCoordinator(cfg: Config, s: State)
    requires Domains(cfg, s) && MembersOk(cfg, s) && Stuck(cfg, s) && !s.cancelled
    ensures s.coordinator.Idle? && s.failures == [] && s.overflow.None? && !s.aborted && !Doomed(s)
  {
    StuckQueues(cfg, s);
    forall c | c in s.members ensures !GoingDown(s.members[c].pc) {
      StuckPositions(cfg, s, c);
    }
  }

  /** A component waiting for a retry in a stuck state was left undriven: nobody has started,
      and nobody that depends on it is pending. */
  lemma StuckWaiterIsUndriven(cfg: Config, s: State, c: Component)
    requires Domains(cfg, s) && MembersOk(cfg, s) && EveryFailureServed(cfg, s) && Stuck(cfg, s) && !s.cancelled
    requires c in s.members && s.members[c].pc.AwaitRetry?
    ensures Undriven(cfg, s, c)
  {
    StuckCoordinator(cfg, s);
    StuckPositions(cfg, s, c);
    assert MemberOk(cfg, s.members[c], s.aborted, s.cancelled);
    assert Served(cfg, s, c);
    assert Supply(s, c) + Unhandled(s, c) < Tries(s.members[c].pc);
    forall d | d in s.members ensures !HasTodo(s.members[d].pc, c) {
      StuckPositions(cfg, s, d);
    }
  }

  lemma EdgeTarget(cfg: Config, c: Component, i: nat)
    requires Accepted(cfg) && c in cfg.dependsOn && i < |cfg.dependsOn[c]|
    ensures var d := cfg.dependsOn[c][i]; d in Edges(cfg)[c] && d in cfg.dependsOn && d != c
  {
    var g := Edges(cfg);
    var d := cfg.dependsOn[c][i];
    assert c in g && d in g[c] && d in g;
    var loop := [c, c];
    assert !IsCycle(g, loop);
    assert d == c ==> IsPath(g, loop);
  }

  /** A component waiting for a dependency in a stuck state waits for another blocked component. */
  lemma StuckDependencyIsBlocked(cfg: Config, s: State, c: Component)
    requires Accepted(cfg) && Inv(cfg, s) && Stuck(cfg, s) && !s.cancelled
    requires c in s.members && s.members[c].pc.AwaitDeps?
    ensures exists d :: d in Edges(cfg)[c] && d in s.members && s.members[d].pc.AwaitDeps?
  {
    StuckCoordinator(cfg, s);
    StuckPositions(cfg, s, c);
    var d := cfg.dependsOn[c][s.members[c].pc.next];
    EdgeTarget(cfg, c, s.members[c].pc.next);
    StuckPositions(cfg, s, d);
    assert MemberOk(cfg, s.members[d], s.aborted, s.cancelled);
    assert MemberOk(cfg, s.members[c], s.aborted, s.cancelled);
    assert s.members[c].phase == PhasePending && DependsOn(cfg, c, d);
    assert s.members[d].pc.AwaitRetry? ==> Undriven(cfg, s, d) by {
      if s.members[d].pc.AwaitRetry? { StuckWaiterIsUndriven(cfg, s, d); }
    }
  }

  /** So nobody is blocked on a dependency: the blocked ones would form a cycle. */
  lemma StuckMeansNoneAwaitsDeps(cfg: Config, s: State, c: Component)
    requires Accepted(cfg) && Inv(cfg, s) && Stuck(cfg, s) && !s.cancelled && c in s.members
    ensures !s.members[c].pc.AwaitDeps?
  {
    var blocked := set d | d in s.members && s.members[d].pc.AwaitDeps?;
    forall n | n in blocked ensures WaitsInside(Edges(cfg), blocked, n) {
      StuckDependencyIsBlocked(cfg, s, n);
    }
    if c in blocked {
      SelfBlockedSetHasCycle(Edges(cfg), blocked, c);
    }
  }

  /** And nobody is blocked on a retry: then everybody would be, and the last failure to be handled aborts. */
  lemma StuckMeansNoneAwaitsRetry(cfg: Config, s: State, c: Component)
    requires Accepted(cfg) && Inv(cfg, s) && Stuck(cfg, s) && !s.cancelled && c in s.members
    ensures !s.members[c].pc.AwaitRetry?
  {
    StuckCoordinator(cfg, s);
    forall d | d in s.members && NoneUp(s) ensures s.members[d].phase != PhasePending {
      StuckPositions(cfg, s, d);
      StuckMeansNoneAwaitsDeps(cfg, s, d);
      StuckWaiterIsUndriven(cfg, s, d);
    }
    assert s.members[c].pc.AwaitRetry? ==> NoneUp(s) by {
      if s.members[c].pc.AwaitRetry? { StuckWaiterIsUndriven(cfg, s, c); }
    }
  }

  /** Startup never deadlocks: whatever the number of components and whatever accepted dependency
      graph, a reachable state from which the protocol cannot move on its own, and which has not
      been cancelled, is one where every component has started. */
  lemma DeadlockFreedom(cfg: Config, s: State)
    requires Accepted(cfg) && Reachable(cfg, s) && !s.cancelled && Stuck(cfg, s)
    ensures forall c :: c in Names(cfg) ==> c in s.members && HasStarted(s.members[c].pc)
  {
    ReachableKeeps(cfg, s);
    StuckCoordinator(cfg, s);
    forall c | c in Names(cfg) ensures HasStarted(s.members[c].pc) {
      StuckPositions(cfg, s, c);
      StuckMeansNoneAwaitsDeps(cfg, s, c);
      StuckMeansNoneAwaitsRetry(cfg, s, c);
    }
  }

  // ---- the first component to start ----

  /** A component all of whose failures were handled before it started keeps its started phase. */
  lemma AnchorStays(cfg: Config, s: State, a: Action, c: Component)
    requires cfg.maxAttempts >= 1 && Inv(cfg, s) && Enabled(cfg, s, a) && Anchor(s, c)
    ensures Anchor(Effect(cfg, s, a), c)
  {
    if IsLocal(a) {
      LocalStepIsLocal(cfg, s, a);
    } else if IsQuietGlobal(a) {
      GlobalIsFlagsOnly(cfg, s, a);
    } else {
      AnchorStaysBusy(cfg, s, a, c);
    }
  }

  lemma AnchorStaysBusy(cfg: Config, s: State, a: Action, c: Component)
    requires Domains(cfg, s) && Enabled(cfg, s, a) && Anchor(s, c) && !IsLocal(a) && !IsQuietGlobal(a)
    ensures Anchor(Effect(cfg, s, a), c)
  {
    match a
    case MarkStarted(d) => assert StartStep(cfg, s, Effect(cfg, s, a), d);
    case Drive(d, peer) => AnchorStaysDriven(cfg, s, d, peer, c);
    case PublishFailure(d) => PublishFailureShape(cfg, s, d); FailureSentCounts(cfg, s, Effect(cfg, s, a), d, c);
    case MarkGaveUp(d) => assert GaveUpStep(s, Effect(cfg, s, a), d);
    case OnFailure => OnFailureShape(cfg, s);
    case PublishRetry => SendRetryShape(s, s.coordinator.to, s.coordinator.attempt);
  }

  lemma AnchorStaysDriven(cfg: Config, s: State, d: Component, peer: Component, c: Component)
    requires Enabled(cfg, s, Drive(d, peer)) && Anchor(s, c)
    ensures Anchor(Effect(cfg, s, Drive(d, peer)), c)
  {
  }

  lemma {:induction false} AnchorStaysThrough(cfg: Config, before: seq<Action>, more: seq<Action>, c: Component)
    requires Accepted(cfg) && Execute(cfg, before + more).Some?
    requires Execute(cfg, before).Some? && Anchor(Execute(cfg, before).value, c)
    ensures Anchor(Execute(cfg, before + more).value, c)
  {
    if more == [] {
      assert before + more == before;
    } else {
      var most := more[..|more| - 1];
      assert (before + more)[..|before + more| - 1] == before + most;
      AnchorStaysThrough(cfg, before, most, c);
      ExecutionKeeps(cfg, before + most);
      AnchorStays(cfg, Execute(cfg, before + most).value, more[|more| - 1], c);
    }
  }

  /** The first component to start stays in the started phase for the rest of the run, whatever
      late failures and duplicate retries of others follow, so later failures always find a driver. */
  lemma FirstStartedStaysStarted(cfg: Config, before: seq<Action>, c: Component, more: seq<Action>)
    requires Accepted(cfg)
    requires Execute(cfg, before).Some? && NoneUp(Execute(cfg, before).value)
    requires Execute(cfg, before + [MarkStarted(c)] + more).Some?
    requires Execute(cfg, before + [MarkStarted(c)]).Some?
    ensures var s := Execute(cfg, before + [MarkStarted(c)] + more).value;
      c in s.members && s.members[c].phase == PhaseStarted
      && forall d :: d in s.members && d != c ==> PeerStarted(s, d)
  {
    var now := before + [MarkStarted(c)];
    assert now[..|now| - 1] == before;
    var s := Execute(cfg, before).value;
    ExecutionKeeps(cfg, before);
    var t := Effect(cfg, s, MarkStarted(c));
    assert StartStep(cfg, s, t, c);
    assert Supply(s, c) >= Tries(s.members[c].pc);
    assert Anchor(t, c);
    AnchorStaysThrough(cfg, now, more, c);
  }

  /** The "all components failed" abort and a start exclude each other over the whole run:
      if the abort is decided or was sent, no component has started, and none is able to. */
  lemma AllFailedExcludesStart(cfg: Config, s: State)
    requires Accepted(cfg) && Reachable(cfg, s) && AllFailedFires(s)
    ensures NoneUp(s)
    ensures forall c :: c in s.members ==> !s.members[c].pc.Ready? && !s.members[c].pc.Attempting?
  {
    ReachableKeeps(cfg, s);
    forall c | c in s.members ensures !s.members[c].pc.Ready? && !s.members[c].pc.Attempting? {
      assert MemberOk(cfg, s.members[c], s.aborted, s.cancelled);
      var given := Supply(s, c);
      assert s.members[c].pc.Ready? || s.members[c].pc.Attempting? ==> given >= 1;
    }
  }
}
