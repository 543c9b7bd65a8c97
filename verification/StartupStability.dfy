/** When a started component keeps its started phase: with two components, as in the deployed daemon and
    PTY pair; when no component is retried twice; and when the dependencies order all components. */
module StartupStability {
  import opened Basics
  import opened Dependencies
  import opened Startup
  import opened StartupInvariants

  ghost predicate NeverDemotes(cfg: Config) {
    forall s, c :: Reachable(cfg, s) && c in s.members && Up(s.members[c].pc) ==> s.members[c].phase == PhaseStarted
  }

  /** b is reached from a along dependencies: a depends on b, directly or not. */
  ghost predicate Reaches(g: Graph, a: Component, b: Component) {
    exists p :: IsPath(g, p) && |p| > 1 && p[0] == a && p[|p| - 1] == b
  }

  /** Of any two components one depends on the other. */
  ghost predicate AllRelated(cfg: Config) {
    forall a, b :: a in Names(cfg) && b in Names(cfg) && a != b ==> Reaches(Edges(cfg), a, b) || Reaches(Edges(cfg), b, a)
  }

  // ---- one retry for every failure ----

  ghost predicate Pair(cfg: Config) {
    forall a, b, c :: a in Names(cfg) && b in Names(cfg) && c in Names(cfg) ==> a == b || b == c || a == c
  }

  lemma TwoArePair(cfg: Config)
    requires |Names(cfg)| == 2
    ensures Pair(cfg)
  {
    forall a, b, c | a in Names(cfg) && b in Names(cfg) && c in Names(cfg) ensures a == b || b == c || a == c {
      if a != b && b != c && a != c {
        assert {a, b, c} <= Names(cfg);
        SubsetSize({a, b, c}, Names(cfg));
      }
    }
  }

  /** A component's books: each failure of it is answered by at most one retry, so it can only start
      once all its failures are handled. */
  ghost predicate Fair(s: State, c: Component)
    requires c in s.members
  {
    var m := s.members[c];
    && !HasTodo(m.pc, c)
    && (m.phase == PhaseWaitingRetry ==> Unhandled(s, c) + 1 <= Tries(m.pc))
    && (Up(m.pc) ==> m.phase == PhaseStarted && Unhandled(s, c) == 0 && !Promised(s, c))
    && (!Up(m.pc) && !m.pc.Done? ==> Supply(s, c) + Unhandled(s, c) + (if Promised(s, c) then 1 else 0) <= Tries(m.pc))
  }

  ghost predicate AllFair(s: State) {
    forall c :: c in s.members ==> Fair(s, c)
  }

  lemma NeutralKeepsFair(cfg: Config, s: State, t: State, c: Component)
    requires Neutral(cfg, s, t) && c in s.members && c in t.members && Fair(s, c)
    ensures Fair(t, c)
  {
    assert NeutralFor(cfg, s, t, c);
    assert Promised(s, c) <==> Promised(t, c) by {
      forall d | d in s.members ensures HasTodo(s.members[d].pc, c) <==> HasTodo(t.members[d].pc, c) {
        assert NeutralFor(cfg, s, t, d);
      }
    }
  }

  /** The component that starts has nothing left to be handled and no retry on its way. */
  lemma StarterIsFair(cfg: Config, s: State, t: State, c: Component)
    requires StartStep(cfg, s, t, c) && Fair(s, c)
    ensures Fair(t, c)
  {
    assert Supply(s, c) >= Tries(s.members[c].pc);
    forall d | d in t.members ensures !HasTodo(t.members[d].pc, c) {
      assert d != c ==> t.members[d] == s.members[d];
    }
  }

  /** Its peer, if waiting, has been given no retry yet: nobody else could have driven one. */
  lemma PeerIsFair(cfg: Config, s: State, t: State, c: Component, d: Component)
    requires Pair(cfg) && Domains(cfg, s) && NoExtraRetries(cfg, s) && DependentsBlocked(cfg, s)
    requires StartStep(cfg, s, t, c) && d in s.members && d != c && Fair(s, d)
    ensures Fair(t, d)
  {
    assert Promised(t, d) <==> Promised(s, d) || d in PendingPeers(cfg, s, c) by {
      forall e | e in s.members && e != c ensures t.members[e] == s.members[e] {}
      assert HasTodo(t.members[c].pc, d) <==> d in PendingPeers(cfg, s, c);
      assert !HasTodo(s.members[c].pc, d);
    }
    assert Supply(t, d) == Supply(s, d) && Unhandled(t, d) == Unhandled(s, d);
    if !Up(s.members[d].pc) && !s.members[d].pc.Done? {
      forall e | e in s.members ensures !Up(s.members[e].pc) {
        assert e == c || e == d;
      }
      assert NoneUp(s) && !Promised(s, d);
      NoDriverYet(cfg, s, c, d);
    }
  }

  lemma NoDriverYet(cfg: Config, s: State, c: Component, d: Component)
    requires Pair(cfg) && Domains(cfg, s) && NoExtraRetries(cfg, s) && DependentsBlocked(cfg, s) && NoneUp(s)
    requires c in s.members && d in s.members && c != d && s.members[c].pc.Ready? && !s.members[d].pc.Done?
    ensures Supply(s, d) == 0
  {
    assert !Blocked(s.members[c]);
    forall e | e in cfg.dependsOn && e != d ensures !DependsOn(cfg, e, d) {
      assert e == c && cfg.dependsOn[c] == [];
    }
  }

  lemma DriveKeepsFair(cfg: Config, s: State, u: State, t: State, c: Component, peer: Component, d: Component)
    requires Pair(cfg) && Domains(cfg, s) && DriveStep(s, u, t, c, peer) && AllFair(s) && d in s.members && d in t.members
    ensures Fair(t, d)
  {
    assert Fair(s, c) && Fair(s, peer) && Fair(s, d);
    assert HasTodo(s.members[c].pc, peer) && peer != c;
    assert Promised(s, peer);
    if d == peer {
      forall e | e in t.members ensures !HasTodo(t.members[e].pc, d) {
        assert e == c || e == peer;
      }
    } else {
      assert d == c;
      forall e | e in t.members ensures !HasTodo(t.members[e].pc, d) {
        assert !HasTodo(s.members[e].pc, d);
      }
    }
  }

  lemma DriveIsFair(cfg: Config, s: State, c: Component, peer: Component, d: Component)
    requires Pair(cfg) && Domains(cfg, s) && MembersOk(cfg, s) && Enabled(cfg, s, Drive(c, peer)) && AllFair(s)
    requires d in s.members && d in Effect(cfg, s, Drive(c, peer)).members
    ensures Fair(Effect(cfg, s, Drive(c, peer)), d)
  {
    var u := At(s, c, Driving(s.members[c].pc.attempt, s.members[c].pc.todo - {peer}));
    assert MemberOk(cfg, s.members[c], s.aborted, s.cancelled);
    SendRetryShape(u, peer, s.members[c].pc.todo[peer]);
    DriveKeepsFair(cfg, s, u, Effect(cfg, s, Drive(c, peer)), c, peer, d);
  }

  lemma FailureKeepsFair(cfg: Config, s: State, t: State, c: Component, d: Component)
    requires FailureSent(cfg, s, t, c) && MemberOk(cfg, s.members[c], s.aborted, s.cancelled)
    requires d in s.members && d in t.members && Fair(s, d)
    ensures Fair(t, d)
  {
    FailureSentCounts(cfg, s, t, c, d);
    assert Promised(t, d) <==> Promised(s, d) by {
      forall e | e in s.members ensures HasTodo(s.members[e].pc, d) <==> HasTodo(t.members[e].pc, d) {}
    }
  }

  lemma GaveUpKeepsFair(s: State, t: State, c: Component, d: Component)
    requires GaveUpStep(s, t, c) && d in s.members && d in t.members && Fair(s, d)
    ensures Fair(t, d)
  {
    assert Promised(t, d) <==> Promised(s, d) by {
      forall e | e in s.members ensures HasTodo(s.members[e].pc, d) <==> HasTodo(t.members[e].pc, d) {}
    }
  }

  lemma HandledKeepsFair(cfg: Config, s: State, t: State, f: Failure, d: Component)
    requires Handled(cfg, s, t, f) && FailuresCounted(s) && d in s.members && d in t.members && Fair(s, d)
    ensures Fair(t, d)
  {
    assert Promised(t, d) <==> Promised(s, d) by {
      forall e | e in s.members ensures HasTodo(s.members[e].pc, d) <==> HasTodo(t.members[e].pc, d) {}
    }
    assert Unhandled(t, d) == Unhandled(s, d) - (if d == f.component then 1 else 0);
  }

  /** Steps other than a start and a driven retry keep the books whatever the configuration. */
  lemma PlainStepKeepsFair(cfg: Config, s: State, a: Action, d: Component)
    requires cfg.maxAttempts >= 1 && Inv(cfg, s) && Enabled(cfg, s, a) && !a.MarkStarted? && !a.Drive?
    requires d in s.members && d in Effect(cfg, s, a).members && Fair(s, d)
    ensures Fair(Effect(cfg, s, a), d)
  {
    if a.PublishFailure? || a.MarkGaveUp? || a.OnFailure? {
      BookStepKeepsFair(cfg, s, a, d);
    } else {
      OtherStepIsNeutral(cfg, s, a);
      NeutralKeepsFair(cfg, s, Effect(cfg, s, a), d);
    }
  }

  lemma OtherStepIsNeutral(cfg: Config, s: State, a: Action)
    requires cfg.maxAttempts >= 1 && Domains(cfg, s) && MembersOk(cfg, s) && RetriesLeft(cfg, s) && Enabled(cfg, s, a)
    requires !a.MarkStarted? && !a.Drive? && !a.PublishFailure? && !a.MarkGaveUp? && !a.OnFailure?
    ensures Neutral(cfg, s, Effect(cfg, s, a))
  {
    var t := Effect(cfg, s, a);
    if IsLocal(a) {
      LocalStepIsLocal(cfg, s, a);
      LocalNeutralIsNeutral(cfg, s, t, a.c);
    } else if a.PublishRetry? {
      SendRetryShape(s, s.coordinator.to, s.coordinator.attempt);
      PublishRetryIsNeutral(cfg, s, t, s.coordinator.to);
    } else {
      GlobalIsFlagsOnly(cfg, s, a);
      FlagsAreNeutral(cfg, s, t);
    }
  }

  lemma BookStepKeepsFair(cfg: Config, s: State, a: Action, d: Component)
    requires MembersOk(cfg, s) && FailuresCounted(s) && Enabled(cfg, s, a) && (a.PublishFailure? || a.MarkGaveUp? || a.OnFailure?)
    requires d in s.members && d in Effect(cfg, s, a).members && Fair(s, d)
    ensures Fair(Effect(cfg, s, a), d)
  {
    var t := Effect(cfg, s, a);
    match a
    case PublishFailure(c) =>
      PublishFailureShape(cfg, s, c);
      FailureKeepsFair(cfg, s, t, c, d);
    case MarkGaveUp(c) => GaveUpKeepsFair(s, t, c, d);
    case OnFailure =>
      OnFailureShape(cfg, s);
      HandledKeepsFair(cfg, s, t, s.coordinator.failure, d);
  }

  // ---- two components ----

  lemma PairStepKeepsFair(cfg: Config, s: State, a: Action, d: Component)
    requires Pair(cfg) && cfg.maxAttempts >= 1 && Inv(cfg, s) && Enabled(cfg, s, a) && AllFair(s)
    requires d in s.members && d in Effect(cfg, s, a).members
    ensures Fair(Effect(cfg, s, a), d)
  {
    var t := Effect(cfg, s, a);
    assert Fair(s, d);
    if a.MarkStarted? {
      assert StartStep(cfg, s, t, a.c);
      if a.c == d { StarterIsFair(cfg, s, t, d); } else { PeerIsFair(cfg, s, t, a.c, d); }
    } else if a.Drive? {
      DriveIsFair(cfg, s, a.c, a.peer, d);
    } else {
      PlainStepKeepsFair(cfg, s, a, d);
    }
  }

  lemma {:induction false} ExecutionIsFair(cfg: Config, acts: seq<Action>)
    requires Accepted(cfg) && |Names(cfg)| == 2 && Execute(cfg, acts).Some?
    ensures AllFair(Execute(cfg, acts).value)
  {
    if acts != [] {
      var before := acts[..|acts| - 1];
      var s := Execute(cfg, before).value;
      ExecutionIsFair(cfg, before);
      ExecutionKeeps(cfg, before);
      ExecutionKeeps(cfg, acts);
      TwoArePair(cfg);
      forall d | d in Execute(cfg, acts).value.members ensures Fair(Execute(cfg, acts).value, d) {
        PairStepKeepsFair(cfg, s, acts[|acts| - 1], d);
      }
    }
  }

  // ---- components ordered by their dependencies ----

  /** Past waiting for its dependencies. */
  predicate Past(pc: Pc) {
    !pc.AwaitDeps? && !(pc.Done? && pc.ending.Cancelled?)
  }

  /** Every dependency a component got past was released. */
  ghost predicate DepsReleased(cfg: Config, s: State, c: Component)
    requires c in s.members
  {
    c in cfg.dependsOn ==>
      forall i {:trigger cfg.dependsOn[c][i]} :: 0 <= i < |cfg.dependsOn[c]| ==>
        (Past(s.members[c].pc) || (s.members[c].pc.AwaitDeps? && i < s.members[c].pc.next) ==> IsReleased(s, cfg.dependsOn[c][i]))
  }

  lemma ReleasedStays(cfg: Config, s: State, a: Action, d: Component)
    requires Enabled(cfg, s, a) && IsReleased(s, d)
    ensures IsReleased(Effect(cfg, s, a), d)
  {
    if !IsMemberStep(a) {
      CoordinatorReleasesNobody(cfg, s, a, d);
    } else if a.Drive? {
      var u := At(s, a.c, Driving(s.members[a.c].pc.attempt, s.members[a.c].pc.todo - {a.peer}));
      SendRetryReleasesNobody(u, a.peer, s.members[a.c].pc.todo[a.peer], d);
    } else if a.PublishFailure? {
      PublishFailureShape(cfg, s, a.c);
    } else {
      MemberStaysReleased(cfg, s, a, d);
    }
  }

  lemma CoordinatorReleasesNobody(cfg: Config, s: State, a: Action, d: Component)
    requires Enabled(cfg, s, a) && !IsMemberStep(a) && IsReleased(s, d)
    ensures IsReleased(Effect(cfg, s, a), d)
  {
    if a.PublishRetry? {
      SendRetryReleasesNobody(s, s.coordinator.to, s.coordinator.attempt, d);
    }
  }

  lemma SendRetryReleasesNobody(s: State, to: Component, attempt: nat, d: Component)
    ensures IsReleased(SendRetry(s, to, attempt), d) <==> IsReleased(s, d)
  {
  }

  lemma MemberStaysReleased(cfg: Config, s: State, a: Action, d: Component)
    requires Enabled(cfg, s, a) && IsMemberStep(a) && !a.Drive? && !a.PublishFailure? && IsReleased(s, d)
    ensures IsReleased(Effect(cfg, s, a), d)
  {
  }

  /** A goroutine stays past waiting, or off it, or waits on, or gets past one more released dependency. */
  predicate Advances(cfg: Config, s: State, c: Component, p: Pc, q: Pc) {
    || (Past(p) && !q.AwaitDeps?) || (!Past(q) && !q.AwaitDeps?) || q == p
    || (p.AwaitDeps? && c in cfg.dependsOn && if p.next < |cfg.dependsOn[c]|
        then q == AwaitDeps(p.next + 1) && IsReleased(s, cfg.dependsOn[c][p.next])
        else q == Attempting(1))
  }

  /** Only its own goroutine moves a component, and only past dependencies that are released. */
  lemma MovesPastReleased(cfg: Config, s: State, a: Action, c: Component)
    requires Enabled(cfg, s, a) && c in s.members && c in Effect(cfg, s, a).members
    ensures Advances(cfg, s, c, s.members[c].pc, Effect(cfg, s, a).members[c].pc)
  {
    if !IsMemberStep(a) {
      CoordinatorMovesNobody(cfg, s, a, c);
    } else if a.Drive? || a.PublishFailure? {
      SendersStayPast(cfg, s, a, c);
    } else if a.c == c {
      if a.Move? {
        assert CanMove(s, cfg.dependsOn[c], s.members[c].pc, a.to);
      }
    }
  }

  lemma CoordinatorMovesNobody(cfg: Config, s: State, a: Action, c: Component)
    requires Enabled(cfg, s, a) && !IsMemberStep(a) && c in s.members
    ensures c in Effect(cfg, s, a).members && Effect(cfg, s, a).members[c].pc == s.members[c].pc
  {
  }

  lemma SendersStayPast(cfg: Config, s: State, a: Action, c: Component)
    requires Enabled(cfg, s, a) && (a.Drive? || a.PublishFailure?) && c in s.members && c in Effect(cfg, s, a).members
    ensures Advances(cfg, s, c, s.members[c].pc, Effect(cfg, s, a).members[c].pc)
  {
  }

  lemma DepsReleasedKept(cfg: Config, s: State, a: Action, c: Component)
    requires Enabled(cfg, s, a) && c in s.members && c in Effect(cfg, s, a).members && DepsReleased(cfg, s, c)
    ensures DepsReleased(cfg, Effect(cfg, s, a), c)
  {
    var t := Effect(cfg, s, a);
    MovesPastReleased(cfg, s, a, c);
    if c in cfg.dependsOn {
      forall i | 0 <= i < |cfg.dependsOn[c]| && (Past(t.members[c].pc) || (t.members[c].pc.AwaitDeps? && i < t.members[c].pc.next))
        ensures IsReleased(t, cfg.dependsOn[c][i])
      {
        assert IsReleased(s, cfg.dependsOn[c][i]);
        ReleasedStays(cfg, s, a, cfg.dependsOn[c][i]);
      }
    }
  }

  /** All a component depends on, directly or not, was released before it got past waiting. */
  lemma {:induction false} PathReleased(cfg: Config, s: State, p: seq<Component>)
    requires Domains(cfg, s) && MembersOk(cfg, s) && forall c :: c in s.members ==> DepsReleased(cfg, s, c)
    requires IsPath(Edges(cfg), p) && |p| > 1 && p[0] in s.members && Past(s.members[p[0]].pc)
    ensures IsReleased(s, p[|p| - 1])
    decreases |p|
  {
    var next := p[0 + 1];
    assert next in Edges(cfg)[p[0]] && next in cfg.dependsOn[p[0]];
    assert DepsReleased(cfg, s, p[0]) && IsReleased(s, next);
    if |p| > 2 {
      assert MemberOk(cfg, s.members[next], s.aborted, s.cancelled);
      assert IsPath(Edges(cfg), p[1..]);
      PathReleased(cfg, s, p[1..]);
    }
  }

  lemma {:induction false} ExecutionReleases(cfg: Config, acts: seq<Action>)
    requires Accepted(cfg) && Execute(cfg, acts).Some?
    ensures forall c :: c in Execute(cfg, acts).value.members ==> DepsReleased(cfg, Execute(cfg, acts).value, c)
  {
    if acts != [] {
      var before, s := acts[..|acts| - 1], Execute(cfg, acts).value;
      ExecutionReleases(cfg, before);
      ExecutionKeeps(cfg, before);
      ExecutionKeeps(cfg, acts);
      forall c | c in s.members ensures DepsReleased(cfg, s, c) {
        DepsReleasedKept(cfg, Execute(cfg, before).value, acts[|acts| - 1], c);
      }
    }
  }

  /** Nothing is attempted before what it needs is up: whenever a component runs, was running or has failed, every
      component it depends on, directly or not, has called ready. */
  lemma DependenciesFirst(cfg: Config, acts: seq<Action>, c: Component, d: Component)
    requires Accepted(cfg) && Execute(cfg, acts).Some? && Reaches(Edges(cfg), c, d)
    requires c in Execute(cfg, acts).value.members && Past(Execute(cfg, acts).value.members[c].pc)
    ensures var s := Execute(cfg, acts).value; d in s.members && s.members[d].released && Up(s.members[d].pc)
  {
    var s := Execute(cfg, acts).value;
    ExecutionKeeps(cfg, acts);
    ExecutionReleases(cfg, acts);
    var p :| IsPath(Edges(cfg), p) && |p| > 1 && p[0] == c && p[|p| - 1] == d;
    PathReleased(cfg, s, p);
    assert MemberOk(cfg, s.members[d], s.aborted, s.cancelled);
  }

  /** In an ordered configuration a started component has no live peer to drive. */
  ghost predicate Ordered(cfg: Config, s: State, c: Component)
    requires c in s.members
  {
    DepsReleased(cfg, s, c) && (Promised(s, c) ==> s.members[c].pc.Done? && !Up(s.members[c].pc))
  }

  ghost predicate AllOrdered(cfg: Config, s: State) {
    forall c :: c in s.members ==> Fair(s, c) && Ordered(cfg, s, c)
  }

  /** Whoever is waiting for a retry when c starts has ended: those c needs are up, those that need c have not begun. */
  lemma NoLivePeer(cfg: Config, s: State, c: Component, d: Component)
    requires AllRelated(cfg) && Domains(cfg, s) && MembersOk(cfg, s) && forall e :: e in s.members ==> DepsReleased(cfg, s, e)
    requires c in s.members && s.members[c].pc.Ready? && d in s.members && d != c && !Up(s.members[d].pc) && !s.members[d].pc.Done?
    ensures s.members[d].phase == PhasePending
  {
    assert MemberOk(cfg, s.members[d], s.aborted, s.cancelled) && MemberOk(cfg, s.members[c], s.aborted, s.cancelled);
    if Reaches(Edges(cfg), c, d) {
      var p :| IsPath(Edges(cfg), p) && |p| > 1 && p[0] == c && p[|p| - 1] == d;
      PathReleased(cfg, s, p);
    } else if Past(s.members[d].pc) {
      var p :| IsPath(Edges(cfg), p) && |p| > 1 && p[0] == d && p[|p| - 1] == c;
      PathReleased(cfg, s, p);
    }
  }

  lemma PromisedAfterStart(cfg: Config, s: State, t: State, c: Component, d: Component)
    requires StartStep(cfg, s, t, c)
    ensures Promised(t, d) ==> Promised(s, d) || d in PendingPeers(cfg, s, c)
    ensures Promised(s, d) ==> Promised(t, d) || HasTodo(s.members[c].pc, d)
  {
    if Promised(s, d) {
      var e :| e in s.members && HasTodo(s.members[e].pc, d);
      assert e in t.members && (e != c ==> HasTodo(t.members[e].pc, d));
    }
    if Promised(t, d) {
      var e :| e in t.members && HasTodo(t.members[e].pc, d);
      assert e != c ==> HasTodo(s.members[e].pc, d);
    }
  }

  lemma OrderedAfterStart(cfg: Config, s: State, c: Component, d: Component)
    requires AllRelated(cfg) && Inv(cfg, s) && AllOrdered(cfg, s) && Enabled(cfg, s, MarkStarted(c)) && d in s.members
    ensures var t := Effect(cfg, s, MarkStarted(c)); d in t.members && Fair(t, d) && (Promised(t, d) ==> t.members[d].pc.Done? && !Up(t.members[d].pc))
  {
    var t := Effect(cfg, s, MarkStarted(c));
    assert StartStep(cfg, s, t, c);
    assert Fair(s, d) && Ordered(cfg, s, d);
    PromisedAfterStart(cfg, s, t, c, d);
    if d == c {
      StarterIsFair(cfg, s, t, c);
    } else {
      if !Up(s.members[d].pc) && !s.members[d].pc.Done? {
        NoLivePeer(cfg, s, c, d);
      }
      BystanderIsFair(cfg, s, t, c, d);
    }
  }

  lemma BystanderIsFair(cfg: Config, s: State, t: State, c: Component, d: Component)
    requires StartStep(cfg, s, t, c) && d in s.members && d != c && Fair(s, d)
    requires Promised(t, d) ==> Promised(s, d) || d in PendingPeers(cfg, s, c)
    requires !Up(s.members[d].pc) && !s.members[d].pc.Done? ==> s.members[d].phase == PhasePending
    ensures Fair(t, d)
  {
    assert Supply(t, d) == Supply(s, d) && Unhandled(t, d) == Unhandled(s, d);
  }

  lemma OrderedAfterDrive(cfg: Config, s: State, c: Component, peer: Component, d: Component)
    requires Domains(cfg, s) && MembersOk(cfg, s) && AllOrdered(cfg, s) && Enabled(cfg, s, Drive(c, peer)) && d in s.members
    ensures var t := Effect(cfg, s, Drive(c, peer));
      d in t.members && Fair(t, d) && (Promised(t, d) ==> t.members[d].pc.Done? && !Up(t.members[d].pc))
  {
    var u := At(s, c, Driving(s.members[c].pc.attempt, s.members[c].pc.todo - {peer}));
    var t := Effect(cfg, s, Drive(c, peer));
    assert MemberOk(cfg, s.members[c], s.aborted, s.cancelled);
    SendRetryShape(u, peer, s.members[c].pc.todo[peer]);
    assert Fair(s, c) && Fair(s, d) && Ordered(cfg, s, d) && Ordered(cfg, s, peer);
    assert HasTodo(s.members[c].pc, peer) && Promised(s, peer);
    DrivenStaysFair(cfg, s, u, t, c, peer, d);
  }

  lemma DrivenStaysFair(cfg: Config, s: State, u: State, t: State, c: Component, peer: Component, d: Component)
    requires DriveStep(s, u, t, c, peer) && peer in s.members && peer != c && d in s.members && d in t.members && Fair(s, d)
    requires s.members[peer].pc.Done? && !Up(s.members[peer].pc)
    requires Promised(s, d) ==> s.members[d].pc.Done? && !Up(s.members[d].pc)
    ensures Fair(t, d) && (Promised(t, d) ==> t.members[d].pc.Done? && !Up(t.members[d].pc))
  {
    assert Promised(t, d) ==> Promised(s, d) by {
      forall e | e in t.members ensures HasTodo(t.members[e].pc, d) ==> HasTodo(s.members[e].pc, d) {}
    }
  }

  lemma PlainStepKeepsPromises(cfg: Config, s: State, a: Action, d: Component)
    requires cfg.maxAttempts >= 1 && Domains(cfg, s) && MembersOk(cfg, s) && RetriesLeft(cfg, s) && Enabled(cfg, s, a)
    requires !a.MarkStarted? && !a.Drive? && d in s.members
    ensures var t := Effect(cfg, s, a); d in t.members && (Promised(t, d) ==> Promised(s, d))
    ensures s.members[d].pc.Done? && !Up(s.members[d].pc) ==>
      Effect(cfg, s, a).members[d].pc.Done? && !Up(Effect(cfg, s, a).members[d].pc)
  {
    var t := Effect(cfg, s, a);
    if a.PublishFailure? || a.MarkGaveUp? || a.OnFailure? {
      BookStepKeepsTodo(cfg, s, a, d);
    } else {
      OtherStepIsNeutral(cfg, s, a);
      NeutralKeepsTodo(cfg, s, t, d);
    }
  }

  lemma NeutralKeepsTodo(cfg: Config, s: State, t: State, d: Component)
    requires Neutral(cfg, s, t) && d in s.members
    ensures Promised(t, d) ==> Promised(s, d)
    ensures d in t.members && (s.members[d].pc.Done? && !Up(s.members[d].pc) ==> t.members[d].pc.Done? && !Up(t.members[d].pc))
  {
    assert NeutralFor(cfg, s, t, d);
    forall e | e in t.members ensures HasTodo(t.members[e].pc, d) ==> HasTodo(s.members[e].pc, d) {
      assert NeutralFor(cfg, s, t, e);
    }
  }

  lemma BookStepKeepsTodo(cfg: Config, s: State, a: Action, d: Component)
    requires Enabled(cfg, s, a) && (a.PublishFailure? || a.MarkGaveUp? || a.OnFailure?) && d in s.members
    ensures var t := Effect(cfg, s, a); d in t.members && (Promised(t, d) ==> Promised(s, d))
    ensures s.members[d].pc.Done? ==> Effect(cfg, s, a).members[d].pc == s.members[d].pc
  {
    var t := Effect(cfg, s, a);
    match a
    case PublishFailure(c) => PublishFailureShape(cfg, s, c);
    case MarkGaveUp(c) =>
    case OnFailure => OnFailureShape(cfg, s);
  }

  lemma OrderedStepKeeps(cfg: Config, s: State, a: Action, d: Component)
    requires AllRelated(cfg) && cfg.maxAttempts >= 1 && Inv(cfg, s) && AllOrdered(cfg, s) && Enabled(cfg, s, a)
    requires d in s.members && d in Effect(cfg, s, a).members
    ensures Fair(Effect(cfg, s, a), d) && Ordered(cfg, Effect(cfg, s, a), d)
  {
    assert Fair(s, d) && Ordered(cfg, s, d);
    DepsReleasedKept(cfg, s, a, d);
    if a.MarkStarted? {
      OrderedAfterStart(cfg, s, a.c, d);
    } else if a.Drive? {
      OrderedAfterDrive(cfg, s, a.c, a.peer, d);
    } else {
      PlainStepKeepsFair(cfg, s, a, d);
      PlainStepKeepsPromises(cfg, s, a, d);
    }
  }

  lemma {:induction false} OrderedExecution(cfg: Config, acts: seq<Action>)
    requires Accepted(cfg) && AllRelated(cfg) && Execute(cfg, acts).Some?
    ensures AllOrdered(cfg, Execute(cfg, acts).value)
  {
    if acts != [] {
      var before := acts[..|acts| - 1];
      var s := Execute(cfg, before).value;
      OrderedExecution(cfg, before);
      ExecutionKeeps(cfg, before);
      ExecutionKeeps(cfg, acts);
      forall d | d in Execute(cfg, acts).value.members
        ensures Fair(Execute(cfg, acts).value, d) && Ordered(cfg, Execute(cfg, acts).value, d)
      {
        OrderedStepKeeps(cfg, s, acts[|acts| - 1], d);
      }
    }
  }

  /** With two components, or components ordered by their dependencies, the retries given to a live component
      that has not started never outnumber its handled failures. */
  lemma OneRetryPerFailure(cfg: Config, s: State, c: Component)
    requires Accepted(cfg) && (|Names(cfg)| == 2 || AllRelated(cfg)) && Reachable(cfg, s)
    requires c in s.members && !s.members[c].pc.Done? && !Up(s.members[c].pc)
    ensures Supply(s, c) <= Tries(s.members[c].pc) - Unhandled(s, c)
  {
    var acts :| Execute(cfg, acts) == Some(s);
    if |Names(cfg)| == 2 {
      ExecutionIsFair(cfg, acts);
    } else {
      OrderedExecution(cfg, acts);
    }
    assert Fair(s, c);
  }

  // ---- at most two attempts ----

  /** With at most one retry to use, a component gets it only after its only failure was handled. */
  ghost predicate Once(s: State, c: Component)
    requires c in s.members
  {
    var m := s.members[c];
    && (m.phase == PhaseWaitingRetry ==> Unhandled(s, c) + 1 <= Tries(m.pc))
    && (m.phase == PhasePending ==> !Up(m.pc) && !Promised(s, c) && (!m.pc.Done? ==> Supply(s, c) == 0))
    && (Up(m.pc) ==> m.phase == PhaseStarted && Unhandled(s, c) == 0)
  }

  ghost predicate AllOnce(s: State) {
    forall c :: c in s.members ==> Once(s, c)
  }

  lemma NeutralKeepsOnce(cfg: Config, s: State, t: State, c: Component)
    requires Neutral(cfg, s, t) && c in s.members && c in t.members && Once(s, c)
    ensures Once(t, c)
  {
    NeutralKeepsTodo(cfg, s, t, c);
    assert NeutralFor(cfg, s, t, c);
  }

  lemma BookStepKeepsOnce(cfg: Config, s: State, a: Action, d: Component)
    requires MembersOk(cfg, s) && FailuresCounted(s) && Enabled(cfg, s, a) && (a.PublishFailure? || a.MarkGaveUp? || a.OnFailure?)
    requires d in s.members && d in Effect(cfg, s, a).members && Once(s, d)
    ensures Once(Effect(cfg, s, a), d)
  {
    var t := Effect(cfg, s, a);
    BookStepKeepsTodo(cfg, s, a, d);
    match a
    case PublishFailure(c) =>
      PublishFailureShape(cfg, s, c);
      FailureKeepsOnce(cfg, s, t, c, d);
    case MarkGaveUp(c) => GaveUpKeepsOnce(s, t, c, d);
    case OnFailure =>
      OnFailureShape(cfg, s);
      HandledKeepsOnce(cfg, s, t, s.coordinator.failure, d);
  }

  lemma FailureKeepsOnce(cfg: Config, s: State, t: State, c: Component, d: Component)
    requires FailureSent(cfg, s, t, c) && MemberOk(cfg, s.members[c], s.aborted, s.cancelled)
    requires d in s.members && d in t.members && Once(s, d) && (Promised(t, d) ==> Promised(s, d))
    ensures Once(t, d)
  {
    FailureSentCounts(cfg, s, t, c, d);
  }

  lemma GaveUpKeepsOnce(s: State, t: State, c: Component, d: Component)
    requires GaveUpStep(s, t, c) && d in s.members && d in t.members && Once(s, d) && (Promised(t, d) ==> Promised(s, d))
    ensures Once(t, d)
  {
  }

  lemma HandledKeepsOnce(cfg: Config, s: State, t: State, f: Failure, d: Component)
    requires Handled(cfg, s, t, f) && FailuresCounted(s) && d in s.members && d in t.members && Once(s, d)
    requires Promised(t, d) ==> Promised(s, d)
    ensures Once(t, d)
  {
    assert Unhandled(t, d) == Unhandled(s, d) - (if d == f.component then 1 else 0);
  }

  lemma StartKeepsOnce(cfg: Config, s: State, t: State, c: Component, d: Component)
    requires 1 <= cfg.maxAttempts <= 2 && FailuresCounted(s) && StartStep(cfg, s, t, c) && d in s.members && Once(s, d)
    requires MemberOk(cfg, s.members[c], s.aborted, s.cancelled)
    ensures Once(t, d)
  {
    PromisedAfterStart(cfg, s, t, c, d);
    assert Unhandled(t, d) == Unhandled(s, d);
    if d == c {
      assert Unhandled(s, c) <= Tries(s.members[c].pc) <= 1;
      assert Supply(s, c) >= Tries(s.members[c].pc);
    } else {
      assert Supply(t, d) == Supply(s, d);
    }
  }

  lemma DriveKeepsOnce(cfg: Config, s: State, c: Component, peer: Component, d: Component)
    requires Domains(cfg, s) && MembersOk(cfg, s) && AllOnce(s) && Enabled(cfg, s, Drive(c, peer)) && d in s.members
    ensures d in Effect(cfg, s, Drive(c, peer)).members && Once(Effect(cfg, s, Drive(c, peer)), d)
  {
    var u := At(s, c, Driving(s.members[c].pc.attempt, s.members[c].pc.todo - {peer}));
    assert MemberOk(cfg, s.members[c], s.aborted, s.cancelled);
    SendRetryShape(u, peer, s.members[c].pc.todo[peer]);
    assert Once(s, d) && Once(s, peer);
    assert HasTodo(s.members[c].pc, peer) && Promised(s, peer);
    DrivenStaysOnce(cfg, s, u, Effect(cfg, s, Drive(c, peer)), c, peer, d);
  }

  lemma DrivenStaysOnce(cfg: Config, s: State, u: State, t: State, c: Component, peer: Component, d: Component)
    requires DriveStep(s, u, t, c, peer) && peer in s.members && d in s.members && d in t.members && Once(s, d)
    requires s.members[peer].phase != PhasePending
    ensures Once(t, d)
  {
    assert Promised(t, d) ==> Promised(s, d) by {
      forall e | e in t.members ensures HasTodo(t.members[e].pc, d) ==> HasTodo(s.members[e].pc, d) {}
    }
  }

  lemma StepKeepsOnce(cfg: Config, s: State, a: Action, d: Component)
    requires 1 <= cfg.maxAttempts <= 2 && Inv(cfg, s) && AllOnce(s) && Enabled(cfg, s, a)
    requires d in s.members && d in Effect(cfg, s, a).members
    ensures Once(Effect(cfg, s, a), d)
  {
    var t := Effect(cfg, s, a);
    assert Once(s, d);
    if a.MarkStarted? {
      assert StartStep(cfg, s, t, a.c) && MemberOk(cfg, s.members[a.c], s.aborted, s.cancelled);
      StartKeepsOnce(cfg, s, t, a.c, d);
    } else if a.Drive? {
      DriveKeepsOnce(cfg, s, a.c, a.peer, d);
    } else if a.PublishFailure? || a.MarkGaveUp? || a.OnFailure? {
      BookStepKeepsOnce(cfg, s, a, d);
    } else {
      OtherStepIsNeutral(cfg, s, a);
      NeutralKeepsOnce(cfg, s, t, d);
    }
  }

  lemma {:induction false} OnceExecution(cfg: Config, acts: seq<Action>)
    requires Accepted(cfg) && cfg.maxAttempts <= 2 && Execute(cfg, acts).Some?
    ensures AllOnce(Execute(cfg, acts).value)
  {
    if acts != [] {
      var before := acts[..|acts| - 1];
      var s := Execute(cfg, before).value;
      OnceExecution(cfg, before);
      ExecutionKeeps(cfg, before);
      ExecutionKeeps(cfg, acts);
      forall d | d in Execute(cfg, acts).value.members ensures Once(Execute(cfg, acts).value, d) {
        StepKeepsOnce(cfg, s, acts[|acts| - 1], d);
      }
    }
  }

  /** Two components, at most two attempts, or components ordered by their dependencies: no demotion. */
  lemma SafeNeverDemotes(cfg: Config)
    requires Accepted(cfg) && (|Names(cfg)| == 2 || cfg.maxAttempts <= 2 || AllRelated(cfg))
    ensures NeverDemotes(cfg)
  {
    forall s, c | Reachable(cfg, s) && c in s.members && Up(s.members[c].pc) ensures s.members[c].phase == PhaseStarted {
      var acts :| Execute(cfg, acts) == Some(s);
      if |Names(cfg)| == 2 {
        ExecutionIsFair(cfg, acts);
        assert Fair(s, c);
      } else if cfg.maxAttempts <= 2 {
        OnceExecution(cfg, acts);
        assert Once(s, c);
      } else {
        OrderedExecution(cfg, acts);
        assert Fair(s, c);
      }
    }
  }
}
