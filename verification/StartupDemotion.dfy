/** How a started component is set back to waiting, in every configuration where it can happen: two
    unrelated components, a third one, and three attempts. With StartupStability this gives the exact
    condition. */
module StartupDemotion {
  import opened Basics
  import opened Dependencies
  import opened Startup
  import opened StartupInvariants
  import opened StartupStability

  // ---- taking steps ----

  /** Nothing is queued and nothing went wrong. */
  predicate Calm(s: State) {
    s.coordinator.Idle? && s.failures == [] && s.overflow.None? && !s.aborted && !s.cancelled && !s.eventsClosed
  }

  const Fresh := Member(AwaitDeps(0), PhasePending, 0, [], false)

  predicate AllReleased(cfg: Config, s: State, x: Component)
    requires x in cfg.dependsOn
  {
    forall d :: d in cfg.dependsOn[x] ==> IsReleased(s, d)
  }

  lemma {:induction false} WaitedFor(cfg: Config, s: State, x: Component, i: nat)
    requires Reachable(cfg, s) && x in cfg.dependsOn && x in s.members && s.members[x] == Fresh && AllReleased(cfg, s, x)
    requires i <= |cfg.dependsOn[x]|
    ensures Reachable(cfg, At(s, x, AwaitDeps(i)))
  {
    if i == 0 {
      assert s.members[x := s.members[x]] == s.members;
    } else {
      WaitedFor(cfg, s, x, i - 1);
      var t := At(s, x, AwaitDeps(i - 1));
      var d := cfg.dependsOn[x][i - 1];
      assert d in cfg.dependsOn[x] && IsReleased(s, d) && IsReleased(t, d);
      Reach(cfg, t, Move(x, AwaitDeps(i)));
      assert At(t, x, AwaitDeps(i)) == At(s, x, AwaitDeps(i));
    }
  }

  lemma FirstAttempt(cfg: Config, s: State, x: Component)
    requires Reachable(cfg, s) && x in cfg.dependsOn && x in s.members && s.members[x] == Fresh && AllReleased(cfg, s, x)
    ensures Reachable(cfg, At(s, x, Attempting(1)))
  {
    var n := |cfg.dependsOn[x]|;
    WaitedFor(cfg, s, x, n);
    Reach(cfg, At(s, x, AwaitDeps(n)), Move(x, Attempting(1)));
    assert At(At(s, x, AwaitDeps(n)), x, Attempting(1)) == At(s, x, Attempting(1));
  }

  lemma ReachMove(cfg: Config, s: State, x: Component, to: Pc)
    requires Reachable(cfg, s) && x in cfg.dependsOn && x in s.members && CanMove(s, cfg.dependsOn[x], s.members[x].pc, to)
    ensures Reachable(cfg, At(s, x, to))
  {
    Reach(cfg, s, Move(x, to));
  }

  /** An attempt that fails, up to its failure being queued. */
  lemma AttemptFails(cfg: Config, s: State, x: Component, k: nat)
    requires x in cfg.dependsOn && x in s.members && Reachable(cfg, s) && s.members[x].pc == Attempting(k) && !s.cancelled
    requires k < cfg.maxAttempts && |s.failures| < FAIL_BUFFER_SIZE
    ensures Reachable(cfg, At(s, x, AwaitRetry(k)).(failures := s.failures + [Failure(x, k)]))
  {
    ReachMove(cfg, s, x, Failed(k));
    var s2 := At(s, x, Failed(k));
    ReachMove(cfg, s2, x, Publishing(k));
    var s3 := At(s2, x, Publishing(k));
    Reach(cfg, s3, PublishFailure(x));
    PublishEffect(cfg, s, x, k);
  }

  lemma PublishEffect(cfg: Config, s: State, x: Component, k: nat)
    requires x in s.members && k < cfg.maxAttempts && |s.failures| < FAIL_BUFFER_SIZE
    ensures var s3 := At(At(s, x, Failed(k)), x, Publishing(k));
      && Enabled(cfg, s3, PublishFailure(x))
      && Effect(cfg, s3, PublishFailure(x)) == At(s, x, AwaitRetry(k)).(failures := s.failures + [Failure(x, k)])
  {
    var m := s.members[x];
    assert s.members[x := m.(pc := Failed(k))][x := m.(pc := Publishing(k))][x := m.(pc := AwaitRetry(k))]
        == s.members[x := m.(pc := AwaitRetry(k))];
  }

  // ---- a component starts ----

  function Upped(todo: map<Component, nat>): Member {
    Member(Driving(1, todo), PhaseStarted, 0, [], true)
  }

  /** s with x started at its first attempt, about to drive its waiting peers. */
  function StartedIn(cfg: Config, s: State, x: Component): State
    requires x in s.members
  {
    With(s, x, Upped(PendingPeers(cfg, s, x))).(events := s.events + [Started(x, 1)])
  }

  lemma StartOne(cfg: Config, s: State, x: Component)
    requires Reachable(cfg, s) && x in cfg.dependsOn && x in s.members && s.members[x] == Fresh && AllReleased(cfg, s, x)
    ensures Reachable(cfg, StartedIn(cfg, s, x))
  {
    FirstAttempt(cfg, s, x);
    ReachMove(cfg, At(s, x, Attempting(1)), x, Ready(1));
    var ready := With(s, x, Fresh.(pc := Ready(1)));
    assert At(At(s, x, Attempting(1)), x, Ready(1)) == ready;
    MarkEffect(cfg, s, x);
    Reach(cfg, ready, MarkStarted(x));
    ReleaseAndAnnounce(cfg, s, x, PendingPeers(cfg, s, x));
  }

  lemma MarkEffect(cfg: Config, s: State, x: Component)
    requires x in s.members && s.members[x] == Fresh
    ensures var ready := With(s, x, Fresh.(pc := Ready(1)));
      && Enabled(cfg, ready, MarkStarted(x))
      && Effect(cfg, ready, MarkStarted(x)) == With(s, x, Fresh.(pc := Marked(1, PendingPeers(cfg, s, x)), phase := PhaseStarted))
  {
    var ready := With(s, x, Fresh.(pc := Ready(1)));
    assert PendingPeers(cfg, ready, x) == PendingPeers(cfg, s, x);
    var marked := Fresh.(pc := Marked(1, PendingPeers(cfg, s, x)), phase := PhaseStarted);
    assert s.members[x := Fresh.(pc := Ready(1))][x := marked] == s.members[x := marked];
  }

  lemma ReleaseAndAnnounce(cfg: Config, s: State, x: Component, todo: map<Component, nat>)
    requires x in s.members && Reachable(cfg, With(s, x, Fresh.(pc := Marked(1, todo), phase := PhaseStarted)))
    ensures Reachable(cfg, With(s, x, Upped(todo)).(events := s.events + [Started(x, 1)]))
  {
    var marked := With(s, x, Fresh.(pc := Marked(1, todo), phase := PhaseStarted));
    ReleaseEffect(cfg, s, x, todo);
    Reach(cfg, marked, Release(x));
    AnnounceEffect(cfg, s, x, todo);
    Reach(cfg, With(s, x, Upped(todo).(pc := Released(1, todo))), AnnounceStarted(x));
  }

  lemma ReleaseEffect(cfg: Config, s: State, x: Component, todo: map<Component, nat>)
    requires x in s.members
    ensures var marked := With(s, x, Fresh.(pc := Marked(1, todo), phase := PhaseStarted));
      Enabled(cfg, marked, Release(x)) && Effect(cfg, marked, Release(x)) == With(s, x, Upped(todo).(pc := Released(1, todo)))
  {
    var a, b := Fresh.(pc := Marked(1, todo), phase := PhaseStarted), Upped(todo).(pc := Released(1, todo));
    assert s.members[x := a][x := b] == s.members[x := b];
  }

  lemma AnnounceEffect(cfg: Config, s: State, x: Component, todo: map<Component, nat>)
    requires x in s.members
    ensures var released := With(s, x, Upped(todo).(pc := Released(1, todo)));
      && Enabled(cfg, released, AnnounceStarted(x))
      && Effect(cfg, released, AnnounceStarted(x)) == With(s, x, Upped(todo)).(events := s.events + [Started(x, 1)])
  {
    var a, b := Upped(todo).(pc := Released(1, todo)), Upped(todo);
    assert s.members[x := a][x := b] == s.members[x := b];
  }

  // ---- a set of components starts ----

  /** Exactly the components of `up` have started, each at its first attempt; the rest have not begun. */
  ghost predicate Stage(cfg: Config, s: State, up: set<Component>) {
    && Reachable(cfg, s) && Calm(s) && s.members.Keys == Names(cfg)
    && forall x :: x in s.members ==> s.members[x] == if x in up then Upped(map[]) else Fresh
  }

  ghost predicate ClosedUnder(cfg: Config, goal: set<Component>) {
    goal <= Names(cfg) && forall x, d :: x in goal && d in cfg.dependsOn[x] ==> d in goal
  }

  /** Among components that have not started there is one that waits for none of them. */
  lemma SomeoneFree(cfg: Config, rest: set<Component>)
    requires Accepted(cfg) && rest != {} && rest <= Names(cfg)
    ensures exists x :: x in rest && forall d :: d in cfg.dependsOn[x] ==> d !in rest
  {
    var x :| x in rest;
    if forall n :: n in rest ==> WaitsInside(Edges(cfg), rest, n) {
      SelfBlockedSetHasCycle(Edges(cfg), rest, x);
    }
    var n :| n in rest && !WaitsInside(Edges(cfg), rest, n);
    forall d | d in cfg.dependsOn[n] ensures d !in rest {
      assert d in Edges(cfg)[n];
    }
  }

  lemma {:induction false} StartSet(cfg: Config, s: State, up: set<Component>, goal: set<Component>) returns (t: State)
    requires Accepted(cfg) && Stage(cfg, s, up) && up <= goal && ClosedUnder(cfg, goal)
    ensures Stage(cfg, t, goal)
    decreases goal - up
  {
    if up == goal {
      return s;
    }
    assert up + (goal - up) == goal;
    assert goal - up != {};
    SomeoneFree(cfg, goal - up);
    var x :| x in goal - up && forall d :: d in cfg.dependsOn[x] ==> d !in goal - up;
    forall d | d in cfg.dependsOn[x] ensures IsReleased(s, d) {
      assert d in up;
    }
    StartOne(cfg, s, x);
    StageGrows(cfg, s, up, x);
    assert goal - (up + {x}) < goal - up;
    t := StartSet(cfg, StartedIn(cfg, s, x), up + {x}, goal);
  }

  lemma StageGrows(cfg: Config, s: State, up: set<Component>, x: Component)
    requires Stage(cfg, s, up) && x in s.members && x !in up && Reachable(cfg, StartedIn(cfg, s, x))
    ensures Stage(cfg, StartedIn(cfg, s, x), up + {x})
  {
    assert PendingPeers(cfg, s, x) == map[];
  }

  lemma InitialStage(cfg: Config)
    ensures Stage(cfg, Initial(cfg), {})
  {
    assert Execute(cfg, []) == Some(Initial(cfg));
  }

  // ---- the demotion, from a stage ----

  /** Someone will drive a retry of c as soon as its failure is handled. */
  predicate Driveable(cfg: Config, s: State, c: Component) {
    PeerStarted(s, c) || HasPendingDependent(cfg, s, c)
  }

  const Waiting1 := Member(AwaitRetry(1), PhaseWaitingRetry, 1, [], false)

  /** c fails, its failure is handled and it is granted a retry. */
  lemma FirstRetry(cfg: Config, s: State, c: Component)
    requires Reachable(cfg, s) && Calm(s) && c in cfg.dependsOn && c in s.members && s.members[c] == Fresh
    requires AllReleased(cfg, s, c) && Driveable(cfg, s, c) && cfg.maxAttempts >= 3
    ensures Reachable(cfg, With(s, c, Waiting1.(retries := [2])))
  {
    FirstAttempt(cfg, s, c);
    var s0 := At(s, c, Attempting(1));
    AttemptFails(cfg, s0, c, 1);
    var s1 := With(s, c, Fresh.(pc := AwaitRetry(1))).(failures := [Failure(c, 1)]);
    assert At(s0, c, AwaitRetry(1)).(failures := [] + [Failure(c, 1)]) == s1;
    Reach(cfg, s1, TakeFailure);
    var s2 := With(s, c, Fresh.(pc := AwaitRetry(1))).(coordinator := Handling(Failure(c, 1)));
    TakeOnly(cfg, s1, Failure(c, 1));
    assert s1.(failures := [], coordinator := Handling(Failure(c, 1))) == s2;
    FailureGranted(cfg, s, c);
    Reach(cfg, s2, OnFailure);
    var s3 := With(s, c, Waiting1).(coordinator := Granting(c, 2));
    RetryQueued(cfg, s, c);
    Reach(cfg, s3, PublishRetry);
  }

  lemma TakeOnly(cfg: Config, s: State, f: Failure)
    requires s.coordinator.Idle? && s.failures == [f]
    ensures Enabled(cfg, s, TakeFailure) && Effect(cfg, s, TakeFailure) == s.(failures := [], coordinator := Handling(f))
  {
  }

  lemma FailureGranted(cfg: Config, s: State, c: Component)
    requires c in s.members && s.members[c] == Fresh && Driveable(cfg, s, c) && cfg.maxAttempts >= 3
    ensures var s2 := With(s, c, Fresh.(pc := AwaitRetry(1))).(coordinator := Handling(Failure(c, 1)));
      && Enabled(cfg, s2, OnFailure)
      && Effect(cfg, s2, OnFailure) == With(s, c, Waiting1).(coordinator := Granting(c, 2))
  {
    var s2 := With(s, c, Fresh.(pc := AwaitRetry(1))).(coordinator := Handling(Failure(c, 1)));
    var t := With(s2, c, Waiting1);
    assert s.members[c := Fresh.(pc := AwaitRetry(1))][c := Waiting1] == s.members[c := Waiting1];
    if PeerStarted(s, c) {
      var n :| n in s.members && n != c && s.members[n].phase == PhaseStarted;
      assert n in t.members && t.members[n].phase == PhaseStarted;
      assert PeerStarted(t, c);
    } else {
      var n :| n in s.members && n != c && s.members[n].phase == PhasePending && DependsOn(cfg, n, c);
      assert n in t.members && t.members[n].phase == PhasePending;
      assert HasPendingDependent(cfg, t, c);
    }
    assert HandleFailure(cfg, s2, Failure(c, 1)) == t.(coordinator := Granting(c, 2));
  }

  lemma RetryQueued(cfg: Config, s: State, c: Component)
    requires c in s.members && s.coordinator.Idle?
    ensures var s3 := With(s, c, Waiting1).(coordinator := Granting(c, 2));
      Enabled(cfg, s3, PublishRetry) && Effect(cfg, s3, PublishRetry) == With(s, c, Waiting1.(retries := [2]))
  {
    assert [] + [2] == [2];
    assert s.members[c := Waiting1][c := Waiting1.(retries := [2])] == s.members[c := Waiting1.(retries := [2])];
  }

  /** The only waiting component is c, after its first failure. */
  predicate OnlyWaiting(s: State, c: Component) {
    && c in s.members && s.members[c].phase == PhaseWaitingRetry && s.members[c].lastFailure == 1
    && forall e :: e in s.members && e != c ==> s.members[e].phase != PhaseWaitingRetry
  }

  /** A peer that starts while c waits drives a second retry of it. */
  lemma SecondRetry(cfg: Config, s: State, p: Component, c: Component)
    requires Reachable(cfg, s) && p != c && p in cfg.dependsOn && p in s.members && s.members[p] == Fresh && AllReleased(cfg, s, p)
    requires OnlyWaiting(s, c) && s.members[c].retries == [2] && cfg.maxAttempts >= 3
    ensures Reachable(cfg, With(With(s, p, Upped(map[])), c, s.members[c].(retries := [2, 2])).(events := s.events + [Started(p, 1)]))
  {
    StartOne(cfg, s, p);
    assert PendingPeers(cfg, s, p) == map[c := 2];
    DriveEffect(cfg, s, p, c);
    Reach(cfg, StartedIn(cfg, s, p), Drive(p, c));
  }

  lemma DriveEffect(cfg: Config, s: State, p: Component, c: Component)
    requires p != c && p in s.members && c in s.members && s.members[c].retries == [2]
    ensures var t := With(s, p, Upped(map[c := 2])).(events := s.events + [Started(p, 1)]);
      && Enabled(cfg, t, Drive(p, c))
      && Effect(cfg, t, Drive(p, c)) ==
        With(With(s, p, Upped(map[])), c, s.members[c].(retries := [2, 2])).(events := s.events + [Started(p, 1)])
  {
    var m := s.members[c];
    assert map[c := 2] - {c} == map[] && [2] + [2] == [2, 2];
    assert s.members[p := Upped(map[c := 2])][p := Upped(map[])] == s.members[p := Upped(map[])];
  }

  /** Two retries for one failure: the second attempt fails and the third follows at once. */
  lemma SpareRetry(cfg: Config, s: State, c: Component)
    requires Reachable(cfg, s) && c in cfg.dependsOn && c in s.members && Calm(s) && cfg.maxAttempts >= 3
    requires s.members[c] == Waiting1.(retries := [2, 2])
    ensures Reachable(cfg, With(s, c, Waiting1.(pc := Sleeping(2))).(failures := [Failure(c, 2)]))
  {
    ReceiveEffect(cfg, s, c, [2]);
    Reach(cfg, s, ReceiveRetry(c));
    var s1 := With(s, c, Waiting1.(pc := Sleeping(1), retries := [2]));
    ReachMove(cfg, s1, c, Attempting(2));
    var s2 := With(s, c, Waiting1.(pc := Attempting(2), retries := [2]));
    assert At(s1, c, Attempting(2)) == s2;
    AttemptFails(cfg, s2, c, 2);
    var s3 := With(s, c, Waiting1.(pc := AwaitRetry(2), retries := [2])).(failures := [Failure(c, 2)]);
    assert At(s2, c, AwaitRetry(2)).(failures := [] + [Failure(c, 2)]) == s3;
    ReceiveEffect(cfg, s3, c, []);
    Reach(cfg, s3, ReceiveRetry(c));
    assert With(s3, c, Waiting1.(pc := Sleeping(2))) == With(s, c, Waiting1.(pc := Sleeping(2))).(failures := [Failure(c, 2)]);
  }

  lemma ReceiveEffect(cfg: Config, s: State, c: Component, left: seq<nat>)
    requires c in s.members && s.members[c].pc.AwaitRetry? && s.members[c].retries == [2] + left
    ensures Enabled(cfg, s, ReceiveRetry(c))
    ensures Effect(cfg, s, ReceiveRetry(c)) == With(s, c, s.members[c].(pc := Sleeping(s.members[c].pc.attempt), retries := left))
  {
    assert ([2] + left)[1..] == left;
  }

  ghost predicate Demoted(cfg: Config, c: Component) {
    exists s :: Reachable(cfg, s) && c in s.members && Up(s.members[c].pc) && s.members[c].phase == PhaseWaitingRetry
  }

  /** The third attempt starts, and only then the second failure is handled. */
  lemma LateFailure(cfg: Config, s: State, c: Component)
    requires Reachable(cfg, s) && c in cfg.dependsOn && c in s.members && s.members[c].pc == Sleeping(2)
    requires s.coordinator.Idle? && s.failures == [Failure(c, 2)]
    ensures Demoted(cfg, c)
  {
    ReachMove(cfg, s, c, Attempting(3));
    var s1 := At(s, c, Attempting(3));
    ReachMove(cfg, s1, c, Ready(3));
    var s2 := At(s1, c, Ready(3));
    Reach(cfg, s2, MarkStarted(c));
    MarkedThird(cfg, s2, c);
    HandledLate(cfg, Effect(cfg, s2, MarkStarted(c)), c);
  }

  lemma MarkedThird(cfg: Config, s: State, c: Component)
    requires c in s.members && s.members[c].pc == Ready(3)
    ensures Enabled(cfg, s, MarkStarted(c))
    ensures var t := Effect(cfg, s, MarkStarted(c));
      c in t.members && t.members[c].pc.Marked? && t.members[c].phase == PhaseStarted && t.coordinator == s.coordinator && t.failures == s.failures
  {
  }

  lemma HandledLate(cfg: Config, s: State, c: Component)
    requires Reachable(cfg, s) && c in s.members && s.members[c].pc.Marked? && s.members[c].phase == PhaseStarted
    requires s.coordinator.Idle? && s.failures == [Failure(c, 2)]
    ensures Demoted(cfg, c)
  {
    TakeOnly(cfg, s, Failure(c, 2));
    Reach(cfg, s, TakeFailure);
    var t := s.(failures := [], coordinator := Handling(Failure(c, 2)));
    Reach(cfg, t, OnFailure);
    OnFailureShape(cfg, t);
    var u := Effect(cfg, t, OnFailure);
    assert Up(u.members[c].pc) && u.members[c].phase == PhaseWaitingRetry;
  }

  lemma DemoteFrom(cfg: Config, s: State, up: set<Component>, p: Component, c: Component)
    requires Stage(cfg, s, up) && p in Names(cfg) - up && c in Names(cfg) - up && p != c && cfg.maxAttempts >= 3
    requires AllReleased(cfg, s, p) && AllReleased(cfg, s, c) && Driveable(cfg, s, c)
    ensures Demoted(cfg, c)
  {
    FirstRetry(cfg, s, c);
    var s1 := With(s, c, Waiting1.(retries := [2]));
    forall d | d in cfg.dependsOn[p] ensures IsReleased(s1, d) {
      assert IsReleased(s, d);
    }
    SecondRetry(cfg, s1, p, c);
    var s2 := With(With(s1, p, Upped(map[])), c, s1.members[c].(retries := [2, 2])).(events := s1.events + [Started(p, 1)]);
    SpareRetry(cfg, s2, c);
    LateFailure(cfg, With(s2, c, Waiting1.(pc := Sleeping(2))).(failures := [Failure(c, 2)]), c);
  }

  // ---- which components to start first ----

  ghost predicate Unrelated(cfg: Config, p: Component, c: Component) {
    p in Names(cfg) && c in Names(cfg) && p != c && !Reaches(Edges(cfg), p, c) && !Reaches(Edges(cfg), c, p)
  }

  lemma EdgeReaches(cfg: Config, a: Component, b: Component)
    requires Accepted(cfg) && a in cfg.dependsOn && b in cfg.dependsOn[a]
    ensures Reaches(Edges(cfg), a, b)
  {
    assert b in Edges(cfg)[a];
    var p := [a, b];
    assert b in Edges(cfg);
    assert p[0 + 1] in Edges(cfg)[p[0]];
    assert IsPath(Edges(cfg), p) && p[|p| - 1] == b;
  }

  lemma EdgeThenReaches(cfg: Config, a: Component, b: Component, c: Component)
    requires Accepted(cfg) && a in cfg.dependsOn && b in cfg.dependsOn[a] && Reaches(Edges(cfg), b, c)
    ensures Reaches(Edges(cfg), a, c)
  {
    assert b in Edges(cfg)[a];
    var p :| IsPath(Edges(cfg), p) && |p| > 1 && p[0] == b && p[|p| - 1] == c;
    var q := [a] + p;
    assert forall i :: 0 <= i < |q| - 1 ==> q[i + 1] == p[i];
    forall i | 0 <= i < |q| - 1 ensures q[i + 1] in Edges(cfg)[q[i]] {
      assert i > 0 ==> q[i] == p[i - 1] && p[(i - 1) + 1] in Edges(cfg)[p[i - 1]];
    }
    assert IsPath(Edges(cfg), q);
  }

  lemma NoSelfReach(cfg: Config, a: Component)
    requires Accepted(cfg)
    ensures !Reaches(Edges(cfg), a, a)
  {
    assert Acyclic(Edges(cfg));
    forall p | IsPath(Edges(cfg), p) && |p| > 1 && p[0] == a ensures p[|p| - 1] != a {
      assert !IsCycle(Edges(cfg), p);
    }
  }

  /** A component that needs b has, on the way, one that needs b directly. */
  lemma DirectDependent(cfg: Config, a: Component, b: Component) returns (y: Component)
    requires Accepted(cfg) && Reaches(Edges(cfg), a, b)
    ensures y in cfg.dependsOn && y != b && DependsOn(cfg, y, b)
  {
    var p :| IsPath(Edges(cfg), p) && |p| > 1 && p[0] == a && p[|p| - 1] == b;
    var i := |p| - 2;
    assert p[i + 1] in Edges(cfg)[p[i]];
    y := p[i];
    EdgeReaches(cfg, y, b);
    NoSelfReach(cfg, b);
  }

  /** Everything that needs neither p nor c. */
  ghost function Clear(cfg: Config, p: Component, c: Component): set<Component> {
    set x | x in Names(cfg) && x != p && x != c && !Reaches(Edges(cfg), x, p) && !Reaches(Edges(cfg), x, c)
  }

  lemma ClearIsClosed(cfg: Config, p: Component, c: Component)
    requires Accepted(cfg) && Unrelated(cfg, p, c)
    ensures ClosedUnder(cfg, Clear(cfg, p, c))
    ensures forall d :: d in cfg.dependsOn[p] ==> d in Clear(cfg, p, c)
    ensures forall d :: d in cfg.dependsOn[c] ==> d in Clear(cfg, p, c)
  {
    forall x, d | x in Clear(cfg, p, c) && d in cfg.dependsOn[x] ensures d in Clear(cfg, p, c) {
      DependencyIsClear(cfg, p, c, x, d);
    }
    forall d | d in cfg.dependsOn[p] ensures d in Clear(cfg, p, c) {
      NoSelfReach(cfg, p);
      DependencyIsClear(cfg, p, c, p, d);
    }
    forall d | d in cfg.dependsOn[c] ensures d in Clear(cfg, p, c) {
      NoSelfReach(cfg, c);
      DependencyIsClear(cfg, p, c, c, d);
    }
  }

  lemma DependencyIsClear(cfg: Config, p: Component, c: Component, x: Component, d: Component)
    requires Accepted(cfg) && x in cfg.dependsOn && d in cfg.dependsOn[x]
    requires !Reaches(Edges(cfg), x, p) && !Reaches(Edges(cfg), x, c)
    ensures d in Clear(cfg, p, c)
  {
    EdgeReaches(cfg, x, d);
    assert d in Edges(cfg)[x];
    if Reaches(Edges(cfg), d, p) {
      EdgeThenReaches(cfg, x, d, p);
    }
    if Reaches(Edges(cfg), d, c) {
      EdgeThenReaches(cfg, x, d, c);
    }
  }

  lemma ThirdComponent(cfg: Config, p: Component, c: Component)
    requires |Names(cfg)| >= 3
    ensures exists q :: q in Names(cfg) && q != p && q != c
  {
    if forall q :: q in Names(cfg) ==> q == p || q == c {
      assert Names(cfg) <= {p, c};
      SubsetSize(Names(cfg), {p, c});
    }
  }

  /** With a third component around, one of two unrelated components can be driven before it has a started peer
      that knows of its failure. */
  lemma DriveableOne(cfg: Config, s: State, p: Component, c: Component)
    requires Accepted(cfg) && Unrelated(cfg, p, c) && |Names(cfg)| >= 3 && Stage(cfg, s, Clear(cfg, p, c))
    ensures Driveable(cfg, s, c) || Driveable(cfg, s, p)
  {
    ThirdComponent(cfg, p, c);
    var q :| q in Names(cfg) && q != p && q != c;
    assert q in s.members;
    if q in Clear(cfg, p, c) {
      assert s.members[q].phase == PhaseStarted;
      assert PeerStarted(s, c);
    } else if Reaches(Edges(cfg), q, c) {
      var y := DirectDependent(cfg, q, c);
      EdgeReaches(cfg, y, c);
      assert y in s.members && y !in Clear(cfg, p, c);
      assert HasPendingDependent(cfg, s, c);
    } else {
      var y := DirectDependent(cfg, q, p);
      EdgeReaches(cfg, y, p);
      assert y in s.members && y !in Clear(cfg, p, c);
      assert HasPendingDependent(cfg, s, p);
    }
  }

  /** Wherever two components are unrelated, with a third one and three attempts, one of the two can be demoted. */
  lemma UnrelatedDemotes(cfg: Config, p: Component, c: Component)
    requires Accepted(cfg) && Unrelated(cfg, p, c) && |Names(cfg)| >= 3 && cfg.maxAttempts >= 3
    ensures Demoted(cfg, c) || Demoted(cfg, p)
  {
    var goal := Clear(cfg, p, c);
    InitialStage(cfg);
    ClearIsClosed(cfg, p, c);
    var s := StartSet(cfg, Initial(cfg), {}, goal);
    forall d | d in goal ensures IsReleased(s, d) {
      assert d in s.members;
    }
    DriveableOne(cfg, s, p, c);
    if Driveable(cfg, s, c) {
      DemoteFrom(cfg, s, goal, p, c);
    } else {
      DemoteFrom(cfg, s, goal, c, p);
    }
  }

  /** A started component keeps its started phase in every run exactly when there are two components, or at most
      two attempts, or of any two components one depends on the other. */
  lemma NeverDemotesIff(cfg: Config)
    requires Accepted(cfg)
    ensures NeverDemotes(cfg) <==> |Names(cfg)| == 2 || cfg.maxAttempts <= 2 || AllRelated(cfg)
  {
    if |Names(cfg)| == 2 || cfg.maxAttempts <= 2 || AllRelated(cfg) {
      SafeNeverDemotes(cfg);
    } else {
      var p, c :| p in Names(cfg) && c in Names(cfg) && p != c && !(Reaches(Edges(cfg), p, c) || Reaches(Edges(cfg), c, p));
      UnrelatedDemotes(cfg, p, c);
      assert !NeverDemotes(cfg);
    }
  }

  // ---- the smallest failing configuration ----

  /** Three components that depend on nothing, three attempts each. */
  const Trio := Config(map["a" := [], "b" := [], "c" := []], 3)

  lemma TrioDemotesStarted()
    ensures Accepted(Trio) && !NeverDemotes(Trio)
  {
    assert Names(Trio) == {"a", "b", "c"};
    var g := Edges(Trio);
    forall p ensures !IsCycle(g, p) {
      if |p| > 1 && p[0] in g {
        assert p[0 + 1] !in g[p[0]];
      }
    }
    forall p: seq<Component> | |p| > 1 && p[0] in g ensures !IsPath(g, p) {
      assert p[0 + 1] !in g[p[0]];
    }
    assert !Reaches(g, "a", "b") && !Reaches(g, "b", "a");
    NeverDemotesIff(Trio);
  }
}
