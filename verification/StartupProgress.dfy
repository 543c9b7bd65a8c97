/** The startup protocol runs out of steps: every step, of any goroutine or from outside, uses up some of a
    finite amount of work. With deadlock freedom, every run that goes as far as it can without being
    cancelled ends with all components started. */
module StartupProgress {
  import opened Basics
  import opened Dependencies
  import opened Startup
  import opened StartupInvariants
  import opened StartupTheorems

  // ---- the work left ----

  /** What one attempt can cost at most, retries of all peers included. */
  function AttemptWork(cfg: Config): nat {
    11 + 3 * |Names(cfg)|
  }

  /** The attempts after the k-th. */
  function Later(cfg: Config, k: nat): nat {
    if k < cfg.maxAttempts then (cfg.maxAttempts - k) * AttemptWork(cfg) else 0
  }

  function PcWork(cfg: Config, c: Component, pc: Pc): nat {
    match pc
    case AwaitDeps(i) =>
      (if c in cfg.dependsOn && i < |cfg.dependsOn[c]| then |cfg.dependsOn[c]| - i else 0) + 1 + Later(cfg, 1) + AttemptWork(cfg)
    case Attempting(k) => Later(cfg, k) + AttemptWork(cfg)
    case Ready(_) => 6 + 3 * |Names(cfg)|
    case Marked(_, todo) => 5 + 3 * |todo|
    case Released(_, todo) => 4 + 3 * |todo|
    case Driving(_, todo) => 3 + 3 * |todo|
    case Running(_) => 2
    case Exiting(_) => 1
    case Failed(k) => Later(cfg, k) + 10
    case Publishing(k) => Later(cfg, k) + 9
    case AwaitRetry(k) => Later(cfg, k) + 2
    case Sleeping(k) => Later(cfg, k) + 1
    case GivingUp(_) => 3
    case GaveUpMarked(_) => 2
    case GaveUpSent(_) => 1
    case Done(_, _) => 0
  }

  ghost function MembersWork(cfg: Config, members: map<Component, Member>, keys: set<Component>): nat
    requires keys <= members.Keys
    decreases keys
  {
    if keys == {} then 0
    else
      var c :| c in keys;
      PcWork(cfg, c, members[c].pc) + MembersWork(cfg, members, keys - {c})
  }

  function CoordinatorWork(k: Coordinator): nat {
    match k
    case Stopped => 0
    case Idle => 1
    case AbortAllFailed(_) => 2
    case AbortOverflow(_) => 2
    case Granting(_, _) => 4
    case Handling(_) => 5
  }

  function QueueWork(s: State): nat {
    5 * |s.failures| + (if s.overflow.Some? then 2 else 0) + CoordinatorWork(s.coordinator)
    + (if s.cancelled then 0 else 1) + (if s.eventsClosed then 0 else 1)
  }

  ghost function Work(cfg: Config, s: State): nat {
    MembersWork(cfg, s.members, s.members.Keys) + QueueWork(s)
  }

  // ---- sums ----

  lemma {:induction false} TakeOut(cfg: Config, members: map<Component, Member>, keys: set<Component>, c: Component)
    requires keys <= members.Keys && c in keys
    ensures MembersWork(cfg, members, keys) == PcWork(cfg, c, members[c].pc) + MembersWork(cfg, members, keys - {c})
    decreases keys
  {
    var d :| d in keys && MembersWork(cfg, members, keys) == PcWork(cfg, d, members[d].pc) + MembersWork(cfg, members, keys - {d});
    if d != c {
      TakeOut(cfg, members, keys - {d}, c);
      TakeOut(cfg, members, keys - {c}, d);
      assert keys - {d} - {c} == keys - {c} - {d};
    }
  }

  lemma {:induction false} SameWork(cfg: Config, a: map<Component, Member>, b: map<Component, Member>, keys: set<Component>)
    requires keys <= a.Keys && keys <= b.Keys && forall c :: c in keys ==> a[c].pc == b[c].pc
    ensures MembersWork(cfg, a, keys) == MembersWork(cfg, b, keys)
    decreases keys
  {
    if keys != {} {
      var c :| c in keys;
      TakeOut(cfg, a, keys, c);
      TakeOut(cfg, b, keys, c);
      SameWork(cfg, a, b, keys - {c});
    }
  }

  /** When only c moves, the sum changes by c's share. */
  lemma OneMoves(cfg: Config, s: State, t: State, c: Component)
    requires c in s.members && t.members.Keys == s.members.Keys
    requires forall d :: d in s.members && d != c ==> t.members[d].pc == s.members[d].pc
    ensures MembersWork(cfg, t.members, t.members.Keys) + PcWork(cfg, c, s.members[c].pc)
         == MembersWork(cfg, s.members, s.members.Keys) + PcWork(cfg, c, t.members[c].pc)
  {
    TakeOut(cfg, s.members, s.members.Keys, c);
    TakeOut(cfg, t.members, t.members.Keys, c);
    SameWork(cfg, s.members, t.members, s.members.Keys - {c});
  }

  // ---- every step uses some up ----

  lemma LaterShrinks(cfg: Config, k: nat)
    requires k < cfg.maxAttempts
    ensures Later(cfg, k) == Later(cfg, k + 1) + AttemptWork(cfg)
  {
    var n, w := cfg.maxAttempts - k, AttemptWork(cfg);
    assert n * w == (n - 1) * w + w;
  }

  lemma MoveUsesWork(cfg: Config, s: State, c: Component, to: Pc)
    requires c in cfg.dependsOn && c in s.members && AttemptInRange(cfg, s.members[c].pc)
    requires CanMove(s, cfg.dependsOn[c], s.members[c].pc, to)
    ensures PcWork(cfg, c, to) < PcWork(cfg, c, s.members[c].pc)
  {
    match s.members[c].pc
    case Sleeping(k) => LaterShrinks(cfg, k);
    case _ =>
  }

  lemma TodoFits(cfg: Config, s: State, c: Component)
    requires s.members.Keys == Names(cfg)
    ensures |PendingPeers(cfg, s, c)| <= |Names(cfg)|
  {
    SubsetSize(PendingPeers(cfg, s, c).Keys, Names(cfg));
    assert |PendingPeers(cfg, s, c)| == |PendingPeers(cfg, s, c).Keys|;
  }

  lemma TodoShrinks(todo: map<Component, nat>, peer: Component)
    requires peer in todo
    ensures |todo - {peer}| == |todo| - 1
  {
    assert (todo - {peer}).Keys == todo.Keys - {peer};
    assert |todo - {peer}| == |(todo - {peer}).Keys| && |todo| == |todo.Keys|;
  }

  /** Only c moved, and it gave up more work than the queues gained. */
  ghost predicate Shares(cfg: Config, s: State, t: State, c: Component)
    requires c in s.members
  {
    && t.members.Keys == s.members.Keys
    && (forall d :: d in s.members && d != c ==> t.members[d].pc == s.members[d].pc)
    && PcWork(cfg, c, t.members[c].pc) + QueueWork(t) < PcWork(cfg, c, s.members[c].pc) + QueueWork(s)
  }

  lemma MemberStepShares(cfg: Config, s: State, a: Action)
    requires s.members.Keys == Names(cfg) && IsMemberStep(a) && Enabled(cfg, s, a) && AttemptInRange(cfg, s.members[a.c].pc)
    ensures Shares(cfg, s, Effect(cfg, s, a), a.c)
  {
    match a
    case Move(c, to) => MoveShares(cfg, s, c, to);
    case MarkStarted(c) => StartShares(cfg, s, c);
    case Drive(c, peer) => DriveShares(cfg, s, c, peer);
    case PublishFailure(c) => PublishShares(cfg, s, c);
    case AbortGaveUp(c) => AbortShares(cfg, s, c);
    case _ => LocalShares(cfg, s, a);
  }

  lemma StartShares(cfg: Config, s: State, c: Component)
    requires s.members.Keys == Names(cfg) && Enabled(cfg, s, MarkStarted(c))
    ensures Shares(cfg, s, Effect(cfg, s, MarkStarted(c)), c)
  {
    TodoFits(cfg, s, c);
  }

  lemma MoveShares(cfg: Config, s: State, c: Component, to: Pc)
    requires Enabled(cfg, s, Move(c, to)) && AttemptInRange(cfg, s.members[c].pc)
    ensures Shares(cfg, s, Effect(cfg, s, Move(c, to)), c)
  {
    MoveUsesWork(cfg, s, c, to);
  }

  lemma LocalShares(cfg: Config, s: State, a: Action)
    requires a.Release? || a.AnnounceStarted? || a.AnnounceExited? || a.ReceiveRetry? || a.MarkGaveUp? || a.AnnounceGaveUp?
    requires Enabled(cfg, s, a)
    ensures Shares(cfg, s, Effect(cfg, s, a), a.c)
  {
    OnlyOwnPc(cfg, s, a);
    var p, q := s.members[a.c].pc, Effect(cfg, s, a).members[a.c].pc;
    assert PcWork(cfg, a.c, q) < PcWork(cfg, a.c, p);
  }

  lemma OnlyOwnPc(cfg: Config, s: State, a: Action)
    requires a.Release? || a.AnnounceStarted? || a.AnnounceExited? || a.ReceiveRetry? || a.MarkGaveUp? || a.AnnounceGaveUp?
    requires Enabled(cfg, s, a)
    ensures var t := Effect(cfg, s, a);
      && t.members == s.members[a.c := t.members[a.c]] && a.c in t.members
      && t.failures == s.failures && t.overflow == s.overflow && t.coordinator == s.coordinator
      && t.cancelled == s.cancelled && t.eventsClosed == s.eventsClosed
  {
  }

  lemma AbortShares(cfg: Config, s: State, c: Component)
    requires Enabled(cfg, s, AbortGaveUp(c))
    ensures Shares(cfg, s, Effect(cfg, s, AbortGaveUp(c)), c)
  {
  }

  lemma DriveShares(cfg: Config, s: State, c: Component, peer: Component)
    requires Enabled(cfg, s, Drive(c, peer))
    ensures Shares(cfg, s, Effect(cfg, s, Drive(c, peer)), c)
  {
    TodoShrinks(s.members[c].pc.todo, peer);
    var u := At(s, c, Driving(s.members[c].pc.attempt, s.members[c].pc.todo - {peer}));
    SendRetryCosts(u, peer, s.members[c].pc.todo[peer]);
  }

  lemma SendRetryCosts(s: State, to: Component, attempt: nat)
    ensures var t := SendRetry(s, to, attempt);
      && t.members.Keys == s.members.Keys && (forall d :: d in s.members ==> t.members[d].pc == s.members[d].pc)
      && QueueWork(t) <= QueueWork(s) + 2
  {
  }

  lemma PublishShares(cfg: Config, s: State, c: Component)
    requires Enabled(cfg, s, PublishFailure(c))
    ensures Shares(cfg, s, Effect(cfg, s, PublishFailure(c)), c)
  {
    PublishFailureShape(cfg, s, c);
  }

  lemma CoordinatorStepShares(cfg: Config, s: State, a: Action)
    requires !IsMemberStep(a) && Enabled(cfg, s, a)
    ensures var t := Effect(cfg, s, a);
      && t.members.Keys == s.members.Keys
      && (forall d :: d in s.members ==> t.members[d].pc == s.members[d].pc)
      && QueueWork(t) < QueueWork(s)
  {
    if a.OnFailure? {
      OnFailureShape(cfg, s);
    }
  }

  /** Every step, whoever takes it, leaves less work. */
  lemma StepUsesWork(cfg: Config, s: State, a: Action)
    requires Inv(cfg, s) && Enabled(cfg, s, a)
    ensures Work(cfg, Effect(cfg, s, a)) < Work(cfg, s)
  {
    var t := Effect(cfg, s, a);
    if IsMemberStep(a) {
      assert MemberOk(cfg, s.members[a.c], s.aborted, s.cancelled);
      MemberStepShares(cfg, s, a);
      OneMoves(cfg, s, t, a.c);
    } else {
      CoordinatorStepShares(cfg, s, a);
      SameWork(cfg, s.members, t.members, s.members.Keys);
    }
  }

  /** No run is longer than the work there was at the start. */
  lemma {:induction false} RunsAreFinite(cfg: Config, acts: seq<Action>)
    requires Accepted(cfg) && Execute(cfg, acts).Some?
    ensures |acts| + Work(cfg, Execute(cfg, acts).value) <= Work(cfg, Initial(cfg))
  {
    if acts != [] {
      var before := acts[..|acts| - 1];
      RunsAreFinite(cfg, before);
      ExecutionKeeps(cfg, before);
      StepUsesWork(cfg, Execute(cfg, before).value, acts[|acts| - 1]);
    }
  }

  // ---- every run gets there ----

  /** A run that has gone as far as the protocol can go on its own, and was not cancelled, has started every
      component; and it was no longer than the work there was at the start. */
  lemma MaximalRunStartsAll(cfg: Config, acts: seq<Action>)
    requires Accepted(cfg) && Execute(cfg, acts).Some?
    requires Stuck(cfg, Execute(cfg, acts).value) && !Execute(cfg, acts).value.cancelled
    ensures |acts| <= Work(cfg, Initial(cfg))
    ensures AllStarted(cfg, Execute(cfg, acts).value)
  {
    RunsAreFinite(cfg, acts);
    DeadlockFreedom(cfg, Execute(cfg, acts).value);
  }

  ghost predicate AllStarted(cfg: Config, s: State) {
    forall c :: c in Names(cfg) ==> c in s.members && HasStarted(s.members[c].pc)
  }

  /** The protocol's own steps lead from s to t. */
  ghost predicate Leads(cfg: Config, s: State, more: seq<Action>, t: State)
    decreases |more|
  {
    if more == [] then t == s
    else Enabled(cfg, s, more[0]) && !WaitsOnOutside(s, more[0]) && Leads(cfg, Effect(cfg, s, more[0]), more[1..], t)
  }

  lemma StepLeadsOn(cfg: Config, s: State, a: Action)
    requires Accepted(cfg) && Reachable(cfg, s) && Enabled(cfg, s, a)
    ensures Reachable(cfg, Effect(cfg, s, a)) && Work(cfg, Effect(cfg, s, a)) < Work(cfg, s)
  {
    Reach(cfg, s, a);
    ReachableKeeps(cfg, s);
    StepUsesWork(cfg, s, a);
  }

  /** From every reachable state the protocol's own steps lead to one that has all components started, unless it was
      cancelled before or an abort is sent. */
  lemma {:induction false} RunCanSettle(cfg: Config, s: State) returns (more: seq<Action>, t: State)
    requires Accepted(cfg) && Reachable(cfg, s)
    ensures Leads(cfg, s, more, t) && (AllStarted(cfg, t) || s.cancelled || t.aborted)
    ensures s.cancelled ==> t == s
    decreases Work(cfg, s)
  {
    if s.cancelled {
      return [], s;
    }
    if Stuck(cfg, s) {
      DeadlockFreedom(cfg, s);
      return [], s;
    }
    var a :| Enabled(cfg, s, a) && !WaitsOnOutside(s, a);
    StepLeadsOn(cfg, s, a);
    if Effect(cfg, s, a).cancelled {
      OwnCancelMeansAbort(cfg, s, a);
    }
    var rest;
    rest, t := RunCanSettle(cfg, Effect(cfg, s, a));
    more := [a] + rest;
    assert more[1..] == rest;
  }

  /** The protocol itself cancels only after an abort. */
  lemma OwnCancelMeansAbort(cfg: Config, s: State, a: Action)
    requires Enabled(cfg, s, a) && !WaitsOnOutside(s, a) && !s.cancelled && Effect(cfg, s, a).cancelled
    ensures Effect(cfg, s, a).aborted
  {
  }
}
