/** The startup protocol as a step system (pkg/startup/coordinator.go, pkg/startup/runner.go).

    Every goroutine is a program counter; one action is one uninterrupted piece of code:
    a critical section under c.mu, one channel operation, or one event sent to the caller.
    The event bus hands a published value directly to the subscriber, which forwards it
    into a bounded channel or signals an overflow. */
module Startup {
  import opened Basics
  import opened Dependencies

  const FAIL_BUFFER_SIZE := 16
  const RETRY_BUFFER_SIZE := 8

  /** dependsOn keeps the DependsOn order, because awaitDependencies waits in that order. */
  datatype Config = Config(dependsOn: map<Component, seq<Component>>, maxAttempts: nat)

  function Names(cfg: Config): set<Component> {
    cfg.dependsOn.Keys
  }

  function Edges(cfg: Config): Graph {
    map n | n in cfg.dependsOn :: set d | d in cfg.dependsOn[n]
  }

  /** What New guarantees of the configuration it accepts. */
  ghost predicate Accepted(cfg: Config) {
    |Names(cfg)| >= 2 && cfg.maxAttempts >= 1 && Closed(Edges(cfg)) && Acyclic(Edges(cfg))
  }

  datatype Phase = PhasePending | PhaseStarted | PhaseWaitingRetry | PhaseGaveUp

  datatype Failure = Failure(component: Component, attempt: nat)

  datatype Ending = RunFinished | Exhausted | Cancelled

  /** Where a component's goroutine is; `attempt` is the loop variable of runComponent. */
  datatype Pc =
    | AwaitDeps(next: nat)
    | Attempting(attempt: nat)                              // inside spec.Run, ready not called
    | Ready(attempt: nat)                                   // ready called, about to markStarted
    | Marked(attempt: nat, todo: map<Component, nat>)       // markStarted left its critical section
    | Released(attempt: nat, todo: map<Component, nat>)     // startedChs[name] closed
    | Driving(attempt: nat, todo: map<Component, nat>)      // KindStarted sent, publishing retries
    | Running(attempt: nat)                                 // waiting for spec.Run to return
    | Exiting(attempt: nat)                                 // about to send KindExited
    | Failed(attempt: nat)                                  // runAttempt reported false
    | Publishing(attempt: nat)                              // ctx was alive, about to publish
    | AwaitRetry(attempt: nat)
    | Sleeping(attempt: nat)                                // in the retry delay
    | GivingUp(attempt: nat)
    | GaveUpMarked(attempt: nat)
    | GaveUpSent(attempt: nat)
    | Done(failures: nat, ending: Ending)

  datatype Coordinator =
    | Idle
    | Handling(failure: Failure)
    | Granting(to: Component, attempt: nat)
    | AbortAllFailed(trigger: Component)
    | AbortOverflow(trigger: Component)
    | Stopped

  datatype AbortReason = AllFailed | QueueOverflow | ComponentGaveUp

  datatype Event =
    | Started(component: Component, attempt: nat)
    | GaveUp(component: Component, attempt: nat)
    | Aborted(component: Component, reason: AbortReason)
    | Exited(component: Component, attempt: nat)

  /** Everything the coordinator keeps per component, and its goroutine's position. */
  datatype Member = Member(
    pc: Pc,
    phase: Phase,            // states[name].phase
    lastFailure: nat,        // states[name].lastFailure.Attempt
    retries: seq<nat>,       // retryChs[name]: attempt numbers waiting to be received
    released: bool)          // startedChs[name] is closed

  datatype State = State(
    members: map<Component, Member>,
    failures: seq<Failure>,             // failCh
    overflow: Option<Component>,        // overflowCh
    coordinator: Coordinator,
    events: seq<Event>,
    aborted: bool,                      // abortOnce has fired
    cancelled: bool,                    // the run context is done
    eventsClosed: bool)

  function Initial(cfg: Config): State {
    State(
      map n | n in Names(cfg) :: Member(AwaitDeps(0), PhasePending, 0, [], false),
      [], None, Idle, [], false, false, false)
  }

  datatype Action =
    // steps of a component's goroutine
    | Move(c: Component, to: Pc)
    | MarkStarted(c: Component)
    | Release(c: Component)
    | AnnounceStarted(c: Component)
    | Drive(c: Component, peer: Component)
    | AnnounceExited(c: Component)
    | PublishFailure(c: Component)
    | ReceiveRetry(c: Component)
    | MarkGaveUp(c: Component)
    | AnnounceGaveUp(c: Component)
    | AbortGaveUp(c: Component)
    // steps of the coordinator's goroutine
    | TakeFailure
    | TakeOverflow
    | OnFailure
    | PublishRetry
    | Abort
    | StopCoordinator
    // cancellation and shutdown
    | CancelAfterAbort
    | ExternalCancel
    | CancelWhenFinished
    | CloseEvents

  /** Steps that change nothing but the goroutine's own position: loop control, waits that end,
      and what the component's Run does. */
  predicate CanMove(s: State, deps: seq<Component>, from: Pc, to: Pc) {
    match from
    case AwaitDeps(i) =>
      if i < |deps| then
        (IsReleased(s, deps[i]) && to == AwaitDeps(i + 1)) || (s.cancelled && to == Done(0, Cancelled))
      else to == Attempting(1)
    case Attempting(k) => to == Ready(k) || to == Failed(k)
    case Driving(k, todo) => todo == map[] && to == Running(k)
    case Running(k) => to == Exiting(k)
    case Failed(k) => if s.cancelled then to == Done(Before(k), Cancelled) else to == Publishing(k)
    case AwaitRetry(k) => s.cancelled && to == Done(k, Cancelled)
    case Sleeping(k) => to == Attempting(k + 1) || (s.cancelled && to == Done(k, Cancelled))
    case _ => false
  }

  predicate IsReleased(s: State, c: Component) {
    c in s.members && s.members[c].released
  }

  /** peerSummaryLocked: is some other component started? */
  predicate PeerStarted(s: State, self: Component) {
    exists n :: n in s.members && n != self && s.members[n].phase == PhaseStarted
  }

  /** peerSummaryLocked: is every other component down? */
  predicate PeersDown(s: State, self: Component) {
    forall n :: n in s.members && n != self ==> IsDown(s.members[n].phase)
  }

  predicate IsDown(phase: Phase) {
    phase == PhaseWaitingRetry || phase == PhaseGaveUp
  }

  /** hasPendingDependentLocked. */
  predicate HasPendingDependent(cfg: Config, s: State, self: Component) {
    exists n :: n in s.members && n != self && s.members[n].phase == PhasePending && DependsOn(cfg, n, self)
  }

  predicate DependsOn(cfg: Config, component: Component, dependency: Component) {
    component in cfg.dependsOn && dependency in cfg.dependsOn[component]
  }

  /** pendingPeerFailuresLocked, restricted to the failures markStarted publishes a retry for. */
  function PendingPeers(cfg: Config, s: State, self: Component): map<Component, nat> {
    map n | n in s.members && n != self && s.members[n].phase == PhaseWaitingRetry
            && s.members[n].lastFailure < cfg.maxAttempts :: s.members[n].lastFailure + 1
  }

  function SignalOverflow(s: State, c: Component): State {
    if s.overflow.None? then s.(overflow := Some(c)) else s
  }

  function SendFailure(s: State, f: Failure): State {
    if |s.failures| < FAIL_BUFFER_SIZE then s.(failures := s.failures + [f])
    else SignalOverflow(s, f.component)
  }

  function SendRetry(s: State, to: Component, attempt: nat): State {
    if to !in s.members then s
    else if |s.members[to].retries| < RETRY_BUFFER_SIZE then
      var m := s.members[to];
      s.(members := s.members[to := m.(retries := m.retries + [attempt])])
    else SignalOverflow(s, to)
  }

  function FireAbort(s: State, trigger: Component, reason: AbortReason): State {
    if s.aborted then s
    else s.(aborted := true, events := s.events + [Aborted(trigger, reason)])
  }

  predicate AllDone(s: State) {
    forall c :: c in s.members ==> s.members[c].pc.Done?
  }

  /** The failures a goroutine has published so far. */
  function Tries(pc: Pc): nat {
    match pc
    case AwaitDeps(_) => 0
    case Done(k, _) => k
    case AwaitRetry(k) => k
    case Sleeping(k) => k
    case GivingUp(k) => k
    case GaveUpMarked(k) => k
    case GaveUpSent(k) => k
    case _ => Before(pc.attempt)
  }

  function Before(k: nat): nat {
    if k == 0 then 0 else k - 1
  }

  /** The step a component's goroutine takes, as the pc it must be at. */
  predicate MemberEnabled(cfg: Config, s: State, a: Action, c: Component)
    requires c in s.members
  {
    var pc := s.members[c].pc;
    match a
    case Move(_, to) => c in cfg.dependsOn && CanMove(s, cfg.dependsOn[c], pc, to)
    case MarkStarted(_) => pc.Ready?
    case Release(_) => pc.Marked?
    case AnnounceStarted(_) => pc.Released?
    case Drive(_, peer) => pc.Driving? && peer in pc.todo
    case AnnounceExited(_) => pc.Exiting?
    case PublishFailure(_) => pc.Publishing?
    case ReceiveRetry(_) => pc.AwaitRetry? && s.members[c].retries != []
    case MarkGaveUp(_) => pc.GivingUp?
    case AnnounceGaveUp(_) => pc.GaveUpMarked?
    case AbortGaveUp(_) => pc.GaveUpSent?
    case _ => false
  }

  predicate IsMemberStep(a: Action) {
    a.Move? || a.MarkStarted? || a.Release? || a.AnnounceStarted? || a.Drive? || a.AnnounceExited?
    || a.PublishFailure? || a.ReceiveRetry? || a.MarkGaveUp? || a.AnnounceGaveUp? || a.AbortGaveUp?
  }

  predicate Enabled(cfg: Config, s: State, a: Action) {
    if IsMemberStep(a) then a.c in s.members && MemberEnabled(cfg, s, a, a.c)
    else
      match a
      case TakeFailure => s.coordinator.Idle? && s.failures != []
      case TakeOverflow => s.coordinator.Idle? && s.overflow.Some?
      case OnFailure => s.coordinator.Handling? && s.coordinator.failure.component in s.members
      case PublishRetry => s.coordinator.Granting?
      case Abort => s.coordinator.AbortAllFailed? || s.coordinator.AbortOverflow?
      case StopCoordinator => s.coordinator.Idle? && s.cancelled
      case CancelAfterAbort => s.aborted && !s.cancelled
      case ExternalCancel => !s.cancelled
      case CancelWhenFinished => AllDone(s) && !s.cancelled
      case CloseEvents => AllDone(s) && s.coordinator.Stopped? && !s.eventsClosed
      case _ => false
  }

  function With(s: State, c: Component, m: Member): State {
    s.(members := s.members[c := m])
  }

  function At(s: State, c: Component, pc: Pc): State
    requires c in s.members
  {
    With(s, c, s.members[c].(pc := pc))
  }

  function MemberEffect(cfg: Config, s: State, a: Action, c: Component): State
    requires c in s.members && MemberEnabled(cfg, s, a, c)
  {
    var m := s.members[c];
    match a
    case Move(_, to) => At(s, c, to)
    case MarkStarted(_) =>
      With(s, c, m.(pc := Marked(m.pc.attempt, PendingPeers(cfg, s, c)), phase := PhaseStarted))
    case Release(_) => With(s, c, m.(pc := Released(m.pc.attempt, m.pc.todo), released := true))
    case AnnounceStarted(_) =>
      At(s, c, Driving(m.pc.attempt, m.pc.todo)).(events := s.events + [Started(c, m.pc.attempt)])
    case Drive(_, peer) =>
      SendRetry(At(s, c, Driving(m.pc.attempt, m.pc.todo - {peer})), peer, m.pc.todo[peer])
    case AnnounceExited(_) =>
      At(s, c, Done(Tries(m.pc), RunFinished)).(events := s.events + [Exited(c, m.pc.attempt)])
    case PublishFailure(_) =>
      var k := m.pc.attempt;
      SendFailure(At(s, c, if k == cfg.maxAttempts then GivingUp(k) else AwaitRetry(k)), Failure(c, k))
    case ReceiveRetry(_) => With(s, c, m.(pc := Sleeping(m.pc.attempt), retries := m.retries[1..]))
    case MarkGaveUp(_) => With(s, c, m.(pc := GaveUpMarked(m.pc.attempt), phase := PhaseGaveUp))
    case AnnounceGaveUp(_) => At(s, c, GaveUpSent(m.pc.attempt)).(events := s.events + [GaveUp(c, m.pc.attempt)])
    case AbortGaveUp(_) => FireAbort(At(s, c, Done(m.pc.attempt, Exhausted)), c, ComponentGaveUp)
  }

  /** onFailure's critical section and the decision it leads to. */
  function HandleFailure(cfg: Config, s: State, f: Failure): State
    requires f.component in s.members
  {
    var c := f.component;
    var m := s.members[c];
    var t := if m.phase == PhaseGaveUp then s
             else With(s, c, m.(phase := PhaseWaitingRetry, lastFailure := f.attempt));
    var next :=
      if PeerStarted(t, c) || HasPendingDependent(cfg, t, c) then
        if f.attempt < cfg.maxAttempts then Granting(c, f.attempt + 1) else Idle
      else if PeersDown(t, c) then AbortAllFailed(c)
      else Idle;
    t.(coordinator := next)
  }

  function Effect(cfg: Config, s: State, a: Action): State
    requires Enabled(cfg, s, a)
  {
    if IsMemberStep(a) then MemberEffect(cfg, s, a, a.c)
    else
      match a
      case TakeFailure => s.(failures := s.failures[1..], coordinator := Handling(s.failures[0]))
      case TakeOverflow => s.(overflow := None, coordinator := AbortOverflow(s.overflow.value))
      case OnFailure => HandleFailure(cfg, s, s.coordinator.failure)
      case PublishRetry => SendRetry(s, s.coordinator.to, s.coordinator.attempt).(coordinator := Idle)
      case Abort =>
        var reason := if s.coordinator.AbortAllFailed? then AllFailed else QueueOverflow;
        FireAbort(s, s.coordinator.trigger, reason).(coordinator := Idle)
      case StopCoordinator => s.(coordinator := Stopped)
      case CloseEvents => s.(eventsClosed := true)
      case _ => s.(cancelled := true)
  }

  /** The state after performing the actions in order, if each was enabled in its turn. */
  function Execute(cfg: Config, acts: seq<Action>): Option<State> {
    if acts == [] then Some(Initial(cfg))
    else
      var before := Execute(cfg, acts[..|acts| - 1]);
      var last := acts[|acts| - 1];
      if before.Some? && Enabled(cfg, before.value, last) then Some(Effect(cfg, before.value, last)) else None
  }

  ghost predicate Reachable(cfg: Config, s: State) {
    exists acts :: Execute(cfg, acts) == Some(s)
  }
}
