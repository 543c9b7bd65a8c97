/** The event traces the coordinator can send to its caller. */
module StartupEvents {
  import opened Basics
  import opened Dependencies
  import opened Startup
  import opened StartupInvariants

  /** The events about c, without the aborts. */
  function EventsOf(events: seq<Event>, c: Component): seq<Event> {
    if events == [] then []
    else
      var last := events[|events| - 1];
      EventsOf(events[..|events| - 1], c) + (if last.component == c && !last.Aborted? then [last] else [])
  }

  function Aborts(events: seq<Event>): nat {
    if events == [] then 0
    else Aborts(events[..|events| - 1]) + (if events[|events| - 1].Aborted? then 1 else 0)
  }

  /** What c's goroutine has sent when it stands at pc. */
  function Sent(c: Component, pc: Pc): seq<Event> {
    match pc
    case Driving(k, _) => [Started(c, k)]
    case Running(k) => [Started(c, k)]
    case Exiting(k) => [Started(c, k)]
    case GaveUpSent(k) => [GaveUp(c, k)]
    case Done(k, RunFinished) => [Started(c, k + 1), Exited(c, k + 1)]
    case Done(k, Exhausted) => [GaveUp(c, k)]
    case _ => []
  }

  ghost predicate TraceInv(s: State) {
    && (forall c :: EventsOf(s.events, c) == if c in s.members then Sent(c, s.members[c].pc) else [])
    && Aborts(s.events) == (if s.aborted then 1 else 0)
    && (s.eventsClosed ==> AllDone(s) && s.coordinator.Stopped?)
  }

  lemma AppendEvent(events: seq<Event>, e: Event)
    ensures forall c :: EventsOf(events + [e], c) == EventsOf(events, c) + (if e.component == c && !e.Aborted? then [e] else [])
    ensures Aborts(events + [e]) == Aborts(events) + (if e.Aborted? then 1 else 0)
  {
    assert (events + [e])[..|events|] == events;
  }

  lemma SilentStep(s: State, t: State)
    requires TraceInv(s)
    requires t.events == s.events && t.aborted == s.aborted && t.eventsClosed == s.eventsClosed && t.members.Keys == s.members.Keys
    requires forall c :: c in s.members ==> Sent(c, t.members[c].pc) == Sent(c, s.members[c].pc)
    requires s.eventsClosed ==> AllDone(t) && t.coordinator.Stopped?
    ensures TraceInv(t)
  {
  }

  lemma SendingStep(s: State, t: State, e: Event)
    requires TraceInv(s) && !e.Aborted? && !s.eventsClosed && !t.eventsClosed
    requires t.events == s.events + [e] && t.aborted == s.aborted && t.members.Keys == s.members.Keys && e.component in s.members
    requires forall c :: c in s.members ==> Sent(c, t.members[c].pc) == Sent(c, s.members[c].pc) + (if c == e.component then [e] else [])
    ensures TraceInv(t)
  {
    AppendEvent(s.events, e);
  }

  lemma AbortingStep(s: State, t: State, e: Event)
    requires TraceInv(s) && e.Aborted? && !s.aborted && t.aborted && !s.eventsClosed && !t.eventsClosed
    requires t.events == s.events + [e] && t.members.Keys == s.members.Keys
    requires forall c :: c in s.members ==> Sent(c, t.members[c].pc) == Sent(c, s.members[c].pc)
    ensures TraceInv(t)
  {
    AppendEvent(s.events, e);
  }

  /** A step of c's goroutine that sends the events es (none or one), as its new position accounts for. */
  ghost predicate StepOf(s: State, t: State, c: Component, es: seq<Event>) {
    && c in s.members && c in t.members && t.members == s.members[c := t.members[c]]
    && Sent(c, t.members[c].pc) == Sent(c, s.members[c].pc) + es
    && t.events == s.events + es && t.aborted == s.aborted && !t.eventsClosed
  }

  lemma StepOfKeepsTrace(s: State, t: State, c: Component, es: seq<Event>)
    requires TraceInv(s) && !s.eventsClosed && StepOf(s, t, c, es)
    requires |es| <= 1 && forall e :: e in es ==> e.component == c && !e.Aborted?
    ensures TraceInv(t)
  {
    if es == [] {
      assert t.events == s.events;
      SilentStep(s, t);
    } else {
      assert es == [es[0]];
      SendingStep(s, t, es[0]);
    }
  }

  /** A goroutine that can take a step has not ended, so the event channel is still open. */
  lemma ActiveMeansOpen(cfg: Config, s: State, a: Action)
    requires TraceInv(s) && IsMemberStep(a) && Enabled(cfg, s, a)
    ensures !s.eventsClosed
  {
    assert !s.members[a.c].pc.Done?;
  }

  /** A component's own step sends exactly the events its new position accounts for. */
  lemma MemberStepKeepsTrace(cfg: Config, s: State, a: Action)
    requires MembersOk(cfg, s) && TraceInv(s) && IsMemberStep(a) && Enabled(cfg, s, a)
    ensures TraceInv(Effect(cfg, s, a))
  {
    ActiveMeansOpen(cfg, s, a);
    assert MemberOk(cfg, s.members[a.c], s.aborted, s.cancelled);
    if a.AbortGaveUp? {
      AbortGaveUpKeepsTrace(cfg, s, a.c);
    } else if a.Drive? {
      DriveKeepsTrace(cfg, s, a.c, a.peer);
    } else if a.PublishFailure? {
      PublishFailureShape(cfg, s, a.c);
      StepOfKeepsTrace(s, Effect(cfg, s, a), a.c, []);
    } else if IsAnnouncement(a) {
      AnnouncementShape(cfg, s, a);
      StepOfKeepsTrace(s, Effect(cfg, s, a), a.c, [AnnouncedEvent(a, s.members[a.c].pc)]);
    } else {
      SilentShape(cfg, s, a);
      StepOfKeepsTrace(s, Effect(cfg, s, a), a.c, []);
    }
  }

  predicate IsAnnouncement(a: Action) {
    a.AnnounceStarted? || a.AnnounceExited? || a.AnnounceGaveUp?
  }

  function AnnouncedEvent(a: Action, pc: Pc): Event
    requires IsAnnouncement(a) && (pc.Released? || pc.Exiting? || pc.GaveUpMarked?)
  {
    if a.AnnounceStarted? then Started(a.c, pc.attempt)
    else if a.AnnounceExited? then Exited(a.c, pc.attempt)
    else GaveUp(a.c, pc.attempt)
  }

  lemma AnnouncementShape(cfg: Config, s: State, a: Action)
    requires IsAnnouncement(a) && Enabled(cfg, s, a) && AttemptInRange(cfg, s.members[a.c].pc) && !s.eventsClosed
    ensures StepOf(s, Effect(cfg, s, a), a.c, [AnnouncedEvent(a, s.members[a.c].pc)])
  {
    match a
    case AnnounceStarted(c) => StartedShape(cfg, s, c);
    case AnnounceExited(c) => ExitedShape(cfg, s, c);
    case AnnounceGaveUp(c) => GaveUpShape(cfg, s, c);
  }

  lemma StartedShape(cfg: Config, s: State, c: Component)
    requires Enabled(cfg, s, AnnounceStarted(c)) && !s.eventsClosed
    ensures StepOf(s, Effect(cfg, s, AnnounceStarted(c)), c, [Started(c, s.members[c].pc.attempt)])
  {
  }

  lemma ExitedShape(cfg: Config, s: State, c: Component)
    requires Enabled(cfg, s, AnnounceExited(c)) && AttemptInRange(cfg, s.members[c].pc) && !s.eventsClosed
    ensures StepOf(s, Effect(cfg, s, AnnounceExited(c)), c, [Exited(c, s.members[c].pc.attempt)])
  {
  }

  lemma GaveUpShape(cfg: Config, s: State, c: Component)
    requires Enabled(cfg, s, AnnounceGaveUp(c)) && !s.eventsClosed
    ensures StepOf(s, Effect(cfg, s, AnnounceGaveUp(c)), c, [GaveUp(c, s.members[c].pc.attempt)])
  {
  }

  lemma SilentShape(cfg: Config, s: State, a: Action)
    requires Enabled(cfg, s, a) && !s.eventsClosed
    requires a.Move? || a.MarkStarted? || a.Release? || a.ReceiveRetry? || a.MarkGaveUp?
    ensures StepOf(s, Effect(cfg, s, a), a.c, [])
  {
    if a.Move? {
      MoveSendsNothing(s, cfg.dependsOn[a.c], a.c, s.members[a.c].pc, a.to);
    }
    assert s.events + [] == s.events;
  }

  lemma MoveSendsNothing(s: State, deps: seq<Component>, c: Component, from: Pc, to: Pc)
    requires CanMove(s, deps, from, to)
    ensures Sent(c, to) == Sent(c, from)
  {
  }

  lemma AbortGaveUpKeepsTrace(cfg: Config, s: State, c: Component)
    requires TraceInv(s) && Enabled(cfg, s, AbortGaveUp(c)) && !s.eventsClosed
    ensures TraceInv(Effect(cfg, s, AbortGaveUp(c)))
  {
    var u := At(s, c, Done(s.members[c].pc.attempt, Exhausted));
    assert s.events + [] == s.events;
    assert StepOf(s, u, c, []);
    StepOfKeepsTrace(s, u, c, []);
    if !s.aborted {
      AbortingStep(u, FireAbort(u, c, ComponentGaveUp), Aborted(c, ComponentGaveUp));
    }
    assert Effect(cfg, s, AbortGaveUp(c)) == FireAbort(u, c, ComponentGaveUp);
  }

  lemma DriveKeepsTrace(cfg: Config, s: State, c: Component, peer: Component)
    requires TraceInv(s) && Enabled(cfg, s, Drive(c, peer)) && !s.eventsClosed
    ensures TraceInv(Effect(cfg, s, Drive(c, peer)))
  {
    var k, todo := s.members[c].pc.attempt, s.members[c].pc.todo;
    var u := At(s, c, Driving(k, todo - {peer}));
    SilentStep(s, u);
    SendRetryKeepsTrace(u, peer, todo[peer]);
  }

  lemma SendRetryKeepsTrace(s: State, to: Component, attempt: nat)
    requires TraceInv(s)
    ensures TraceInv(SendRetry(s, to, attempt))
  {
    if to in s.members {
      SendRetryShape(s, to, attempt);
      SilentStep(s, SendRetry(s, to, attempt));
    }
  }

  lemma CoordinatorStepKeepsTrace(cfg: Config, s: State, a: Action)
    requires TraceInv(s) && !IsMemberStep(a) && Enabled(cfg, s, a)
    ensures TraceInv(Effect(cfg, s, a))
  {
    match a
    case Abort =>
      if !s.aborted {
        var reason := if s.coordinator.AbortAllFailed? then AllFailed else QueueOverflow;
        AbortingStep(s, Effect(cfg, s, a), Aborted(s.coordinator.trigger, reason));
      } else {
        SilentStep(s, Effect(cfg, s, a));
      }
    case OnFailure => OnFailureShape(cfg, s); SilentStep(s, Effect(cfg, s, a));
    case PublishRetry => PublishRetryKeepsTrace(cfg, s);
    case CloseEvents =>
    case StopCoordinator => SilentStep(s, Effect(cfg, s, a));
    case TakeFailure => SilentStep(s, Effect(cfg, s, a));
    case TakeOverflow => SilentStep(s, Effect(cfg, s, a));
    case CancelAfterAbort => SilentStep(s, Effect(cfg, s, a));
    case ExternalCancel => SilentStep(s, Effect(cfg, s, a));
    case CancelWhenFinished => SilentStep(s, Effect(cfg, s, a));
  }

  lemma PublishRetryKeepsTrace(cfg: Config, s: State)
    requires TraceInv(s) && Enabled(cfg, s, PublishRetry)
    ensures TraceInv(Effect(cfg, s, PublishRetry))
  {
    if s.coordinator.to in s.members {
      SendRetryShape(s, s.coordinator.to, s.coordinator.attempt);
    }
    SilentStep(s, Effect(cfg, s, PublishRetry));
  }

  lemma {:induction false} ExecutionKeepsTrace(cfg: Config, acts: seq<Action>)
    requires Accepted(cfg) && Execute(cfg, acts).Some?
    ensures TraceInv(Execute(cfg, acts).value)
  {
    if acts != [] {
      var before := acts[..|acts| - 1];
      var last := acts[|acts| - 1];
      ExecutionKeeps(cfg, before);
      ExecutionKeepsTrace(cfg, before);
      if IsMemberStep(last) {
        MemberStepKeepsTrace(cfg, Execute(cfg, before).value, last);
      } else {
        CoordinatorStepKeepsTrace(cfg, Execute(cfg, before).value, last);
      }
    }
  }

  // ---- the trace grammar ----

  /** All a component can ever send, in order: nothing, a start, a start and its exit, or one give-up. */
  predicate ComponentTrace(events: seq<Event>, c: Component) {
    || events == []
    || (|events| == 1 && events[0].component == c && (events[0].Started? || events[0].GaveUp?))
    || CompletedRun(events, c)
  }

  predicate CompletedRun(events: seq<Event>, c: Component) {
    |events| == 2 && events[0].Started? && events[1] == Exited(c, events[0].attempt) && events[0].component == c
  }

  /** Every trace, of every run: one component never both starts and gives up, never starts or exits
      twice, never exits before starting; there is at most one abort; components nobody
      configured never appear. */
  lemma TraceGrammar(cfg: Config, s: State)
    requires Accepted(cfg) && Reachable(cfg, s)
    ensures forall c :: ComponentTrace(EventsOf(s.events, c), c)
    ensures forall c :: c !in Names(cfg) ==> EventsOf(s.events, c) == []
    ensures Aborts(s.events) <= 1
  {
    var acts :| Execute(cfg, acts) == Some(s);
    ExecutionKeepsTrace(cfg, acts);
    ReachableKeeps(cfg, s);
    forall c ensures ComponentTrace(EventsOf(s.events, c), c) {
      if c in s.members { SentIsComponentTrace(c, s.members[c].pc); }
    }
  }

  lemma SentIsComponentTrace(c: Component, pc: Pc)
    ensures ComponentTrace(Sent(c, pc), c)
  {
  }

  /** When the channel closes, a component that started has also exited, and a give-up
      has been followed by an abort. */
  lemma ClosedTrace(cfg: Config, s: State)
    requires Accepted(cfg) && Reachable(cfg, s) && s.eventsClosed
    ensures forall c :: c in Names(cfg) ==>
      var es := EventsOf(s.events, c);
      es == [] || CompletedRun(es, c) || (|es| == 1 && es[0].GaveUp? && Aborts(s.events) == 1)
  {
    var acts :| Execute(cfg, acts) == Some(s);
    ExecutionKeepsTrace(cfg, acts);
    ReachableKeeps(cfg, s);
    forall c | c in Names(cfg)
      ensures var es := EventsOf(s.events, c);
        es == [] || CompletedRun(es, c) || (|es| == 1 && es[0].GaveUp? && Aborts(s.events) == 1)
    {
      ClosedComponent(cfg, s, c);
    }
  }

  lemma ClosedComponent(cfg: Config, s: State, c: Component)
    requires TraceInv(s) && s.eventsClosed && c in s.members && MemberOk(cfg, s.members[c], s.aborted, s.cancelled)
    ensures var es := EventsOf(s.events, c);
      es == [] || CompletedRun(es, c) || (|es| == 1 && es[0].GaveUp? && Aborts(s.events) == 1)
  {
    assert s.members[c].pc.Done?;
  }

  /** Once the channel is closed no goroutine can take a step, so nothing can be sent on it. */
  lemma NothingAfterClose(cfg: Config, s: State)
    requires Accepted(cfg) && Reachable(cfg, s) && s.eventsClosed
    ensures forall a :: !Enabled(cfg, s, a)
  {
    var acts :| Execute(cfg, acts) == Some(s);
    ExecutionKeepsTrace(cfg, acts);
    ReachableKeeps(cfg, s);
    forall a ensures !Enabled(cfg, s, a) {
      OverMeansOver(cfg, s, a);
    }
  }

  lemma OverMeansOver(cfg: Config, s: State, a: Action)
    requires AllDone(s) && s.coordinator.Stopped? && s.cancelled && s.eventsClosed
    ensures !Enabled(cfg, s, a)
  {
    assert IsMemberStep(a) && a.c in s.members ==> s.members[a.c].pc.Done?;
  }

  /** A dependency channel is closed at most once (closing it twice would panic). */
  lemma ReleasedOnce(cfg: Config, s: State, c: Component)
    requires Accepted(cfg) && Reachable(cfg, s) && Enabled(cfg, s, Release(c))
    ensures !s.members[c].released && !IsReleased(s, c)
  {
    ReachableKeeps(cfg, s);
    assert MemberOk(cfg, s.members[c], s.aborted, s.cancelled);
  }

  /** If the all-failed abort was sent, the trace shows no start, now or later. */
  lemma AllFailedTraceHasNoStart(cfg: Config, s: State, e: Event, c: Component)
    requires Accepted(cfg) && Reachable(cfg, s) && e in s.events && IsAllFailed(e)
    ensures forall x :: x in EventsOf(s.events, c) ==> x.GaveUp?
  {
    var acts :| Execute(cfg, acts) == Some(s);
    ExecutionKeepsTrace(cfg, acts);
    ReachableKeeps(cfg, s);
  }
}
