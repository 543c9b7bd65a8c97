/** The consumer of the coordinator's events (app/rclaude/supervise.go): it prints one status line
    per component and decides how the process ends. */
module Supervisor {
  import opened Basics
  import opened Dependencies
  import opened Startup
  import opened StartupEvents

  const DAEMON: Component := "daemon"
  const PTY: Component := "pty"

  /** What Run returned with: nothing, a PTY exit code, or any other error. */
  datatype RunError = NoError | ExitError(code: int) | OtherError

  /** An event as the channel delivers it, with its Err field. */
  datatype Notice = Notice(event: Event, err: RunError)

  datatype StatusLine = StatusLine(component: Component, started: bool)

  /** What supervise returns: nil, errStartupFailed, errRunFailed or the PTY's exit error. */
  datatype Verdict = Clean | StartupFailed | RunFailed | PtyExit(code: int)

  // ---- what the notices say ----

  predicate Saw(notices: seq<Notice>, c: Component) {
    exists n :: n in notices && n.event.Started? && n.event.component == c
  }

  predicate DaemonDied(notices: seq<Notice>) {
    exists n :: n in notices && n.event.Exited? && n.event.component != PTY && n.err != NoError
  }

  /** The error of the last PTY exit, if the PTY exited. */
  function PtyExitOf(notices: seq<Notice>): Option<RunError> {
    if notices == [] then None
    else
      var last := notices[|notices| - 1];
      if last.event.Exited? && last.event.component == PTY then Some(last.err) else PtyExitOf(notices[..|notices| - 1])
  }

  function EventsIn(notices: seq<Notice>): seq<Event> {
    seq(|notices|, i requires 0 <= i < |notices| => notices[i].event)
  }

  function LinesOf(out: seq<StatusLine>, c: Component): seq<StatusLine> {
    if out == [] then []
    else
      LinesOf(out[..|out| - 1], c) + (if out[|out| - 1].component == c then [out[|out| - 1]] else [])
  }

  lemma AppendLine(out: seq<StatusLine>, line: StatusLine, c: Component)
    ensures LinesOf(out + [line], c) == LinesOf(out, c) + (if line.component == c then [line] else [])
  {
    assert (out + [line])[..|out|] == out;
  }

  /** The lines a component's own events call for. */
  function LinesFor(events: seq<Event>, c: Component): seq<StatusLine> {
    if events == [] then [] else [StatusLine(c, events[0].Started?)]
  }

  /** The supervisor's fields as a value. */
  datatype Desk = Desk(
    out: seq<StatusLine>, started: set<Component>, failed: set<Component>,
    ptyExit: Option<RunError>, daemonFatal: bool)

  /** What handling one notice does to the fields. */
  function AfterNotice(d: Desk, n: Notice): Desk {
    match n.event
    case Started(c, _) => d.(started := d.started + {c}, out := d.out + [StatusLine(c, true)])
    case GaveUp(c, _) => AfterFailure(d, c)
    case Aborted(_, _) => d
    case Exited(c, _) =>
      if c == PTY then d.(ptyExit := Some(n.err))
      else if n.err != NoError then d.(daemonFatal := true)
      else d
  }

  function AfterFailure(d: Desk, c: Component): Desk {
    if c in d.failed || c in d.started then d
    else d.(failed := d.failed + {c}, out := d.out + [StatusLine(c, false)])
  }

  /** The status line a notice adds for component c: a start, or the first word of its failure. */
  function NewLine(d: Desk, n: Notice, c: Component): seq<StatusLine> {
    if n.event.component == c && (n.event.Started? || (n.event.GaveUp? && c !in d.started && c !in d.failed))
    then [StatusLine(c, n.event.Started?)] else []
  }

  /** The line the end adds for a component of the pair that neither started nor was reported failed. */
  function MissingLine(d: Desk, c: Component): seq<StatusLine> {
    if (c == DAEMON || c == PTY) && c !in d.started && c !in d.failed then [StatusLine(c, false)] else []
  }

  class Supervisor {
    var out: seq<StatusLine>
    var cancels: nat
    var started: set<Component>
    var failed: set<Component>
    var ptyExit: RunError
    var ptyDone: bool
    var daemonFatal: bool

    function View(): Desk
      reads this
    {
      Desk(out, started, failed, if ptyDone then Some(ptyExit) else None, daemonFatal)
    }

    constructor ()
      ensures View() == Desk([], {}, {}, None, false) && cancels == 0
    {
      out, started, failed, ptyExit, ptyDone, daemonFatal, cancels := [], {}, {}, NoError, false, false, 0;
    }

    method PrintStatus(c: Component, ok: bool)
      modifies this`out
      ensures out == old(out) + [StatusLine(c, ok)]
    {
      out := out + [StatusLine(c, ok)];
    }

    method MarkFailed(c: Component)
      modifies this`failed, this`out
      ensures View() == AfterFailure(old(View()), c)
    {
      if c in failed || c in started {
        return;
      }
      failed := failed + {c};
      PrintStatus(c, false);
    }

    method OnExited(n: Notice)
      requires n.event.Exited?
      modifies this`ptyDone, this`ptyExit, this`daemonFatal, this`cancels
      ensures View() == AfterNotice(old(View()), n)
      ensures cancels == old(cancels) + (if n.event.component == PTY || n.err != NoError then 1 else 0)
    {
      if n.event.component == PTY {
        ptyDone := true;
        ptyExit := n.err;
        cancels := cancels + 1;
        return;
      }
      if n.err != NoError {
        daemonFatal := true;
        cancels := cancels + 1;
      }
    }

    method Handle(n: Notice)
      modifies this
      ensures View() == AfterNotice(old(View()), n)
      ensures forall c :: LinesOf(out, c) == LinesOf(old(out), c) + NewLine(old(View()), n, c)
      ensures forall c :: (c in started <==> c in old(started) || (n.event.Started? && c == n.event.component))
      ensures forall c :: (c in failed <==> c in old(failed) || (n.event.GaveUp? && c == n.event.component && c !in old(started)))
      ensures cancels == old(cancels) + (if n.event.Aborted? || (n.event.Exited? && (n.event.component == PTY || n.err != NoError)) then 1 else 0)
    {
      ghost var before := View();
      forall c ensures LinesOf(AfterNotice(before, n).out, c) == LinesOf(before.out, c) + NewLine(before, n, c) {
        NoticeLines(before, n, c);
      }
      match n.event {
        case Started(c, _) =>
          started := started + {c};
          PrintStatus(c, true);
        case GaveUp(c, _) =>
          MarkFailed(c);
        case Aborted(_, _) =>
          cancels := cancels + 1;
        case Exited(_, _) =>
          OnExited(n);
      }
    }

    method PtyExitError() returns (verdict: Verdict)
      ensures verdict == match ptyExit case NoError => Clean case ExitError(code) => PtyExit(code) case OtherError => RunFailed
    {
      match ptyExit {
        case NoError => return Clean;
        case ExitError(code) => return PtyExit(code);
        case OtherError => return RunFailed;
      }
    }

    method Finish() returns (verdict: Verdict)
      modifies this`failed, this`out
      ensures View() == AfterMissing(AfterMissing(old(View()), DAEMON), PTY)
      ensures verdict == VerdictOf(View())
      ensures forall c :: LinesOf(out, c) == LinesOf(old(out), c) + MissingLine(old(View()), c)
      ensures verdict == StartupFailed <==> old(failed) != {} || DAEMON !in started || PTY !in started
    {
      ghost var before := View();
      forall c ensures LinesOf(AfterMissing(AfterMissing(before, DAEMON), PTY).out, c) == LinesOf(before.out, c) + MissingLine(before, c) {
        MissingBoth(before, c);
      }
      FailedAfter(before);
      var components := [DAEMON, PTY];
      var i := 0;
      while i < 2
        invariant 0 <= i <= 2
        invariant View() == if i == 0 then old(View()) else if i == 1 then AfterMissing(old(View()), DAEMON)
                            else AfterMissing(AfterMissing(old(View()), DAEMON), PTY)
      {
        if components[i] !in started {
          MarkFailed(components[i]);
        }
        i := i + 1;
      }
      if failed != {} {
        return StartupFailed;
      }
      if daemonFatal {
        return RunFailed;
      }
      if ptyDone {
        verdict := PtyExitError();
        return;
      }
      return Clean;
    }
  }

  function AfterMissing(d: Desk, c: Component): Desk {
    if c in d.started then d else AfterFailure(d, c)
  }

  /** The exit decision: a failed startup first, then a dead daemon, then the PTY's own exit. */
  function VerdictOf(d: Desk): Verdict {
    if d.failed != {} then StartupFailed
    else if d.daemonFatal then RunFailed
    else
      match d.ptyExit
      case Some(ExitError(code)) => PtyExit(code)
      case Some(OtherError) => RunFailed
      case _ => Clean
  }

  // ---- prefixes of well-formed traces ----

  lemma {:induction false} PrefixTrace(events: seq<Event>, n: nat, c: Component)
    requires n <= |events|
    ensures EventsOf(events[..n], c) <= EventsOf(events, c)
    decreases |events|
  {
    if n == |events| {
      assert events[..n] == events;
    } else {
      var most := events[..|events| - 1];
      assert most[..n] == events[..n];
      PrefixTrace(most, n, c);
    }
  }

  lemma NextEvent(notices: seq<Notice>, i: nat, c: Component)
    requires i < |notices|
    ensures EventsOf(EventsIn(notices[..i + 1]), c) ==
      EventsOf(EventsIn(notices[..i]), c)
        + (if notices[i].event.component == c && !notices[i].event.Aborted? then [notices[i].event] else [])
    ensures EventsOf(EventsIn(notices[..i + 1]), c) <= EventsOf(EventsIn(notices), c)
  {
    assert EventsIn(notices[..i + 1]) == EventsIn(notices[..i]) + [notices[i].event];
    AppendEvent(EventsIn(notices[..i]), notices[i].event);
    assert EventsIn(notices[..i + 1]) == EventsIn(notices)[..i + 1];
    PrefixTrace(EventsIn(notices), i + 1, c);
  }

  lemma {:induction false} SawIsStarted(notices: seq<Notice>, c: Component)
    ensures Saw(notices, c) <==> exists e :: e in EventsOf(EventsIn(notices), c) && e.Started?
  {
    if notices != [] {
      var n := |notices| - 1;
      assert notices[..n + 1] == notices;
      assert notices == notices[..n] + [notices[n]];
      NextEvent(notices, n, c);
      SawIsStarted(notices[..n], c);
      EventsOfComponent(EventsIn(notices[..n]), c);
      assert Saw(notices, c) <==> Saw(notices[..n], c) || (notices[n].event.Started? && notices[n].event.component == c);
    }
  }

  lemma {:induction false} EventsOfComponent(events: seq<Event>, c: Component)
    ensures forall e :: e in EventsOf(events, c) ==> e.component == c
  {
    if events != [] {
      EventsOfComponent(events[..|events| - 1], c);
    }
  }

  /** The traces the coordinator of the daemon/PTY pair can send and close. */
  ghost predicate PairTrace(notices: seq<Notice>) {
    && (forall c :: ComponentTrace(EventsOf(EventsIn(notices), c), c))
    && (forall c :: c != DAEMON && c != PTY ==> EventsOf(EventsIn(notices), c) == [])
  }

  /** What the fields mean after the notices so far. */
  ghost predicate Tracks(d: Desk, notices: seq<Notice>) {
    && (forall c :: TracksComponent(d, EventsOf(EventsIn(notices), c), c))
    && d.daemonFatal == DaemonDied(notices)
    && d.ptyExit == PtyExitOf(notices)
  }

  ghost predicate TracksComponent(d: Desk, events: seq<Event>, c: Component) {
    && LinesOf(d.out, c) == LinesFor(events, c)
    && (c in d.started <==> events != [] && events[0].Started?)
    && (c in d.failed <==> events != [] && !events[0].Started?)
  }

  lemma NoticeLines(d: Desk, n: Notice, c: Component)
    ensures LinesOf(AfterNotice(d, n).out, c) == LinesOf(d.out, c) + NewLine(d, n, c)
  {
    AppendLine(d.out, StatusLine(n.event.component, n.event.Started?), c);
  }

  lemma TracksOther(d: Desk, events: seq<Event>, n: Notice, c: Component)
    requires TracksComponent(d, events, c) && (n.event.component != c || n.event.Aborted?)
    ensures TracksComponent(AfterNotice(d, n), events, c)
  {
    NoticeLines(d, n, c);
  }

  lemma TracksOwn(d: Desk, events: seq<Event>, n: Notice, c: Component)
    requires TracksComponent(d, events, c) && n.event.component == c && !n.event.Aborted?
    requires ComponentTrace(events + [n.event], c)
    ensures TracksComponent(AfterNotice(d, n), events + [n.event], c)
  {
    NoticeLines(d, n, c);
    assert (events + [n.event])[|events|] == n.event;
    if events != [] {
      assert (events + [n.event])[0] == events[0];
    }
  }

  lemma PrefixOfComponentTrace(before: seq<Event>, all: seq<Event>, c: Component)
    requires before <= all && ComponentTrace(all, c)
    ensures ComponentTrace(before, c)
  {
  }

  lemma TracksNext(d: Desk, notices: seq<Notice>, i: nat)
    requires i < |notices| && PairTrace(notices) && Tracks(d, notices[..i])
    ensures Tracks(AfterNotice(d, notices[i]), notices[..i + 1])
  {
    var n := notices[i];
    var now := EventsIn(notices[..i + 1]);
    assert notices[..i + 1] == notices[..i] + [n] && notices[..i + 1][..i] == notices[..i];
    forall c ensures TracksComponent(AfterNotice(d, n), EventsOf(now, c), c) {
      NextEvent(notices, i, c);
      PrefixOfComponentTrace(EventsOf(now, c), EventsOf(EventsIn(notices), c), c);
      if n.event.component == c && !n.event.Aborted? {
        TracksOwn(d, EventsOf(EventsIn(notices[..i]), c), n, c);
      } else {
        TracksOther(d, EventsOf(EventsIn(notices[..i]), c), n, c);
      }
    }
  }

  lemma MissingLines(d: Desk, x: Component, c: Component)
    ensures var e := AfterMissing(d, x);
      && LinesOf(e.out, c) == LinesOf(d.out, c) + (if x == c && c !in d.started && c !in d.failed then [StatusLine(c, false)] else [])
      && (c in e.failed <==> c in d.failed || (x == c && c !in d.started))
      && e.started == d.started
  {
    AppendLine(d.out, StatusLine(x, false), c);
  }

  lemma MissingBoth(d: Desk, c: Component)
    ensures LinesOf(AfterMissing(AfterMissing(d, DAEMON), PTY).out, c) == LinesOf(d.out, c) + MissingLine(d, c)
  {
    assert DAEMON != PTY by { assert |DAEMON| != |PTY|; }
    MissingLines(d, DAEMON, c);
    MissingLines(AfterMissing(d, DAEMON), PTY, c);
  }

  lemma FailedAfter(d: Desk)
    ensures AfterMissing(AfterMissing(d, DAEMON), PTY).failed != {} <==> d.failed != {} || DAEMON !in d.started || PTY !in d.started
  {
    var e := AfterMissing(AfterMissing(d, DAEMON), PTY);
    assert forall c :: c in d.failed ==> c in e.failed;
    assert DAEMON !in d.started ==> DAEMON in e.failed;
    assert PTY !in d.started ==> PTY in e.failed;
  }

  lemma TracksFinishComponent(d: Desk, events: seq<Event>, c: Component)
    requires TracksComponent(d, events, c) && (c != DAEMON && c != PTY ==> events == [])
    ensures var e := AfterMissing(AfterMissing(d, DAEMON), PTY);
      && LinesOf(e.out, c) == (if c == DAEMON || c == PTY then [StatusLine(c, events != [] && events[0].Started?)] else [])
      && (c in e.failed <==> (c == DAEMON || c == PTY) && !(events != [] && events[0].Started?))
  {
    assert DAEMON != PTY by { assert |DAEMON| != |PTY|; }
    MissingLines(d, DAEMON, c);
    MissingLines(AfterMissing(d, DAEMON), PTY, c);
  }

  lemma TracksFinish(d: Desk, notices: seq<Notice>, c: Component)
    requires PairTrace(notices) && Tracks(d, notices)
    ensures var e := AfterMissing(AfterMissing(d, DAEMON), PTY);
      && LinesOf(e.out, c) == (if c == DAEMON || c == PTY then [StatusLine(c, Saw(notices, c))] else [])
      && (c in e.failed <==> (c == DAEMON || c == PTY) && !Saw(notices, c))
  {
    var events := EventsOf(EventsIn(notices), c);
    SawIsStarted(notices, c);
    assert ComponentTrace(events, c);
    assert events != [] && events[0].Started? ==> events[0] in events;
    TracksFinishComponent(d, events, c);
  }

  /** On every trace the coordinator can send, the supervisor prints exactly one status line per
      component, saying whether it started; it reports a failed startup exactly when some component
      never started, and otherwise how the daemon and the PTY ended. */
  method Supervise(notices: seq<Notice>) returns (verdict: Verdict, out: seq<StatusLine>)
    requires PairTrace(notices)
    ensures forall c :: LinesOf(out, c) == if c == DAEMON || c == PTY then [StatusLine(c, Saw(notices, c))] else []
    ensures verdict == StartupFailed <==> !Saw(notices, DAEMON) || !Saw(notices, PTY)
    ensures Saw(notices, DAEMON) && Saw(notices, PTY) ==>
              verdict == if DaemonDied(notices) then RunFailed
                         else match PtyExitOf(notices)
                              case Some(ExitError(code)) => PtyExit(code)
                              case Some(OtherError) => RunFailed
                              case _ => Clean
  {
    var s := new Supervisor();
    var i := 0;
    while i < |notices|
      invariant 0 <= i <= |notices|
      invariant Tracks(s.View(), notices[..i])
    {
      TracksNext(s.View(), notices, i);
      s.Handle(notices[i]);
      i := i + 1;
    }
    assert notices[..i] == notices;
    ghost var d := s.View();
    verdict := s.Finish();
    out := s.out;
    forall c
      ensures LinesOf(out, c) == if c == DAEMON || c == PTY then [StatusLine(c, Saw(notices, c))] else []
      ensures c in s.failed <==> (c == DAEMON || c == PTY) && !Saw(notices, c)
    {
      TracksFinish(d, notices, c);
    }
    assert s.failed != {} ==> exists c :: c in s.failed;
  }

  /** The composition: every closed run of the daemon/PTY coordinator gives the supervisor such a trace. */
  lemma CoordinatorGivesPairTrace(cfg: Config, s: State, notices: seq<Notice>)
    requires Accepted(cfg) && Names(cfg) == {DAEMON, PTY} && Reachable(cfg, s)
    requires EventsIn(notices) == s.events
    ensures PairTrace(notices)
  {
    TraceGrammar(cfg, s);
  }
}
