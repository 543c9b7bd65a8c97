/** One PTY attach on the server (pkg/ptyservice/service.go): the frames it sends, and what it does
    with its slot and its host. The outside world (what is read, which channel is ready, which sends
    succeed) is the input. */
module PtyAttach {
  import opened Basics
  import opened PtySlots

  datatype ErrorKind = DaemonNotConnected | SessionBusy | SpawnFailed | Protocol | RateLimited | Internal

  datatype ServerFrame =
    | Attached(sessionId: string)
    | Stdout(data: Bytes)
    | Exited(code: int, signal: nat)
    | Error(kind: ErrorKind, message: string)

  function KindName(kind: ErrorKind): string {
    match kind
    case DaemonNotConnected => "KIND_DAEMON_NOT_CONNECTED"
    case SessionBusy => "KIND_SESSION_BUSY"
    case SpawnFailed => "KIND_SPAWN_FAILED"
    case Protocol => "KIND_PROTOCOL"
    case RateLimited => "KIND_RATE_LIMITED"
    case Internal => "KIND_INTERNAL"
  }

  /** The frame of sendApplicationError: an empty message is replaced by the kind's name. */
  function ErrorFrame(kind: ErrorKind, message: string): ServerFrame {
    Error(kind, if message == "" then KindName(kind) else message)
  }

  datatype ExitInfo = ExitInfo(code: int, signal: nat)

  // ---- frame traces ----

  predicate Output(f: ServerFrame, frameMax: int) {
    f.Stdout? && 0 < |f.data| <= frameMax
  }

  predicate Outputs(fs: seq<ServerFrame>, frameMax: int) {
    forall i :: 0 <= i < |fs| ==> Output(fs[i], frameMax)
  }

  /** Error, or Attached Stdout* (Exited | Error). */
  predicate Complete(fs: seq<ServerFrame>, frameMax: int) {
    || (|fs| == 1 && fs[0].Error?)
    || (|fs| >= 2 && fs[0].Attached? && Outputs(fs[1..|fs| - 1], frameMax) && (fs[|fs| - 1].Exited? || fs[|fs| - 1].Error?))
  }

  /** Attached Stdout*. */
  predicate Open(fs: seq<ServerFrame>, frameMax: int) {
    fs != [] && fs[0].Attached? && Outputs(fs[1..], frameMax)
  }

  predicate Trace(fs: seq<ServerFrame>, frameMax: int) {
    fs == [] || Open(fs, frameMax) || Complete(fs, frameMax)
  }

  /** Traces are exactly the prefixes of complete traces. */
  lemma TraceIsPrefix(fs: seq<ServerFrame>, frameMax: int)
    ensures Trace(fs, frameMax) <==> exists rest :: Complete(fs + rest, frameMax)
  {
    if Trace(fs, frameMax) {
      var e := [Error(Internal, "")];
      assert Complete(fs, frameMax) ==> fs + [] == fs;
      assert Open(fs, frameMax) ==> (fs + e)[1..|fs + e| - 1] == fs[1..];
      assert fs == [] ==> fs + e == e;
      assert Complete(fs + [], frameMax) || Complete(fs + e, frameMax);
    }
    if exists rest :: Complete(fs + rest, frameMax) {
      var rest :| Complete(fs + rest, frameMax);
      var all := fs + rest;
      assert rest == [] ==> all == fs;
      if rest != [] && |fs| > 0 {
        forall i | 0 <= i < |fs[1..]| ensures Output(fs[1..][i], frameMax) {
          assert all[1..|all| - 1][i] == fs[1..][i];
        }
      }
    }
  }

  function Payload(fs: seq<ServerFrame>): Bytes {
    if fs == [] then []
    else Payload(fs[..|fs| - 1]) + (if fs[|fs| - 1].Stdout? then fs[|fs| - 1].data else [])
  }

  lemma PayloadAppend(fs: seq<ServerFrame>, f: ServerFrame)
    ensures Payload(fs + [f]) == Payload(fs) + (if f.Stdout? then f.data else [])
  {
    assert (fs + [f])[..|fs|] == fs;
  }

  // ---- the host's output ----

  /** One result of the host's reader: some bytes, and possibly the end or an error. */
  datatype ReadResult = ReadResult(data: Bytes, err: Option<ReadErr>)
  datatype ReadErr = Eof | Failed(message: string)

  datatype StdoutEvent = Data(data: Bytes) | Ended(err: ReadErr)

  /** Everything the host wrote, up to the end of its output. */
  function HostOutput(results: seq<ReadResult>): Bytes {
    if results == [] then []
    else results[0].data + (if results[0].err.None? then HostOutput(results[1..]) else [])
  }

  /** The first error the reader reports. */
  function HostEnd(results: seq<ReadResult>): Option<ReadErr> {
    if results == [] then None
    else if results[0].err.Some? then results[0].err else HostEnd(results[1..])
  }

  /** How many events those results make: a chunk for each that brings bytes, and one for the end. */
  function EventCount(results: seq<ReadResult>): nat {
    if results == [] then 0
    else (if |results[0].data| > 0 then 1 else 0) + (if results[0].err.Some? then 1 else EventCount(results[1..]))
  }

  const DefaultFrameMax := 64 * 1024

  function EffectiveFrameMax(frameMax: int): int {
    if frameMax <= 0 then DefaultFrameMax else frameMax
  }

  function Gathered(events: seq<StdoutEvent>): Bytes {
    if events == [] then []
    else Gathered(events[..|events| - 1]) + (if events[|events| - 1].Data? then events[|events| - 1].data else [])
  }

  predicate Chunks(events: seq<StdoutEvent>, frameMax: int) {
    forall i :: 0 <= i < |events| ==> events[i].Data? && 0 < |events[i].data| <= frameMax
  }

  /** What pumpStdout puts on its channel: chunks of at most frameMax bytes, then the error that ended it. */
  predicate Pumped(events: seq<StdoutEvent>, closed: bool, results: seq<ReadResult>, frameMax: int) {
    && Gathered(events) == HostOutput(results) && |events| == EventCount(results)
    && closed == HostEnd(results).Some?
    && (!closed ==> Chunks(events, frameMax))
    && (closed ==> events != [] && events[|events| - 1] == Ended(HostEnd(results).value) && Chunks(events[..|events| - 1], frameMax))
  }

  lemma GatheredAppend(events: seq<StdoutEvent>, e: StdoutEvent)
    ensures Gathered(events + [e]) == Gathered(events) + (if e.Data? then e.data else [])
  {
    assert (events + [e])[..|events|] == events;
  }

  method PumpStdout(results: seq<ReadResult>, frameMax: int) returns (events: seq<StdoutEvent>, closed: bool)
    requires forall i :: 0 <= i < |results| ==> |results[i].data| <= EffectiveFrameMax(frameMax)
    ensures Pumped(events, closed, results, EffectiveFrameMax(frameMax))
  {
    events := [];
    var i := 0;
    PumpStarts(results, EffectiveFrameMax(frameMax));
    while i < |results|
      invariant 0 <= i <= |results| && Pumping(events, results, i, EffectiveFrameMax(frameMax))
    {
      var r := results[i];
      ghost var before := events;
      if |r.data| > 0 {
        events := events + [Data(r.data)];
      }
      if r.err.Some? {
        ReadLast(before, results, i, EffectiveFrameMax(frameMax));
        return events + [Ended(r.err.value)], true;
      }
      ReadOn(before, results, i, EffectiveFrameMax(frameMax));
      i := i + 1;
    }
    NoMoreReads(events, results, EffectiveFrameMax(frameMax));
    return events, false;
  }

  /** The pump has passed on the first i results, none of which ended it. */
  ghost predicate Pumping(events: seq<StdoutEvent>, results: seq<ReadResult>, i: nat, frameMax: int)
    requires i <= |results|
  {
    && Chunks(events, frameMax)
    && Gathered(events) + HostOutput(results[i..]) == HostOutput(results)
    && HostEnd(results[i..]) == HostEnd(results)
    && |events| + EventCount(results[i..]) == EventCount(results)
  }

  lemma PumpStarts(results: seq<ReadResult>, frameMax: int)
    ensures Pumping([], results, 0, frameMax)
  {
    assert results[0..] == results;
  }

  function Passed(events: seq<StdoutEvent>, data: Bytes): seq<StdoutEvent> {
    if |data| > 0 then events + [Data(data)] else events
  }

  lemma PassedGathered(events: seq<StdoutEvent>, data: Bytes)
    ensures Gathered(Passed(events, data)) == Gathered(events) + data
  {
    GatheredAppend(events, Data(data));
  }

  lemma HostOnce(results: seq<ReadResult>, i: nat)
    requires i < |results|
    ensures HostOutput(results[i..]) == results[i].data + (if results[i].err.None? then HostOutput(results[i + 1..]) else [])
    ensures HostEnd(results[i..]) == if results[i].err.Some? then results[i].err else HostEnd(results[i + 1..])
    ensures EventCount(results[i..]) ==
      (if |results[i].data| > 0 then 1 else 0) + (if results[i].err.Some? then 1 else EventCount(results[i + 1..]))
  {
    assert results[i..][0] == results[i] && results[i..][1..] == results[i + 1..];
  }

  lemma ReadOn(events: seq<StdoutEvent>, results: seq<ReadResult>, i: nat, frameMax: int)
    requires i < |results| && Pumping(events, results, i, frameMax) && |results[i].data| <= frameMax && results[i].err.None?
    ensures Pumping(Passed(events, results[i].data), results, i + 1, frameMax)
  {
    var r := results[i];
    PassedGathered(events, r.data);
    HostOnce(results, i);
    Regroup(Gathered(events), r.data, HostOutput(results[i + 1..]));
  }

  lemma Regroup(a: Bytes, b: Bytes, c: Bytes)
    ensures a + (b + c) == (a + b) + c
  {
  }

  lemma ReadLast(events: seq<StdoutEvent>, results: seq<ReadResult>, i: nat, frameMax: int)
    requires i < |results| && Pumping(events, results, i, frameMax) && |results[i].data| <= frameMax && results[i].err.Some?
    ensures Pumped(Passed(events, results[i].data) + [Ended(results[i].err.value)], true, results, frameMax)
  {
    var r := results[i];
    var next := Passed(events, r.data);
    PassedGathered(events, r.data);
    HostOnce(results, i);
    GatheredAppend(next, Ended(r.err.value));
    assert (next + [Ended(r.err.value)])[..|next|] == next;
  }

  lemma NoMoreReads(events: seq<StdoutEvent>, results: seq<ReadResult>, frameMax: int)
    requires Pumping(events, results, |results|, frameMax)
    ensures Pumped(events, false, results, frameMax)
  {
  }

  // ---- the attach runtime ----

  datatype ClientFrame = AttachAgain | Stdin(payload: Bytes) | Resize | Detach | Empty

  datatype ClientEvent = RecvFailed | Frame(frame: ClientFrame)

  /** What became of a client frame outside the service: limiter, host stdin, host resize. */
  datatype Outcome = Outcome(limited: Option<string>, failed: Option<string>)

  /** One round of the select: which channel was taken and how a send in that round went. */
  datatype Pick =
    | TakeStdout(sendOk: bool)
    | TakeClient(event: Option<ClientEvent>, outcome: Outcome, sendOk: bool)
    | TakeExit(info: ExitInfo, err: Option<string>, sendOk: bool)

  /** A pick in which the client stays connected and a frame gets through. */
  predicate Smooth(p: Pick) {
    p.sendOk && (p.TakeClient? ==> p.event != Some(RecvFailed))
  }

  // Why a client frame ends the attach.

  predicate Oversize(f: ClientFrame, frameMax: int) {
    f.Stdin? && |f.payload| > frameMax
  }

  predicate InputLimited(f: ClientFrame, o: Outcome, frameMax: int) {
    f.Stdin? && |f.payload| <= frameMax && o.limited.Some?
  }

  /** The host's input or its terminal size could not be written. */
  predicate HostFailed(f: ClientFrame, o: Outcome, frameMax: int) {
    o.failed.Some? && (f.Resize? || (f.Stdin? && |f.payload| <= frameMax && o.limited.None?))
  }

  /** Neither input, nor a size, nor a detach. */
  predicate Misplaced(f: ClientFrame) {
    !f.Stdin? && !f.Resize? && !f.Detach?
  }

  predicate Refused(f: ClientFrame, o: Outcome, frameMax: int) {
    Oversize(f, frameMax) || InputLimited(f, o, frameMax) || HostFailed(f, o, frameMax) || Misplaced(f)
  }

  /** The kind of error each refusal is reported as. */
  predicate ReportedAs(f: ClientFrame, o: Outcome, frameMax: int, kind: ErrorKind) {
    && (Oversize(f, frameMax) || Misplaced(f) ==> kind == Protocol)
    && (InputLimited(f, o, frameMax) ==> kind == RateLimited)
    && (HostFailed(f, o, frameMax) ==> kind == Internal)
  }

  /** What handleClientFrame makes of a frame: nothing more, a detach, or an error to report. */
  datatype Verdict = Carry | Leave | Reject(kind: ErrorKind, message: string)

  /** The input a pick brings to the host, if the client is still listened to. */
  function TypedBy(p: Pick, frameMax: int): Bytes {
    if p.TakeClient? && p.event.Some? && p.event.value.Frame? && p.event.value.frame.Stdin?
       && !Refused(p.event.value.frame, p.outcome, frameMax)
    then p.event.value.frame.payload else []
  }

  /** After this pick the client is not listened to any more: its channel is closed, it is gone, or it detached. */
  predicate EndsListening(p: Pick) {
    p.TakeClient? && (p.event.None? || p.event.value.RecvFailed? || p.event.value.frame.Detach?)
  }

  predicate Listening(picks: seq<Pick>) {
    forall i :: 0 <= i < |picks| ==> !EndsListening(picks[i])
  }

  /** All input the picks bring, in order. */
  function TypedIn(picks: seq<Pick>, frameMax: int): Bytes {
    if picks == [] then []
    else
      var most := picks[..|picks| - 1];
      TypedIn(most, frameMax) + (if Listening(most) then TypedBy(picks[|picks| - 1], frameMax) else [])
  }

  /** The trace as it was, or closed by one Error frame. */
  predicate ErrorAdded(before: seq<ServerFrame>, after: seq<ServerFrame>) {
    after == before || (|after| == |before| + 1 && after[..|before|] == before && after[|before|].Error?)
  }

  lemma ErrorAddsNoOutput(before: seq<ServerFrame>, after: seq<ServerFrame>)
    requires ErrorAdded(before, after)
    ensures Payload(after) == Payload(before)
  {
    if after != before {
      assert after == before + [after[|before|]];
      PayloadAppend(before, after[|before|]);
    }
  }

  /** A pick that makes the handler give up: a client frame it rejects, or a Wait that failed. */
  predicate Faulty(p: Pick, frameMax: int) {
    match p
    case TakeStdout(_) => false
    case TakeClient(event, outcome, _) =>
      event.Some? && event.value.Frame? && Refused(event.value.frame, outcome, frameMax)
    case TakeExit(_, err, _) => err.Some?
  }

  predicate Faultless(picks: seq<Pick>, frameMax: int) {
    forall i :: 0 <= i < |picks| ==> !Faulty(picks[i], frameMax)
  }

  class AttachRuntime {
    const frameMax: int
    var sent: seq<ServerFrame>
    var log: seq<Effect>
    var streamOpen: bool
    var stdoutClosed: bool
    var hostExited: bool
    var exitInfo: ExitInfo
    var shutdownDone: bool
    /** What was written to the host's input. */
    var typed: Bytes
    /** Every send since the attach worked and the client is connected. */
    ghost var smooth: bool

    /** Attached and output frames so far, and a host that is alive or already waited for. */
    ghost predicate Valid(sid: string)
      reads this
    {
      && Open(sent, frameMax) && sent[0] == Attached(sid)
      && (Standing(log) == Some(Hosting(sid)) || Standing(log) == Some(Waited(sid)))
      && (hostExited ==> Standing(log) == Some(Waited(sid)))
      && (smooth ==> streamOpen)
    }

    /** The handler has stopped: the trace is closed by an error, or was cut off by a failed send; nobody lives. */
    ghost predicate Stopped(sid: string)
      reads this
    {
      && Standing(log) == Some(Waited(sid)) && sent != [] && sent[0] == Attached(sid)
      && (Open(sent, frameMax) || (Complete(sent, frameMax) && sent[|sent| - 1].Error?))
      && (smooth ==> Complete(sent, frameMax))
    }

    constructor (frameMax: int, sent: seq<ServerFrame>, log: seq<Effect>)
      ensures this.frameMax == frameMax && this.sent == sent && this.log == log
      ensures streamOpen && !stdoutClosed && !hostExited && smooth && typed == []
    {
      this.frameMax, this.sent, this.log := frameMax, sent, log;
      streamOpen, stdoutClosed, hostExited, shutdownDone := true, false, false, false;
      exitInfo := ExitInfo(0, 0);
      typed := [];
      smooth := true;
    }

    method Shutdown()
      modifies this`shutdownDone
      ensures shutdownDone
    {
      if !shutdownDone {
        shutdownDone := true;
      }
    }

    method CloseStream()
      modifies this`streamOpen, this`shutdownDone, this`smooth
      ensures !streamOpen && !smooth && shutdownDone
    {
      streamOpen := false;
      smooth := false;
      Shutdown();
    }

    /** host.Wait returned. */
    method WaitHost(sid: string)
      requires Valid(sid)
      modifies this`log
      ensures Valid(sid) && Standing(log) == Some(Waited(sid))
    {
      StandingAfter(log, HostWaited);
      log := log + [HostWaited];
    }

    /** Whether the handler stops: it does unless the stream is closed. */
    method SendApplicationError(kind: ErrorKind, message: string, sendOk: bool, sid: string) returns (stop: bool)
      requires Valid(sid) && Standing(log) == Some(Waited(sid))
      modifies this`sent, this`smooth
      ensures stop == streamOpen
      ensures sent == if stop && sendOk then old(sent) + [ErrorFrame(kind, message)] else old(sent)
      ensures ErrorAdded(old(sent), sent)
      ensures if stop then Stopped(sid) else Valid(sid)
      ensures smooth == (old(smooth) && sendOk)
    {
      smooth := smooth && sendOk;
      if !streamOpen {
        return false;
      }
      if sendOk {
        ErrorCloses(sent, frameMax, ErrorFrame(kind, message));
        sent := sent + [ErrorFrame(kind, message)];
      }
      return true;
    }

    method HandleStdout(event: Option<StdoutEvent>, sendOk: bool, sid: string) returns (stop: bool, more: bool)
      requires Valid(sid)
      requires event.Some? && event.value.Data? ==> |event.value.data| <= frameMax
      modifies this
      ensures if stop then Stopped(sid) else Valid(sid)
      ensures hostExited == old(hostExited) && exitInfo == old(exitInfo) && typed == old(typed)
      ensures smooth == (old(smooth) && sendOk)
      ensures stop ==> event.Some? && event.value.Ended? && event.value.err != Eof && ErrorAdded(old(sent), sent)
      ensures !stop && !streamOpen ==> sent == old(sent)
      ensures !stop && streamOpen ==> old(streamOpen) && (event.Some? ==> event.value.Data? || event.value.err == Eof)
      ensures !stop && streamOpen ==>
        Payload(sent) == Payload(old(sent)) + (if event.Some? && event.value.Data? then event.value.data else [])
      ensures !stop ==> more == (event.Some? && (event.value.Data? || event.value.err != Eof))
      ensures !stop ==> stdoutClosed == (old(stdoutClosed) || !more)
    {
      smooth := smooth && sendOk;
      if event.None? {
        stdoutClosed := true;
        return false, false;
      }
      match event.value {
        case Ended(err) =>
          stop, more := HandleStdoutError(err, sendOk, sid);
        case Data(data) =>
          Forward(data, sendOk, sid);
          return false, true;
      }
    }

    method HandleStdoutError(err: ReadErr, sendOk: bool, sid: string) returns (stop: bool, more: bool)
      requires Valid(sid) && (smooth ==> sendOk)
      modifies this
      ensures if stop then Stopped(sid) else Valid(sid)
      ensures hostExited == old(hostExited) && exitInfo == old(exitInfo) && smooth == old(smooth) && streamOpen == old(streamOpen)
      ensures typed == old(typed)
      ensures stop == (err != Eof && streamOpen) && more == (err != Eof)
      ensures !stop ==> sent == old(sent) && stdoutClosed == (old(stdoutClosed) || err == Eof)
      ensures ErrorAdded(old(sent), sent)
    {
      if err == Eof {
        stdoutClosed := true;
        return false, false;
      }
      stop := StopWith(Internal, err.message, sendOk, sid);
      return stop, true;
    }

    /** Shuts the host down, waits for it, and sends the error. */
    method StopWith(kind: ErrorKind, message: string, sendOk: bool, sid: string) returns (stop: bool)
      requires Valid(sid)
      modifies this`shutdownDone, this`log, this`sent, this`smooth
      ensures stop == streamOpen && shutdownDone
      ensures sent == if stop && sendOk then old(sent) + [ErrorFrame(kind, message)] else old(sent)
      ensures ErrorAdded(old(sent), sent)
      ensures if stop then Stopped(sid) else Valid(sid)
      ensures smooth == (old(smooth) && sendOk)
    {
      Shutdown();
      WaitHost(sid);
      stop := SendApplicationError(kind, message, sendOk, sid);
    }

    method Forward(data: Bytes, sendOk: bool, sid: string)
      requires Valid(sid) && |data| <= frameMax && (smooth ==> sendOk)
      modifies this
      ensures Valid(sid)
      ensures hostExited == old(hostExited) && exitInfo == old(exitInfo) && stdoutClosed == old(stdoutClosed)
      ensures smooth == old(smooth) && typed == old(typed)
      ensures streamOpen ==> old(streamOpen) && Payload(sent) == Payload(old(sent)) + data
      ensures !streamOpen ==> sent == old(sent)
    {
      if |data| == 0 || !streamOpen {
        return;
      }
      if sendOk {
        PayloadAppend(sent, Stdout(data));
        OutputExtends(sent, frameMax, Stdout(data));
        sent := sent + [Stdout(data)];
      } else {
        CloseStream();
      }
    }

    /** handleClientFrame: the frame's effect on the host, and what the handler is to do. */
    method HandleClientFrame(f: ClientFrame, o: Outcome) returns (verdict: Verdict)
      modifies this`typed
      ensures verdict.Reject? <==> Refused(f, o, frameMax)
      ensures verdict.Reject? ==> ReportedAs(f, o, frameMax, verdict.kind)
      ensures verdict.Leave? <==> f.Detach?
      ensures typed == old(typed) + (if f.Stdin? && !Refused(f, o, frameMax) then f.payload else [])
    {
      match f {
        case Stdin(payload) =>
          if |payload| > frameMax {
            return Reject(Protocol, "ptyservice: client frame exceeds max bytes");
          }
          if o.limited.Some? {
            return Reject(RateLimited, "stdin limited: " + o.limited.value);
          }
          if o.failed.Some? {
            return Reject(Internal, o.failed.value);
          }
          typed := typed + payload;
          return Carry;
        case Resize =>
          if o.failed.Some? {
            return Reject(Internal, o.failed.value);
          }
          return Carry;
        case Detach => return Leave;
        case AttachAgain => return Reject(Protocol, "ptyservice: first client frame must be attach");
        case Empty => return Reject(Protocol, "ptyservice: first client frame must be attach");
      }
    }

    method HandleClient(event: Option<ClientEvent>, outcome: Outcome, sendOk: bool, sid: string) returns (stop: bool, more: bool)
      requires Valid(sid)
      modifies this
      ensures if stop then Stopped(sid) else Valid(sid)
      ensures hostExited == old(hostExited) && exitInfo == old(exitInfo) && stdoutClosed == old(stdoutClosed)
      ensures smooth ==> old(smooth)
      ensures old(smooth) && Smooth(TakeClient(event, outcome, sendOk)) ==> smooth
      ensures !stop ==> sent == old(sent) && (streamOpen ==> old(streamOpen))
      // it stops exactly on a refused frame, unless the stream is closed, and says why
      ensures stop <==> old(streamOpen) && Faulty(TakeClient(event, outcome, sendOk), frameMax)
      ensures stop ==> ErrorAdded(old(sent), sent) && shutdownDone
      ensures stop && sendOk ==> |sent| == |old(sent)| + 1
      ensures stop && sendOk ==> ReportedAs(event.value.frame, outcome, frameMax, sent[|old(sent)|].kind)
      // otherwise it goes on listening, but after a detach, which shuts the host down and is no fault
      ensures !stop ==> more == !EndsListening(TakeClient(event, outcome, sendOk))
      ensures event == Some(Frame(Detach)) ==> !stop && shutdownDone && sent == old(sent) && streamOpen == old(streamOpen)
      ensures event == Some(RecvFailed) ==> shutdownDone && !streamOpen
      ensures typed == old(typed) + TypedBy(TakeClient(event, outcome, sendOk), frameMax)
    {
      if event.None? {
        return false, false;
      }
      if event.value.RecvFailed? {
        CloseStream();
        return false, false;
      }
      var verdict := HandleClientFrame(event.value.frame, outcome);
      match verdict {
        case Reject(kind, message) =>
          stop := StopWith(kind, message, sendOk, sid);
          return stop, true;
        case Leave =>
          Shutdown();
          return false, false;
        case Carry => return false, true;
      }
    }

    method HandleExit(info: ExitInfo, err: Option<string>, sendOk: bool, sid: string) returns (stop: bool)
      requires Valid(sid)
      modifies this
      ensures if stop then Stopped(sid) else Valid(sid)
      ensures hostExited && exitInfo == info && stdoutClosed == old(stdoutClosed) && typed == old(typed)
      ensures smooth == (old(smooth) && sendOk) && streamOpen == old(streamOpen)
      ensures !stop ==> sent == old(sent)
      ensures stop ==> err.Some? && ErrorAdded(old(sent), sent)
    {
      WaitHost(sid);
      hostExited := true;
      exitInfo := info;
      if err.Some? {
        stop := SendApplicationError(Internal, err.value, sendOk, sid);
        return;
      }
      smooth := smooth && sendOk;
      return false;
    }
  }

  lemma ErrorCloses(fs: seq<ServerFrame>, frameMax: int, e: ServerFrame)
    requires Open(fs, frameMax) && (e.Error? || e.Exited?)
    ensures Complete(fs + [e], frameMax) && Payload(fs + [e]) == Payload(fs)
  {
    PayloadAppend(fs, e);
    assert (fs + [e])[1..|fs|] == fs[1..];
  }

  lemma OutputExtends(fs: seq<ServerFrame>, frameMax: int, f: ServerFrame)
    requires Open(fs, frameMax) && Output(f, frameMax)
    ensures Open(fs + [f], frameMax)
  {
    assert (fs + [f])[1..] == fs[1..] + [f];
  }

  // ---- the attached loop ----

  /** The exit information the trace must carry: the one the first TakeExit of the schedule brings. */
  function FirstExit(picks: seq<Pick>): Option<ExitInfo> {
    if picks == [] then None
    else if picks[0].TakeExit? then Some(picks[0].info) else FirstExit(picks[1..])
  }

  lemma {:induction false} FirstExitPrefix(picks: seq<Pick>, i: nat)
    requires i < |picks|
    ensures FirstExit(picks[..i + 1]) ==
      if FirstExit(picks[..i]).Some? then FirstExit(picks[..i]) else if picks[i].TakeExit? then Some(picks[i].info) else None
  {
    assert picks[..i + 1] == picks[..i] + [picks[i]];
    FirstExitAppend(picks[..i], picks[i]);
  }

  lemma {:induction false} FirstExitAppend(picks: seq<Pick>, p: Pick)
    ensures FirstExit(picks + [p]) ==
      if FirstExit(picks).Some? then FirstExit(picks) else if p.TakeExit? then Some(p.info) else None
  {
    if picks == [] {
      assert picks + [p] == [p];
    } else {
      assert (picks + [p])[1..] == picks[1..] + [p];
      FirstExitAppend(picks[1..], p);
    }
  }

  /** How often the schedule takes from the output channel. */
  function StdoutTurns(picks: seq<Pick>): nat {
    if picks == [] then 0
    else StdoutTurns(picks[..|picks| - 1]) + (if picks[|picks| - 1].TakeStdout? then 1 else 0)
  }

  /** The host's output ends, its exit is taken, and so is every event of its output and the closed channel. */
  predicate CanFinish(picks: seq<Pick>, results: seq<ReadResult>) {
    HostEnd(results).Some? && FirstExit(picks).Some? && StdoutTurns(picks) > EventCount(results)
  }

  predicate AllSmooth(picks: seq<Pick>) {
    forall i :: 0 <= i < |picks| ==> Smooth(picks[i])
  }

  /** The channels as the loop sees them: how many output events were taken, which channels are still live. */
  datatype Chans = Chans(taken: nat, stdoutLive: bool, clientLive: bool, exitTaken: bool)

  datatype Pump = Pump(events: seq<StdoutEvent>, closed: bool)

  ghost predicate Looping(r: AttachRuntime, sid: string, p: Pump, results: seq<ReadResult>, c: Chans)
    reads r
  {
    && r.Valid(sid) && Pumped(p.events, p.closed, results, r.frameMax) && c.taken <= |p.events|
    && r.hostExited == c.exitTaken
    && (r.streamOpen && c.stdoutLive ==> Chunks(p.events[..c.taken], r.frameMax))
    && (r.streamOpen ==> Payload(r.sent) == Gathered(p.events[..c.taken]))
    && (r.streamOpen && r.stdoutClosed ==> p.closed && c.taken == |p.events| && HostEnd(results) == Some(Eof))
    && (!c.stdoutLive ==> r.stdoutClosed) && Payload(r.sent) <= Gathered(p.events)
  }

  lemma {:induction false} GatheredPrefix(events: seq<StdoutEvent>, n: nat)
    requires n <= |events|
    ensures Gathered(events[..n]) <= Gathered(events)
    decreases |events|
  {
    if n < |events| {
      var most := events[..|events| - 1];
      assert most[..n] == events[..n];
      GatheredPrefix(most, n);
    } else {
      assert events[..n] == events;
    }
  }

  /** The output channel moves on, or is done with. */
  predicate Drains(p: Pump, c: Chans, next: Chans, pick: Pick) {
    && (!c.stdoutLive ==> !next.stdoutLive) && c.taken <= next.taken
    && (pick.TakeStdout? && p.closed ==> !next.stdoutLive || next.taken == c.taken + 1)
  }

  lemma NextTaken(p: Pump, results: seq<ReadResult>, frameMax: int, n: nat)
    requires Pumped(p.events, p.closed, results, frameMax) && n < |p.events|
    ensures p.events[..n + 1] == p.events[..n] + [p.events[n]]
    ensures Gathered(p.events[..n + 1]) == Gathered(p.events[..n]) + (if p.events[n].Data? then p.events[n].data else [])
    ensures p.events[n].Data? ==> 0 < |p.events[n].data| <= frameMax
    ensures p.events[n].Data? && Chunks(p.events[..n], frameMax) ==> Chunks(p.events[..n + 1], frameMax)
    ensures Gathered(p.events[..n + 1]) <= Gathered(p.events)
    ensures p.events[n].Ended? ==> p.closed && n + 1 == |p.events| && HostEnd(results) == Some(p.events[n].err)
  {
    assert p.events[..n + 1] == p.events[..n] + [p.events[n]];
    GatheredAppend(p.events[..n], p.events[n]);
    GatheredPrefix(p.events, n + 1);
    if p.closed && n + 1 < |p.events| {
      assert p.events[..|p.events| - 1][n] == p.events[n];
    }
  }

  /** One event of the output, or the closed channel, is taken. */
  ghost predicate StdoutTaken(r: AttachRuntime, sid: string, p: Pump, results: seq<ReadResult>, c: Chans, stop: bool, next: Chans)
    reads r
  {
    && (if stop then r.Stopped(sid) && HostEnd(results) != Some(Eof) else Looping(r, sid, p, results, next))
    && next.exitTaken == c.exitTaken && next.clientLive == c.clientLive && (!stop ==> Drains(p, c, next, TakeStdout(true)))
  }

  method TakeClosed(r: AttachRuntime, sid: string, p: Pump, ghost results: seq<ReadResult>, c: Chans, sendOk: bool)
    returns (stop: bool, next: Chans)
    requires Looping(r, sid, p, results, c) && c.stdoutLive && c.taken == |p.events| && p.closed
    modifies r
    ensures StdoutTaken(r, sid, p, results, c, stop, next) && r.exitInfo == old(r.exitInfo) && r.typed == old(r.typed)
    ensures r.smooth == (old(r.smooth) && sendOk) && (stop ==> ErrorAdded(old(r.sent), r.sent))
  {
    var more;
    assert p.events[..c.taken] == p.events && p.events[|p.events| - 1].Ended?;
    assert !r.streamOpen;
    stop, more := r.HandleStdout(None, sendOk, sid);
    next := c.(stdoutLive := more);
  }

  method TakeEvent(r: AttachRuntime, sid: string, p: Pump, ghost results: seq<ReadResult>, c: Chans, sendOk: bool)
    returns (stop: bool, next: Chans)
    requires Looping(r, sid, p, results, c) && c.stdoutLive && c.taken < |p.events|
    modifies r
    ensures StdoutTaken(r, sid, p, results, c, stop, next) && r.exitInfo == old(r.exitInfo) && r.typed == old(r.typed)
    ensures r.smooth == (old(r.smooth) && sendOk) && (stop ==> ErrorAdded(old(r.sent), r.sent))
  {
    NextTaken(p, results, r.frameMax, c.taken);
    var more;
    stop, more := r.HandleStdout(Some(p.events[c.taken]), sendOk, sid);
    next := c.(taken := c.taken + 1, stdoutLive := more);
  }

  /** One round of the select; a channel that is not ready leaves everything as it is. */
  method Round(r: AttachRuntime, sid: string, p: Pump, ghost results: seq<ReadResult>, c: Chans, pick: Pick)
    returns (stop: bool, next: Chans)
    requires Looping(r, sid, p, results, c)
    modifies r
    ensures if stop then r.Stopped(sid) else Looping(r, sid, p, results, next)
    ensures next.exitTaken == (c.exitTaken || pick.TakeExit?)
    ensures r.exitInfo == if !c.exitTaken && pick.TakeExit? then pick.info else old(r.exitInfo)
    ensures old(r.smooth) && Smooth(pick) ==> r.smooth
    ensures stop ==> Faulty(pick, r.frameMax) || HostEnd(results) != Some(Eof)
    ensures if stop then ErrorAdded(old(r.sent), r.sent) else Drains(p, c, next, pick)
    ensures r.typed == old(r.typed) + (if c.clientLive then TypedBy(pick, r.frameMax) else [])
    ensures !stop ==> next.clientLive == (c.clientLive && !EndsListening(pick))
  {
    stop, next := false, c;
    match pick {
      case TakeStdout(sendOk) =>
        if c.stdoutLive && (c.taken < |p.events| || p.closed) {
          if c.taken == |p.events| {
            stop, next := TakeClosed(r, sid, p, results, c, sendOk);
          } else {
            stop, next := TakeEvent(r, sid, p, results, c, sendOk);
          }
        }
      case TakeClient(event, outcome, sendOk) =>
        if c.clientLive {
          var more;
          stop, more := r.HandleClient(event, outcome, sendOk, sid);
          next := c.(clientLive := more);
        }
      case TakeExit(info, err, sendOk) =>
        if !c.exitTaken {
          stop := r.HandleExit(info, err, sendOk, sid);
          next := c.(exitTaken := true);
        }
    }
  }

  /** What the frames of an attached handler promise. */
  ghost predicate FramesOk(
      fs: seq<ServerFrame>, sid: string, results: seq<ReadResult>, picks: seq<Pick>, frameMax: int, finishOk: bool, returned: bool)
  {
    && Trace(fs, frameMax) && fs != [] && fs[0] == Attached(sid) && (!returned ==> Open(fs, frameMax))
    && Payload(fs) <= HostOutput(results)
    && (fs[|fs| - 1].Exited? ==> ExitedOk(fs, results, picks) && returned)
    && (CanFinish(picks, results) ==> returned)
    && (returned && AllSmooth(picks) && finishOk ==>
          Complete(fs, frameMax) && (Faultless(picks, frameMax) && HostEnd(results) == Some(Eof) ==> fs[|fs| - 1].Exited?))
  }

  /** A trace that ends in Exited carries the host's whole output and what Wait returned. */
  ghost predicate ExitedOk(fs: seq<ServerFrame>, results: seq<ReadResult>, picks: seq<Pick>)
    requires fs != [] && fs[|fs| - 1].Exited?
  {
    && Payload(fs) == HostOutput(results) && HostEnd(results) == Some(Eof)
    && FirstExit(picks) == Some(ExitInfo(fs[|fs| - 1].code, fs[|fs| - 1].signal))
  }

  /** What an attached handler leaves behind: its frames, and no host when it has returned. */
  ghost predicate HandlerLeaves(
      r: AttachRuntime, sid: string, results: seq<ReadResult>, picks: seq<Pick>, finishOk: bool, returned: bool, used: nat)
    reads r
  {
    && used <= |picks| && (!returned ==> used == |picks|) && r.typed == TypedIn(picks[..used], r.frameMax)
    && FramesOk(r.sent, sid, results, picks, r.frameMax, finishOk, returned)
    && (Standing(r.log) == Some(Waited(sid)) || (!returned && Standing(r.log) == Some(Hosting(sid))))
  }

  /** The loop after the picks in `done`, none of which stopped it. */
  ghost predicate RunSoFar(r: AttachRuntime, sid: string, p: Pump, results: seq<ReadResult>, c: Chans, done: seq<Pick>)
    reads r
  {
    && Looping(r, sid, p, results, c)
    && FirstExit(done) == (if c.exitTaken then Some(r.exitInfo) else None)
    && (AllSmooth(done) ==> r.smooth)
    && (p.closed && c.stdoutLive ==> StdoutTurns(done) <= c.taken)
    && c.clientLive == Listening(done) && r.typed == TypedIn(done, r.frameMax)
  }

  lemma OneMorePick(done: seq<Pick>, pick: Pick)
    ensures FirstExit(done + [pick]) ==
      if FirstExit(done).Some? then FirstExit(done) else if pick.TakeExit? then Some(pick.info) else None
    ensures AllSmooth(done + [pick]) <==> AllSmooth(done) && Smooth(pick)
    ensures StdoutTurns(done + [pick]) == StdoutTurns(done) + (if pick.TakeStdout? then 1 else 0)
    ensures Listening(done + [pick]) <==> Listening(done) && !EndsListening(pick)
  {
    var more := done + [pick];
    FirstExitAppend(done, pick);
    assert more[..|done|] == done && more[|done|] == pick;
    assert forall i :: 0 <= i < |done| ==> more[i] == done[i];
  }

  lemma OneMoreTyped(done: seq<Pick>, pick: Pick, frameMax: int)
    ensures TypedIn(done + [pick], frameMax) == TypedIn(done, frameMax) + (if Listening(done) then TypedBy(pick, frameMax) else [])
  {
    assert (done + [pick])[..|done|] == done;
  }

  /** One more round: the loop goes on, or the handler has stopped for good. */
  method RoundOn(
      r: AttachRuntime, sid: string, p: Pump, ghost results: seq<ReadResult>, c: Chans, picks: seq<Pick>, i: nat, ghost finishOk: bool)
    returns (stop: bool, next: Chans)
    requires i < |picks| && RunSoFar(r, sid, p, results, c, picks[..i])
    modifies r
    ensures if stop then HandlerLeaves(r, sid, results, picks, finishOk, true, i + 1) else RunSoFar(r, sid, p, results, next, picks[..i + 1])
  {
    ghost var before := r.sent;
    assert picks[..i + 1] == picks[..i] + [picks[i]];
    stop, next := RoundAfter(r, sid, p, results, c, picks[i], picks[..i]);
    if stop {
      StoppedFrames(r, sid, before, results, picks, i, finishOk);
    }
  }

  method RoundAfter(r: AttachRuntime, sid: string, p: Pump, ghost results: seq<ReadResult>, c: Chans, pick: Pick, ghost done: seq<Pick>)
    returns (stop: bool, next: Chans)
    requires RunSoFar(r, sid, p, results, c, done)
    modifies r
    ensures !stop ==> RunSoFar(r, sid, p, results, next, done + [pick])
    ensures stop ==> r.Stopped(sid) && ErrorAdded(old(r.sent), r.sent) && (AllSmooth(done + [pick]) ==> r.smooth)
    ensures r.typed == TypedIn(done + [pick], r.frameMax)
    ensures stop ==> Payload(old(r.sent)) <= HostOutput(results) && (Faulty(pick, r.frameMax) || HostEnd(results) != Some(Eof))
  {
    OneMorePick(done, pick);
    OneMoreTyped(done, pick, r.frameMax);
    stop, next := Round(r, sid, p, results, c, pick);
  }

  /** finish: the Exited frame, unless the stream is closed. */
  method Finish(
      r: AttachRuntime, sid: string, p: Pump, ghost results: seq<ReadResult>, ghost picks: seq<Pick>, c: Chans, ghost i: nat, sendOk: bool)
    requires i <= |picks| && RunSoFar(r, sid, p, results, c, picks[..i]) && r.hostExited && r.stdoutClosed
    modifies r`sent
    ensures HandlerLeaves(r, sid, results, picks, sendOk, true, i)
  {
    LoopOver(r, sid, p, results, c, picks, i);
    ghost var before := r.sent;
    if r.streamOpen && sendOk {
      r.sent := r.sent + [Exited(r.exitInfo.code, r.exitInfo.signal)];
      ExitedFrames(before, r.exitInfo, sid, p, results, c.taken, picks, r.frameMax, sendOk);
    } else {
      OpenFrames(before, sid, results, picks, r.frameMax, sendOk);
    }
  }

  lemma ExitedFrames(
      before: seq<ServerFrame>, info: ExitInfo, sid: string, p: Pump, results: seq<ReadResult>, taken: nat,
      picks: seq<Pick>, frameMax: int, finishOk: bool)
    requires Open(before, frameMax) && before[0] == Attached(sid) && FirstExit(picks) == Some(info)
    requires taken == |p.events| && Payload(before) == Gathered(p.events[..taken]) && Gathered(p.events) == HostOutput(results)
    requires HostEnd(results) == Some(Eof)
    ensures FramesOk(before + [Exited(info.code, info.signal)], sid, results, picks, frameMax, finishOk, true)
  {
    assert p.events[..taken] == p.events;
    ErrorCloses(before, frameMax, Exited(info.code, info.signal));
  }

  /** A trace cut off before its end is all there is when the stream was closed or the last frame was lost. */
  lemma OpenFrames(
      fs: seq<ServerFrame>, sid: string, results: seq<ReadResult>, picks: seq<Pick>, frameMax: int, finishOk: bool)
    requires Open(fs, frameMax) && fs[0] == Attached(sid) && Payload(fs) <= HostOutput(results)
    requires !(AllSmooth(picks) && finishOk)
    ensures FramesOk(fs, sid, results, picks, frameMax, finishOk, true)
  {
  }

  /** When the picks are used up and the loop is not over, they could not have finished it. */
  lemma CannotFinish(
      r: AttachRuntime, sid: string, p: Pump, results: seq<ReadResult>, c: Chans, picks: seq<Pick>, i: nat, finishOk: bool)
    requires i == |picks| && RunSoFar(r, sid, p, results, c, picks[..i]) && !(r.hostExited && r.stdoutClosed)
    ensures HandlerLeaves(r, sid, results, picks, finishOk, false, i)
  {
    assert picks[..i] == picks;
    assert !CanFinish(picks, results);
  }

  lemma StoppedFrames(
      r: AttachRuntime, sid: string, before: seq<ServerFrame>, results: seq<ReadResult>, picks: seq<Pick>, i: nat, finishOk: bool)
    requires i < |picks| && r.typed == TypedIn(picks[..i] + [picks[i]], r.frameMax)
    requires r.Stopped(sid) && ErrorAdded(before, r.sent) && Payload(before) <= HostOutput(results)
    requires (AllSmooth(picks[..i] + [picks[i]]) ==> r.smooth) && (Faulty(picks[i], r.frameMax) || HostEnd(results) != Some(Eof))
    ensures HandlerLeaves(r, sid, results, picks, finishOk, true, i + 1)
  {
    ErrorAddsNoOutput(before, r.sent);
    assert picks[..i + 1] == picks[..i] + [picks[i]];
    assert AllSmooth(picks) ==> AllSmooth(picks[..i + 1]);
  }

  lemma LoopOver(r: AttachRuntime, sid: string, p: Pump, results: seq<ReadResult>, c: Chans, picks: seq<Pick>, i: nat)
    requires i <= |picks| && RunSoFar(r, sid, p, results, c, picks[..i]) && r.hostExited
    ensures FirstExit(picks) == Some(r.exitInfo) && (AllSmooth(picks) ==> r.smooth)
  {
    FirstExitStays(picks, i);
    assert AllSmooth(picks) ==> AllSmooth(picks[..i]);
  }

  method RunAttached(r: AttachRuntime, sid: string, p: Pump, ghost results: seq<ReadResult>, picks: seq<Pick>, finishOk: bool)
    returns (returned: bool, used: nat)
    requires RunSoFar(r, sid, p, results, Chans(0, true, true, false), [])
    modifies r
    ensures HandlerLeaves(r, sid, results, picks, finishOk, returned, used)
  {
    var c := Chans(0, true, true, false);
    var i := 0;
    assert picks[..0] == [];
    while !(r.hostExited && r.stdoutClosed)
      invariant 0 <= i <= |picks| && RunSoFar(r, sid, p, results, c, picks[..i])
      decreases |picks| - i
    {
      if i == |picks| {
        CannotFinish(r, sid, p, results, c, picks, i, finishOk);
        return false, i;
      }
      var stop;
      stop, c := RoundOn(r, sid, p, results, c, picks, i, finishOk);
      if stop {
        return true, i + 1;
      }
      i := i + 1;
    }
    Finish(r, sid, p, results, picks, c, i, finishOk);
    return true, i;
  }

  lemma {:induction false} FirstExitStays(picks: seq<Pick>, i: nat)
    requires i <= |picks| && FirstExit(picks[..i]).Some?
    ensures FirstExit(picks) == FirstExit(picks[..i])
    decreases |picks| - i
  {
    if i < |picks| {
      FirstExitPrefix(picks, i);
      FirstExitStays(picks, i + 1);
    } else {
      assert picks[..i] == picks;
    }
  }

  // ---- the whole attach ----

  datatype FirstFrame = NoFrame | AttachFrame | OtherFrame

  datatype Spawned = SpawnError(message: string) | NilHost | HostStarted(results: seq<ReadResult>)

  /** What an attach meets on its way to the loop, in order. sendOk is the fate of the one frame sent before it. */
  datatype Setup = Setup(
    authenticated: bool,
    first: FirstFrame,
    daemonConnected: bool,
    claim: Claim,
    limited: Option<string>,
    planError: Option<string>,
    spawned: Spawned,
    sendOk: bool)

  /** The frames delivered, the effects performed, whether the handler returned, what it wrote to the host's input,
      and how many picks its loop took. */
  datatype Attempt = Attempt(frames: seq<ServerFrame>, log: seq<Effect>, returned: bool, typed: Bytes, used: nat)

  /** An attach that was turned away before it had a host to write to. */
  function TurnedAway(frames: seq<ServerFrame>, log: seq<Effect>): Attempt {
    Attempt(frames, log, true, [], 0)
  }

  /** The error an attach that is not admitted reports: the first check that failed. */
  function RefusalKind(setup: Setup): ErrorKind {
    if setup.first.OtherFrame? then Protocol
    else if !setup.daemonConnected then DaemonNotConnected
    else if setup.claim.Busy? then SessionBusy
    else if setup.claim.EmptyUser? then Internal
    else if setup.limited.Some? then RateLimited
    else SpawnFailed
  }

  function Refusal(kind: ErrorKind, message: string, sendOk: bool): seq<ServerFrame> {
    if sendOk then [ErrorFrame(kind, message)] else []
  }

  /** Every check before the loop was passed and a host runs. */
  predicate Admitted(setup: Setup) {
    && setup.authenticated && setup.first.AttachFrame? && setup.daemonConnected && setup.claim.Claimed?
    && setup.limited.None? && setup.planError.None? && setup.spawned.HostStarted?
  }

  /** The attach will return: it was turned away, its Attached frame was lost, or its host comes to an end. */
  predicate MustReturn(setup: Setup, picks: seq<Pick>) {
    !Admitted(setup) || !setup.sendOk || CanFinish(picks, setup.spawned.results)
  }

  /** An attach in which nothing goes wrong on either side. */
  predicate Undisturbed(setup: Setup, picks: seq<Pick>, frameMax: int, finishOk: bool) {
    && Admitted(setup) && setup.sendOk && AllSmooth(picks) && finishOk
    && Faultless(picks, frameMax) && HostEnd(setup.spawned.results) == Some(Eof)
  }

  /** What one attach promises, whatever happens around it. */
  ghost predicate AttachOk(a: Attempt, setup: Setup, picks: seq<Pick>, frameMax: int) {
    && Trace(a.frames, frameMax)
    && (a.frames != [] ==>
          if Admitted(setup) then a.frames[0] == Attached(setup.claim.sid)
          else a.frames[0].Error? && a.frames[0].kind == RefusalKind(setup))
    && a.used <= |picks| && a.typed == TypedIn(picks[..a.used], frameMax)
    && (Admitted(setup) && setup.sendOk && !a.returned ==> a.used == |picks|)
    && Standing(a.log).Some?
    && (!Standing(a.log).value.Idle? ==> setup.claim == Claimed(Standing(a.log).value.sid))
    && (a.returned ==> Standing(a.log).value.Idle? || Standing(a.log).value.Finished?)
    && (MustReturn(setup, picks) ==> a.returned)
    && Payload(a.frames) <= (if Admitted(setup) then HostOutput(setup.spawned.results) else [])
    && (a.frames != [] && a.frames[|a.frames| - 1].Exited? ==>
          && a.returned && setup.spawned.HostStarted? && HostEnd(setup.spawned.results) == Some(Eof)
          && Payload(a.frames) == HostOutput(setup.spawned.results)
          && FirstExit(picks) == Some(ExitInfo(a.frames[|a.frames| - 1].code, a.frames[|a.frames| - 1].signal)))
  }

  lemma FreedLog(log: seq<Effect>, sid: string)
    requires Standing(log) == Some(Reserved(sid)) || Standing(log) == Some(Waited(sid))
    ensures Standing(log + [Free(sid)]) == Some(Finished(sid))
  {
    StandingAfter(log, Free(sid));
  }

  /** What a handler that returns with this log has done to the slot table: nothing, or claimed and freed its id. */
  ghost predicate Settled(log: seq<Effect>, setup: Setup) {
    Standing(log) == Some(Idle) || (setup.claim.Claimed? && Standing(log) == Some(Finished(setup.claim.sid)))
  }

  lemma RefusedOk(setup: Setup, picks: seq<Pick>, frameMax: int, kind: ErrorKind, message: string, log: seq<Effect>)
    requires frameMax > 0 && !Admitted(setup) && kind == RefusalKind(setup) && Settled(log, setup)
    ensures AttachOk(TurnedAway(Refusal(kind, message, setup.sendOk), log), setup, picks, frameMax)
    ensures setup.sendOk ==> Complete(Refusal(kind, message, setup.sendOk), frameMax)
  {
    assert picks[..0] == [];
    if setup.sendOk {
      assert [] + [ErrorFrame(kind, message)] == [ErrorFrame(kind, message)];
      PayloadAppend([], ErrorFrame(kind, message));
    }
  }

  lemma UnansweredOk(setup: Setup, picks: seq<Pick>, frameMax: int, log: seq<Effect>)
    requires frameMax > 0 && Settled(log, setup) && !(Admitted(setup) && setup.sendOk)
    ensures AttachOk(TurnedAway([], log), setup, picks, frameMax)
  {
    assert picks[..0] == [];
  }

  /** The handler holding a slot: limiter, spawn, attached frame, loop, and the deferred release. */
  method HoldingSlot(sid: string, setup: Setup, frameMax: int, picks: seq<Pick>, finishOk: bool) returns (a: Attempt)
    requires frameMax > 0 && setup.authenticated && setup.first.AttachFrame? && setup.daemonConnected && setup.claim == Claimed(sid)
    requires setup.spawned.HostStarted? ==>
      forall i :: 0 <= i < |setup.spawned.results| ==> |setup.spawned.results[i].data| <= frameMax
    ensures AttachOk(a, setup, picks, frameMax)
    ensures a.returned && setup.sendOk && AllSmooth(picks) && finishOk ==> Complete(a.frames, frameMax)
    ensures a.returned && Undisturbed(setup, picks, frameMax, finishOk) ==> a.frames != [] && a.frames[|a.frames| - 1].Exited?
  {
    var log := [Reserve(sid)];
    assert Standing(log) == Some(Reserved(sid)) by { StandingAfter([], Reserve(sid)); assert [] + log == log; }
    FreedLog(log, sid);
    if setup.limited.Some? {
      RefusedOk(setup, picks, frameMax, RateLimited, setup.limited.value, log + [Free(sid)]);
      return TurnedAway(Refusal(RateLimited, setup.limited.value, setup.sendOk), log + [Free(sid)]);
    }
    if setup.planError.Some? {
      RefusedOk(setup, picks, frameMax, SpawnFailed, setup.planError.value, log + [Free(sid)]);
      return TurnedAway(Refusal(SpawnFailed, setup.planError.value, setup.sendOk), log + [Free(sid)]);
    }
    match setup.spawned {
      case SpawnError(message) =>
        RefusedOk(setup, picks, frameMax, SpawnFailed, message, log + [Free(sid)]);
        return TurnedAway(Refusal(SpawnFailed, message, setup.sendOk), log + [Free(sid)]);
      case NilHost =>
        RefusedOk(setup, picks, frameMax, SpawnFailed, "ptyservice: nil host", log + [Free(sid)]);
        return TurnedAway(Refusal(SpawnFailed, "ptyservice: nil host", setup.sendOk), log + [Free(sid)]);
      case HostStarted(results) =>
        StandingAfter(log, SpawnHost);
        log := log + [SpawnHost];
        if !setup.sendOk {
          StandingAfter(log, HostWaited);
          log := log + [HostWaited];
          FreedLog(log, sid);
          UnansweredOk(setup, picks, frameMax, log + [Free(sid)]);
          return TurnedAway([], log + [Free(sid)]);
        }
        a := Hosted(sid, results, log, frameMax, picks, finishOk);
    }
  }

  /** runAttached, and the release that follows it. */
  method Hosted(sid: string, results: seq<ReadResult>, log: seq<Effect>, frameMax: int, picks: seq<Pick>, finishOk: bool)
    returns (a: Attempt)
    requires frameMax > 0 && Standing(log) == Some(Hosting(sid))
    requires forall i :: 0 <= i < |results| ==> |results[i].data| <= frameMax
    ensures FramesOk(a.frames, sid, results, picks, frameMax, finishOk, a.returned)
    ensures a.used <= |picks| && a.typed == TypedIn(picks[..a.used], frameMax) && (!a.returned ==> a.used == |picks|)
    ensures Standing(a.log).Some? && !Standing(a.log).value.Idle? && Standing(a.log).value.sid == sid
    ensures a.returned ==> Standing(a.log).value.Finished?
  {
    var events, closed := PumpStdout(results, frameMax);
    var r := new AttachRuntime(frameMax, [Attached(sid)], log);
    LoopStarts(r, sid, Pump(events, closed), results);
    var returned, used := RunAttached(r, sid, Pump(events, closed), results, picks, finishOk);
    if returned {
      FreedLog(r.log, sid);
      return Attempt(r.sent, r.log + [Free(sid)], true, r.typed, used);
    }
    return Attempt(r.sent, r.log, false, r.typed, used);
  }

  lemma NoOutputYet(sid: string, events: seq<StdoutEvent>)
    ensures Payload([Attached(sid)]) == [] == Gathered(events[..0])
  {
    PayloadAppend([], Attached(sid));
    assert [] + [Attached(sid)] == [Attached(sid)];
  }

  lemma LoopStarts(r: AttachRuntime, sid: string, p: Pump, results: seq<ReadResult>)
    requires r.sent == [Attached(sid)] && Standing(r.log) == Some(Hosting(sid))
    requires r.streamOpen && !r.stdoutClosed && !r.hostExited && r.smooth && r.typed == []
    requires Pumped(p.events, p.closed, results, r.frameMax)
    ensures RunSoFar(r, sid, p, results, Chans(0, true, true, false), [])
  {
    NoOutputYet(sid, p.events);
  }

  /** attach: every trace fits the grammar and carries a prefix of the host's output, all of it when the trace ends
      in Exited; it ends so whenever nothing goes wrong; the slot is freed only after the host's Wait returned; and
      the handler returns once the host has come to its end. */
  method Attach(setup: Setup, frameMax: int, picks: seq<Pick>, finishOk: bool) returns (a: Attempt)
    requires setup.spawned.HostStarted? ==>
      forall i :: 0 <= i < |setup.spawned.results| ==> |setup.spawned.results[i].data| <= EffectiveFrameMax(frameMax)
    ensures AttachOk(a, setup, picks, EffectiveFrameMax(frameMax))
    ensures a.returned && setup.authenticated && !setup.first.NoFrame? && setup.sendOk && AllSmooth(picks) && finishOk ==>
      Complete(a.frames, EffectiveFrameMax(frameMax))
    ensures a.returned && Undisturbed(setup, picks, EffectiveFrameMax(frameMax), finishOk) ==>
      a.frames != [] && a.frames[|a.frames| - 1].Exited?
  {
    var limit := EffectiveFrameMax(frameMax);
    if !setup.authenticated || setup.first.NoFrame? {
      UnansweredOk(setup, picks, limit, []);
      return TurnedAway([], []);
    }
    if setup.first.OtherFrame? {
      RefusedOk(setup, picks, limit, Protocol, "ptyservice: first client frame must be attach", []);
      return TurnedAway(Refusal(Protocol, "ptyservice: first client frame must be attach", setup.sendOk), []);
    }
    if !setup.daemonConnected {
      RefusedOk(setup, picks, limit, DaemonNotConnected, "daemon not connected", []);
      return TurnedAway(Refusal(DaemonNotConnected, "daemon not connected", setup.sendOk), []);
    }
    match setup.claim {
      case EmptyUser =>
        RefusedOk(setup, picks, limit, Internal, "session: empty user id", []);
        return TurnedAway(Refusal(Internal, "session: empty user id", setup.sendOk), []);
      case Busy =>
        RefusedOk(setup, picks, limit, SessionBusy, "pty session already attached", []);
        return TurnedAway(Refusal(SessionBusy, "pty session already attached", setup.sendOk), []);
      case Claimed(sid) =>
        a := HoldingSlot(sid, setup, limit, picks, finishOk);
    }
  }
}
