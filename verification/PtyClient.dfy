/** The PTY client's receive side (pkg/ptyclient/client.go): the acceptor of server frame traces. The
    client is not cancelled and its terminal takes every write. */
module PtyClient {
  import opened Basics
  import opened PtyAttach

  datatype ClientError = FirstFrameNotAttached | UnexpectedFrame | StreamClosedUnexpectedly

  datatype ExitResult = ExitResult(code: int, signal: nat, serverError: Option<ServerFrame>, err: Option<ClientError>)

  /** The frames up to the first one that ends a session are a session: Error, or
      Attached Stdout* (Exited | Error), with no bound on the size of a frame. */
  ghost predicate Accepted(fs: seq<ServerFrame>, n: nat) {
    && 1 <= n <= |fs|
    && (fs[n - 1].Error? || (fs[n - 1].Exited? && n >= 2))
    && (n >= 2 ==> fs[0].Attached?)
    && forall i :: 1 <= i < n - 1 ==> fs[i].Stdout?
  }

  ghost predicate AcceptedSome(fs: seq<ServerFrame>) {
    exists n :: Accepted(fs, n)
  }

  /** What a client that saw this last frame must report. */
  function Reported(last: ServerFrame): ExitResult
    requires last.Error? || last.Exited?
  {
    if last.Error? then ExitResult(0, 0, Some(last), None) else ExitResult(last.code, last.signal, None, None)
  }

  lemma NotAccepted(fs: seq<ServerFrame>, k: nat)
    requires 1 <= k <= |fs| && fs[0].Attached? && (forall i :: 1 <= i < k ==> fs[i].Stdout?)
    requires k < |fs| ==> fs[k].Attached?
    ensures !AcceptedSome(fs)
  {
    forall n: nat | n <= |fs| ensures !Accepted(fs, n) {
      if n > k + 1 {
        assert fs[k].Attached?;
      }
    }
  }

  /** recvLoop, from the second frame on. */
  method RecvLoop(fs: seq<ServerFrame>) returns (result: ExitResult, written: Bytes, used: nat)
    requires fs != [] && fs[0].Attached?
    ensures 1 <= used <= |fs|
    ensures result.err.None? ==> Accepted(fs, used) && used >= 2
    ensures result.err.Some? ==> !AcceptedSome(fs)
    ensures result.err.None? ==> written == Payload(fs[..used])
    ensures result.err.None? ==> result == Reported(fs[used - 1])
  {
    result, written, used := ExitResult(0, 0, None, None), [], 1;
    assert fs[..1] == [fs[0]] && Payload([fs[0]]) == [];
    while used < |fs|
      invariant 1 <= used <= |fs| && result == ExitResult(0, 0, None, None)
      invariant forall i :: 1 <= i < used ==> fs[i].Stdout?
      invariant written == Payload(fs[..used])
    {
      var frame := fs[used];
      assert fs[..used + 1] == fs[..used] + [frame];
      PayloadAppend(fs[..used], frame);
      used := used + 1;
      match frame {
        case Stdout(data) => written := written + data;
        case Exited(code, signal) =>
          return ExitResult(code, signal, None, None), written, used;
        case Error(_, _) =>
          return ExitResult(0, 0, Some(frame), None), written, used;
        case Attached(_) =>
          NotAccepted(fs, used - 1);
          return ExitResult(0, 0, None, Some(UnexpectedFrame)), written, used;
      }
    }
    NotAccepted(fs, used);
    return ExitResult(0, 0, None, Some(StreamClosedUnexpectedly)), written, used;
  }

  /** Run: the handshake and the receive loop over the frames of one stream. It ends without an error of
      the client's own exactly when the frames hold a session, and then reports exactly that session. */
  method Receive(fs: seq<ServerFrame>) returns (result: ExitResult, written: Bytes, used: nat)
    ensures used <= |fs|
    ensures result.err.None? <==> AcceptedSome(fs)
    ensures result.err.None? ==> Accepted(fs, used) && written == Payload(fs[..used])
    ensures result.err.None? ==> result == Reported(fs[used - 1])
  {
    if fs == [] {
      return ExitResult(0, 0, None, Some(StreamClosedUnexpectedly)), [], 0;
    }
    var first := fs[0];
    if first.Error? {
      assert fs[..1] == [first] && Payload([first]) == [];
      assert Accepted(fs, 1);
      return ExitResult(0, 0, Some(first), None), [], 1;
    }
    if !first.Attached? {
      return ExitResult(0, 0, None, Some(FirstFrameNotAttached)), [], 1;
    }
    result, written, used := RecvLoop(fs);
  }

  /** A complete server trace is a session, and the client reads it to its last frame. */
  lemma CompleteIsAccepted(fs: seq<ServerFrame>, frameMax: int, used: nat)
    requires Complete(fs, frameMax)
    ensures Accepted(fs, |fs|)
    ensures Accepted(fs, used) ==> used == |fs|
  {
    forall i | 1 <= i < |fs| - 1 ensures fs[i].Stdout? {
      assert fs[i] == fs[1..|fs| - 1][i - 1];
    }
  }

  /** The client over a complete server trace: no error of its own, every output byte written, and the
      exit code, signal or server error of the last frame. */
  method ReceiveComplete(fs: seq<ServerFrame>, frameMax: int) returns (result: ExitResult, written: Bytes)
    requires Complete(fs, frameMax)
    ensures result.err.None? && written == Payload(fs)
    ensures result == Reported(fs[|fs| - 1])
  {
    var used;
    result, written, used := Receive(fs);
    CompleteIsAccepted(fs, frameMax, used);
    assert fs[..|fs|] == fs;
  }

  /** Both ends together, on a stream nothing cuts: once the host has come to its end, the client ends with the
      server's error, or has written the host's whole output and reports the code and signal that Wait returned;
      and it does the latter when no fault occurs. */
  method Session(setup: Setup, frameMax: int, picks: seq<Pick>) returns (a: Attempt, result: ExitResult, written: Bytes)
    requires setup.authenticated && !setup.first.NoFrame? && setup.sendOk && AllSmooth(picks)
    requires setup.spawned.HostStarted? ==>
      forall i :: 0 <= i < |setup.spawned.results| ==> |setup.spawned.results[i].data| <= EffectiveFrameMax(frameMax)
    ensures a.returned ==> result.err.None?
    ensures a.returned && result.serverError.None? ==>
      && Admitted(setup) && written == HostOutput(setup.spawned.results)
      && FirstExit(picks) == Some(ExitInfo(result.code, result.signal))
    ensures !Admitted(setup) ==> a.returned && result.serverError.Some? && written == []
    ensures MustReturn(setup, picks) ==> a.returned && result.err.None?
    ensures MustReturn(setup, picks) && Undisturbed(setup, picks, EffectiveFrameMax(frameMax), true) ==>
      && result.serverError.None? && written == HostOutput(setup.spawned.results)
      && FirstExit(picks) == Some(ExitInfo(result.code, result.signal))
  {
    a := Attach(setup, frameMax, picks, true);
    if a.returned {
      result, written := ReceiveComplete(a.frames, EffectiveFrameMax(frameMax));
      if !Admitted(setup) {
        assert a.frames == [a.frames[0]] && Payload(a.frames) == [];
      }
    } else {
      result, written := ExitResult(0, 0, None, None), [];
    }
  }
}
