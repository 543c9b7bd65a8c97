/** What a request on a session returns (pkg/session/session.go): why a call fails, and that an answered call
    returns its answer, over every interleaving of PendingRequests. */
module PendingAnswers {
  import opened Basics
  import opened PendingRequests

  /** What the call has settled on, once it is on its way out. */
  function Settled(pc: Pc): Option<Outcome> {
    if pc.Dropping? || pc.DropClosing? || pc.Returned? then Some(pc.outcome) else None
  }

  function SettledOn(s: State, r: nat): Option<Outcome> {
    if r in s.calls then Settled(s.calls[r].pc) else None
  }

  // ---- settling ----

  /** The four ways to fail: the session was closed, the id is in use, the caller or the session gave up the
      wait, or the channel is closed with nothing in it. */
  predicate Fails(s: State, a: Action, r: nat) {
    match a
    case Begin(q, _) => q == r && !s.closer.NotClosed?
    case Register(q, _) => q == r && r in s.calls && s.calls[r].id in s.pending
    case Abandon(q) => q == r
    case ReceiveClosed(q) => q == r && r in s.calls && ChanOf(s.calls[r].pc).Some? && FoundClosed(s, ChanOf(s.calls[r].pc).value)
    case _ => false
  }

  predicate FoundClosed(s: State, ch: nat) {
    ch in s.chans && s.chans[ch].buffer.None? && s.chans[ch].closes > 0
  }

  /** The call takes resp out of the channel it registered. */
  predicate Takes(s: State, a: Action, r: nat, resp: Response) {
    a == Receive(r) && r in s.calls && ChanOf(s.calls[r].pc).Some? && Holds(s, ChanOf(s.calls[r].pc).value, resp)
  }

  predicate Holds(s: State, ch: nat, resp: Response) {
    ch in s.chans && s.chans[ch].buffer == Some(resp)
  }

  predicate Settles(s: State, a: Action, r: nat, o: Outcome) {
    match o
    case Failed => Fails(s, a, r)
    case Got(resp) => Takes(s, a, r, resp)
  }

  lemma StepSettles(s: State, a: Action, r: nat, o: Outcome)
    requires Enabled(s, a)
    ensures SettledOn(s, r) == Some(o) ==> SettledOn(Next(s, a), r) == Some(o)
    ensures SettledOn(s, r).None? ==> (SettledOn(Next(s, a), r) == Some(o) <==> Settles(s, a, r, o))
  {
  }

  /** A call settles on what its settling step says and on nothing else, and keeps it. */
  lemma {:induction false} SettledIff(ss: seq<State>, acts: seq<Action>, i: nat, r: nat, o: Outcome)
    requires Run(ss, acts) && i < |ss|
    ensures SettledOn(ss[i], r) == Some(o) <==>
      exists j :: 0 <= j < i && SettledOn(ss[j], r).None? && Settles(ss[j], acts[j], r, o)
  {
    if i > 0 {
      SettledIff(ss, acts, i - 1, r, o);
      StepSettles(ss[i - 1], acts[i - 1], r, o);
      if SettledOn(ss[i - 1], r).Some? {
        StepSettles(ss[i - 1], acts[i - 1], r, SettledOn(ss[i - 1], r).value);
      }
    }
  }

  /** A call that returned an error began on a closed session, was refused its id, gave up waiting, or found its
      channel closed and empty. */
  lemma FailureHasCause(ss: seq<State>, acts: seq<Action>, i: nat, r: nat) returns (j: nat)
    requires Run(ss, acts) && i < |ss| && r in ss[i].calls && ss[i].calls[r].pc == Returned(Failed)
    ensures j < i && Fails(ss[j], acts[j], r)
  {
    SettledIff(ss, acts, i, r, Failed);
    j :| 0 <= j < i && SettledOn(ss[j], r).None? && Settles(ss[j], acts[j], r, Failed);
  }

  /** What a call receives is what it returns. */
  lemma ReceivedIsReturned(ss: seq<State>, acts: seq<Action>, j: nat, i: nat, r: nat, resp: Response)
    requires Run(ss, acts) && j < i < |ss| && Takes(ss[j], acts[j], r, resp)
    ensures r in ss[i].calls && Settled(ss[i].calls[r].pc) == Some(Got(resp))
    ensures ss[i].calls[r].pc.Returned? ==> ss[i].calls[r].pc.outcome == Got(resp)
  {
    assert SettledOn(ss[j], r).None?;
    assert Settles(ss[j], acts[j], r, Got(resp));
    SettledIff(ss, acts, i, r, Got(resp));
  }

  // ---- where a response comes from and where it goes ----

  predicate SendsOn(s: State, a: Action, ch: nat, resp: Response) {
    a == ResolveSend && s.resolver == Sending(ch, resp)
  }

  /** A channel holds only what the resolver sent on it. */
  lemma {:induction false} HeldWasSent(ss: seq<State>, acts: seq<Action>, i: nat, ch: nat, resp: Response) returns (j: nat)
    requires Run(ss, acts) && i < |ss| && Holds(ss[i], ch, resp)
    ensures j < i && SendsOn(ss[j], acts[j], ch, resp)
  {
    assert i > 0;
    if Holds(ss[i - 1], ch, resp) {
      j := HeldWasSent(ss, acts, i - 1, ch, resp);
    } else {
      j := i - 1;
    }
  }

  predicate Registers(s: State, a: Action, r: nat, id: string, ch: nat) {
    a == Register(r, ch) && r in s.calls && s.calls[r].id == id && id !in s.pending
  }

  /** The channel listed under an id is the one some call with that id registered. */
  lemma {:induction false} ListedWasRegistered(ss: seq<State>, acts: seq<Action>, i: nat, id: string) returns (j: nat, r: nat)
    requires Run(ss, acts) && i < |ss| && id in ss[i].pending
    ensures j < i && Registers(ss[j], acts[j], r, id, ss[i].pending[id])
  {
    assert i > 0;
    if id in ss[i - 1].pending && ss[i - 1].pending[id] == ss[i].pending[id] {
      j, r := ListedWasRegistered(ss, acts, i - 1, id);
    } else {
      j, r := i - 1, acts[i - 1].r;
    }
  }

  lemma {:induction false} StillSending(ss: seq<State>, acts: seq<Action>, j: nat, k: nat, ch: nat, resp: Response)
    requires Run(ss, acts) && j < k < |ss| && ss[j + 1].resolver == Sending(ch, resp)
    requires forall n :: j < n < k ==> acts[n] != ResolveSend
    ensures ss[k].resolver == Sending(ch, resp)
  {
    if k > j + 1 {
      StillSending(ss, acts, j, k - 1, ch, resp);
      assert acts[k - 1] != ResolveSend;
    }
  }

  /** A response whose id is pending goes to the channel registered under that id: the resolver's next send. */
  lemma ResponseIsRouted(ss: seq<State>, acts: seq<Action>, j: nat, k: nat, resp: Response)
    requires Run(ss, acts) && j < k < |acts| && acts[j] == Resolve(resp) && resp.id in ss[j].pending
    requires acts[k] == ResolveSend && forall n :: j < n < k ==> acts[n] != ResolveSend
    ensures SendsOn(ss[k], acts[k], ss[j].pending[resp.id], resp) && Holds(ss[k + 1], ss[j].pending[resp.id], resp)
    ensures resp.id !in ss[j + 1].pending && forall id :: id in ss[j].pending && id != resp.id ==>
      id in ss[j + 1].pending && ss[j + 1].pending[id] == ss[j].pending[id]
  {
    StillSending(ss, acts, j, k, ss[j].pending[resp.id], resp);
  }

  /** What is ever sent answers an id that was pending when it arrived; an unknown id is dropped. */
  lemma {:induction false} SentWasPending(ss: seq<State>, acts: seq<Action>, i: nat, ch: nat, resp: Response) returns (j: nat)
    requires Run(ss, acts) && i < |ss| && ss[i].resolver == Sending(ch, resp)
    ensures j < i && acts[j] == Resolve(resp) && resp.id in ss[j].pending && ss[j].pending[resp.id] == ch
  {
    assert i > 0;
    if ss[i - 1].resolver == Sending(ch, resp) {
      j := SentWasPending(ss, acts, i - 1, ch, resp);
    } else {
      j := i - 1;
    }
  }

  // ---- an answered call returns its answer ----

  /** No two calls wait on one channel. */
  ghost predicate OwnChannels(s: State) {
    forall q, r :: q in s.calls && r in s.calls && ChanOf(s.calls[q].pc).Some? && ChanOf(s.calls[q].pc) == ChanOf(s.calls[r].pc) ==> q == r
  }

  ghost predicate ChannelsExist(s: State) {
    forall r :: r in s.calls && ChanOf(s.calls[r].pc).Some? ==> ChanOf(s.calls[r].pc).value in s.chans
  }

  lemma StepKeepsOwnChannels(s: State, a: Action)
    requires Enabled(s, a) && OwnChannels(s) && ChannelsExist(s)
    ensures OwnChannels(Next(s, a)) && ChannelsExist(Next(s, a))
  {
  }

  lemma {:induction false} ChannelsAreOwn(ss: seq<State>, acts: seq<Action>, i: nat)
    requires Run(ss, acts) && i < |ss|
    ensures OwnChannels(ss[i]) && ChannelsExist(ss[i])
  {
    if i > 0 {
      ChannelsAreOwn(ss, acts, i - 1);
      StepKeepsOwnChannels(ss[i - 1], acts[i - 1]);
    }
  }

  predicate Waits(s: State, r: nat, ch: nat) {
    r in s.calls && (s.calls[r].pc.Registered? || s.calls[r].pc.Awaiting?) && s.calls[r].pc.ch == ch
  }

  /** The answer lies in the channel call r waits on. */
  predicate Answered(s: State, r: nat, ch: nat, resp: Response) {
    Waits(s, r, ch) && Holds(s, ch, resp)
  }

  lemma AnswerStays(s: State, a: Action, r: nat, ch: nat, resp: Response)
    requires Enabled(s, a) && Safe(s, a) && OwnChannels(s) && Answered(s, r, ch, resp) && a != Abandon(r)
    ensures if a == Receive(r) then SettledOn(Next(s, a), r) == Some(Got(resp)) else Answered(Next(s, a), r, ch, resp)
    ensures s.calls[r].pc.Awaiting? ==> Enabled(s, Receive(r)) && !Enabled(s, ReceiveClosed(r))
  {
    assert a.Receive? && a.r != r ==> ChanOf(s.calls[a.r].pc) != ChanOf(s.calls[r].pc);
  }

  lemma SentIsAnswered(s: State, a: Action, r: nat, ch: nat, resp: Response)
    requires Enabled(s, a) && SendsOn(s, a, ch, resp) && Waits(s, r, ch)
    ensures Answered(Next(s, a), r, ch, resp)
  {
  }

  predicate AnswerKept(s: State, r: nat, ch: nat, resp: Response) {
    Answered(s, r, ch, resp) || SettledOn(s, r) == Some(Got(resp))
  }

  lemma StepKeepsAnswer(s: State, a: Action, r: nat, ch: nat, resp: Response)
    requires Enabled(s, a) && Safe(s, a) && OwnChannels(s) && a != Abandon(r) && AnswerKept(s, r, ch, resp)
    ensures AnswerKept(Next(s, a), r, ch, resp)
  {
    StepSettles(s, a, r, Got(resp));
    if Answered(s, r, ch, resp) {
      AnswerStays(s, a, r, ch, resp);
    }
  }

  lemma {:induction false} AnswerReached(ss: seq<State>, acts: seq<Action>, j: nat, i: nat, r: nat, ch: nat, resp: Response)
    requires Run(ss, acts) && j < i < |ss| && SendsOn(ss[j], acts[j], ch, resp) && Waits(ss[j], r, ch)
    requires forall k :: j < k < i ==> acts[k] != Abandon(r)
    ensures AnswerKept(ss[i], r, ch, resp)
  {
    if i == j + 1 {
      SentIsAnswered(ss[j], acts[j], r, ch, resp);
    } else {
      AnswerReached(ss, acts, j, i - 1, r, ch, resp);
      NeverPanics(ss, acts, i - 1);
      ChannelsAreOwn(ss, acts, i - 1);
      StepKeepsAnswer(ss[i - 1], acts[i - 1], r, ch, resp);
    }
  }

  /** A call whose channel was sent a response while it was waiting, and that does not give up, returns that
      response and no error; until then it can take it at once. */
  lemma AnsweredReturnsAnswer(ss: seq<State>, acts: seq<Action>, j: nat, i: nat, r: nat, ch: nat, resp: Response)
    requires Run(ss, acts) && j < i < |ss| && SendsOn(ss[j], acts[j], ch, resp) && Waits(ss[j], r, ch)
    requires forall k :: j < k < i ==> acts[k] != Abandon(r)
    ensures r in ss[i].calls
    ensures ss[i].calls[r].pc.Returned? ==> ss[i].calls[r].pc.outcome == Got(resp)
    ensures ss[i].calls[r].pc.Awaiting? ==> Enabled(ss[i], Receive(r)) && Takes(ss[i], Receive(r), r, resp)
  {
    AnswerReached(ss, acts, j, i, r, ch, resp);
  }

  // ---- closing the session ----

  /** Taken from the map by the closing of the session: about to be closed, or closed. */
  predicate ClosedByCloser(s: State, ch: nat) {
    s.closer.ClosingAll? && (ch in s.closer.left || (ch in s.chans && s.chans[ch].closes > 0))
  }

  lemma StepKeepsClosing(s: State, a: Action, ch: nat)
    requires Enabled(s, a) && ClosedByCloser(s, ch) && (a.Register? ==> a.ch != ch)
    ensures ClosedByCloser(Next(s, a), ch)
  {
  }

  lemma StepKeepsChans(s: State, a: Action)
    requires Enabled(s, a)
    ensures s.chans.Keys <= Next(s, a).chans.Keys
  {
  }

  lemma SwapTakes(s: State, ch: nat)
    requires Inv(s) && Enabled(s, CloseSwap) && ch in s.pending.Values
    ensures ch in s.chans && ClosedByCloser(Next(s, CloseSwap), ch)
  {
    var id :| id in s.pending && s.pending[id] == ch;
    assert Owns(s, TheMap(id), ch) && OwnedOk(s, TheMap(id), ch);
  }

  lemma {:induction false} TakenStays(ss: seq<State>, acts: seq<Action>, j: nat, i: nat, ch: nat)
    requires Run(ss, acts) && j < i < |ss| && acts[j] == CloseSwap && ch in ss[j].pending.Values
    ensures ch in ss[i].chans && ClosedByCloser(ss[i], ch)
  {
    if i == j + 1 {
      RunKeeps(ss, acts, j);
      SwapTakes(ss[j], ch);
    } else {
      TakenStays(ss, acts, j, i - 1, ch);
      StepKeepsClosing(ss[i - 1], acts[i - 1], ch);
      StepKeepsChans(ss[i - 1], acts[i - 1]);
    }
  }

  /** Closing the session closes every channel that was pending: the closer can close each it has not come to yet,
      and when it is through all of them are closed, once. */
  lemma CloseClosesPending(ss: seq<State>, acts: seq<Action>, j: nat, i: nat, ch: nat)
    requires Run(ss, acts) && j < i < |ss| && acts[j] == CloseSwap && ch in ss[j].pending.Values
    ensures ch in ss[i].chans && ss[i].closer.ClosingAll?
    ensures ch in ss[i].closer.left ==> Enabled(ss[i], CloseOne(ch))
    ensures ch !in ss[i].closer.left ==> ss[i].chans[ch].closes == 1
  {
    TakenStays(ss, acts, j, i, ch);
    SentAndClosedOnce(ss, acts, i, ch);
  }
}
