/** Matching responses to requests on one session (pkg/session/session.go): who removes a response
    channel from the pending map, who sends on it and who closes it, over every interleaving of
    requests, responses, timeouts and the closing of the session. */
module PendingRequests {
  import opened Basics

  datatype Response = Response(id: string, body: Bytes)

  datatype Outcome = Got(resp: Response) | Failed

  /** Where a Request call stands; Dropping means its deferred dropPending is due. */
  datatype Pc =
    | Admitted
    | Registered(ch: nat)
    | Awaiting(ch: nat)
    | Dropping(ch: nat, outcome: Outcome)
    | DropClosing(taken: nat, outcome: Outcome)
    | Returned(outcome: Outcome)

  datatype Call = Call(id: string, pc: Pc)

  /** A response channel of capacity one, with the number of sends and closes it has seen. */
  datatype Chan = Chan(id: string, buffer: Option<Response>, sent: nat, closes: nat)

  datatype Resolver = Idle | Sending(ch: nat, resp: Response) | Closing(ch: nat)

  /** Swapping: closed is closed but the pending map is still the old one. */
  datatype Closer = NotClosed | Swapping | ClosingAll(left: set<nat>)

  datatype State = State(
    pending: map<string, nat>,
    chans: map<nat, Chan>,
    calls: map<nat, Call>,
    resolver: Resolver,
    closer: Closer)

  datatype Action =
    | Begin(r: nat, id: string)
    | Register(r: nat, ch: nat)
    | Enqueue(r: nat)
    | Abandon(r: nat)
    | Receive(r: nat)
    | ReceiveClosed(r: nat)
    | Drop(r: nat)
    | DropClose(r: nat)
    | Resolve(resp: Response)
    | ResolveSend
    | ResolveClose
    | CloseMark
    | CloseSwap
    | CloseOne(ch: nat)

  predicate Enabled(s: State, a: Action) {
    match a
    case Begin(r, id) => r !in s.calls
    case Register(r, ch) => r in s.calls && s.calls[r].pc.Admitted? && ch !in s.chans
    case Enqueue(r) => r in s.calls && s.calls[r].pc.Registered?
    case Abandon(r) => r in s.calls && (s.calls[r].pc.Registered? || s.calls[r].pc.Awaiting?)
    case Receive(r) =>
      r in s.calls && s.calls[r].pc.Awaiting? && s.calls[r].pc.ch in s.chans && s.chans[s.calls[r].pc.ch].buffer.Some?
    case ReceiveClosed(r) =>
      && r in s.calls && s.calls[r].pc.Awaiting? && s.calls[r].pc.ch in s.chans
      && s.chans[s.calls[r].pc.ch].buffer.None? && s.chans[s.calls[r].pc.ch].closes > 0
    case Drop(r) => r in s.calls && s.calls[r].pc.Dropping?
    case DropClose(r) => r in s.calls && s.calls[r].pc.DropClosing? && s.calls[r].pc.taken in s.chans
    case Resolve(resp) => s.resolver.Idle?
    case ResolveSend => s.resolver.Sending? && s.resolver.ch in s.chans
    case ResolveClose => s.resolver.Closing? && s.resolver.ch in s.chans
    case CloseMark => s.closer.NotClosed?
    case CloseSwap => s.closer.Swapping?
    case CloseOne(ch) => s.closer.ClosingAll? && ch in s.closer.left && ch in s.chans
  }

  function At(s: State, r: nat, pc: Pc): State
    requires r in s.calls
  {
    s.(calls := s.calls[r := s.calls[r].(pc := pc)])
  }

  function Closed(s: State, ch: nat): State
    requires ch in s.chans
  {
    s.(chans := s.chans[ch := s.chans[ch].(closes := s.chans[ch].closes + 1)])
  }

  function Next(s: State, a: Action): State
    requires Enabled(s, a)
  {
    match a
    case Begin(r, id) => s.(calls := s.calls[r := Call(id, if s.closer.NotClosed? then Admitted else Returned(Failed))])
    case Register(r, ch) =>
      var id := s.calls[r].id;
      if id in s.pending then At(s, r, Returned(Failed))
      else At(s, r, Registered(ch)).(pending := s.pending[id := ch], chans := s.chans[ch := Chan(id, None, 0, 0)])
    case Enqueue(r) => At(s, r, Awaiting(s.calls[r].pc.ch))
    case Abandon(r) => At(s, r, Dropping(s.calls[r].pc.ch, Failed))
    case Receive(r) =>
      var ch := s.calls[r].pc.ch;
      At(s, r, Dropping(ch, Got(s.chans[ch].buffer.value))).(chans := s.chans[ch := s.chans[ch].(buffer := None)])
    case ReceiveClosed(r) => At(s, r, Dropping(s.calls[r].pc.ch, Failed))
    case Drop(r) =>
      var id, outcome := s.calls[r].id, s.calls[r].pc.outcome;
      if id in s.pending then At(s, r, DropClosing(s.pending[id], outcome)).(pending := s.pending - {id})
      else At(s, r, Returned(outcome))
    case DropClose(r) => Closed(At(s, r, Returned(s.calls[r].pc.outcome)), s.calls[r].pc.taken)
    case Resolve(resp) =>
      if resp.id in s.pending then s.(pending := s.pending - {resp.id}, resolver := Sending(s.pending[resp.id], resp)) else s
    case ResolveSend =>
      var ch := s.resolver.ch;
      s.(chans := s.chans[ch := s.chans[ch].(buffer := Some(s.resolver.resp), sent := s.chans[ch].sent + 1)],
         resolver := Closing(ch))
    case ResolveClose => Closed(s, s.resolver.ch).(resolver := Idle)
    case CloseMark => s.(closer := Swapping)
    case CloseSwap => s.(pending := map[], closer := ClosingAll(s.pending.Values))
    case CloseOne(ch) => Closed(s, ch).(closer := ClosingAll(s.closer.left - {ch}))
  }

  const Start := State(map[], map[], map[], Idle, NotClosed)

  ghost predicate Run(ss: seq<State>, acts: seq<Action>) {
    && |ss| == |acts| + 1 && ss[0] == Start
    && forall i :: 0 <= i < |acts| ==> Enabled(ss[i], acts[i]) && ss[i + 1] == Next(ss[i], acts[i])
  }

  /** The step would not make the Go runtime panic or block: no send on a closed or full channel, no second close. */
  predicate Safe(s: State, a: Action)
    requires Enabled(s, a)
  {
    match a
    case ResolveSend => s.chans[s.resolver.ch].closes == 0 && s.chans[s.resolver.ch].buffer.None?
    case ResolveClose => s.chans[s.resolver.ch].closes == 0
    case DropClose(r) => s.chans[s.calls[r].pc.taken].closes == 0
    case CloseOne(ch) => s.chans[ch].closes == 0
    case _ => true
  }

  // ---- ownership ----

  datatype Owner = TheMap(id: string) | TheResolver | Dropper(r: nat) | TheCloser

  predicate Owns(s: State, o: Owner, ch: nat) {
    match o
    case TheMap(id) => id in s.pending && s.pending[id] == ch
    case TheResolver => !s.resolver.Idle? && s.resolver.ch == ch
    case Dropper(r) => r in s.calls && s.calls[r].pc.DropClosing? && s.calls[r].pc.taken == ch
    case TheCloser => s.closer.ClosingAll? && ch in s.closer.left
  }

  /** What an owner holds is an open channel of its own id, sent on only by the resolver about to close it. */
  ghost predicate OwnedOk(s: State, o: Owner, ch: nat) {
    Owns(s, o, ch) ==>
      && ch in s.chans && s.chans[ch].closes == 0
      && s.chans[ch].sent == (if o.TheResolver? && s.resolver.Closing? then 1 else 0)
      && (o.TheMap? ==> s.chans[ch].id == o.id)
      && (o.Dropper? ==> s.chans[ch].id == s.calls[o.r].id)
      && (o.TheResolver? && s.resolver.Sending? ==> s.chans[ch].id == s.resolver.resp.id)
  }

  ghost predicate Owned(s: State, ch: nat) {
    exists o :: Owns(s, o, ch)
  }

  ghost predicate ChanOk(s: State, ch: nat)
    requires ch in s.chans
  {
    var c := s.chans[ch];
    && c.closes <= 1 && c.sent <= 1
    && (c.buffer.Some? ==> c.sent == 1 && c.buffer.value.id == c.id)
    && (c.closes == 0 ==> Owned(s, ch))
  }

  function ChanOf(pc: Pc): Option<nat> {
    if pc.Registered? || pc.Awaiting? || pc.Dropping? then Some(pc.ch) else None
  }

  ghost predicate CallOk(s: State, r: nat)
    requires r in s.calls
  {
    var c := s.calls[r];
    && (ChanOf(c.pc).Some? ==> ChanOf(c.pc).value in s.chans && s.chans[ChanOf(c.pc).value].id == c.id)
    && ((c.pc.Dropping? || c.pc.DropClosing? || c.pc.Returned?) && c.pc.outcome.Got? ==> c.pc.outcome.resp.id == c.id)
  }

  /** A pending entry belongs to a call that has yet to run its own drop. */
  ghost predicate Expected(s: State, id: string)
    requires id in s.pending
  {
    exists r :: r in s.calls && s.calls[r].id == id && ChanOf(s.calls[r].pc) == Some(s.pending[id])
  }

  ghost predicate OwnersOk(s: State) {
    && (forall o, ch :: OwnedOk(s, o, ch))
    && (forall o, p, ch :: Owns(s, o, ch) && Owns(s, p, ch) ==> o == p)
  }

  ghost predicate Inv(s: State) {
    && OwnersOk(s)
    && (forall ch :: ch in s.chans ==> ChanOk(s, ch))
    && (forall r :: r in s.calls ==> CallOk(s, r))
    && (forall id :: id in s.pending ==> Expected(s, id))
  }

  /** With the invariant no step can go wrong. */
  lemma StepSafe(s: State, a: Action)
    requires Inv(s) && Enabled(s, a)
    ensures Safe(s, a)
  {
    match a
    case ResolveSend => assert Owns(s, TheResolver, s.resolver.ch) && OwnedOk(s, TheResolver, s.resolver.ch);
    case ResolveClose => assert Owns(s, TheResolver, s.resolver.ch) && OwnedOk(s, TheResolver, s.resolver.ch);
    case DropClose(r) => assert Owns(s, Dropper(r), s.calls[r].pc.taken) && OwnedOk(s, Dropper(r), s.calls[r].pc.taken);
    case CloseOne(ch) => assert Owns(s, TheCloser, ch) && OwnedOk(s, TheCloser, ch);
    case _ =>
  }

  // ---- steps that leave ownership alone ----

  /** Nothing is removed, sent or closed; calls move on, and none leaves its channel while it is pending. */
  ghost predicate Quiet(s: State, t: State) {
    && t.pending == s.pending && t.resolver == s.resolver && t.chans.Keys == s.chans.Keys
    && (t.closer == s.closer || (s.closer.NotClosed? && t.closer.Swapping?))
    && (forall ch :: ch in s.chans ==> t.chans[ch] == s.chans[ch] || t.chans[ch] == s.chans[ch].(buffer := None))
    && s.calls.Keys <= t.calls.Keys
    && (forall r :: r in t.calls ==> QuietCall(s, t, r))
  }

  ghost predicate QuietCall(s: State, t: State, r: nat)
    requires r in t.calls
  {
    if r !in s.calls then ChanOf(t.calls[r].pc).None? && !t.calls[r].pc.DropClosing?
    else
      && t.calls[r].id == s.calls[r].id
      && (t.calls[r].pc.DropClosing? || s.calls[r].pc.DropClosing? ==> t.calls[r] == s.calls[r])
      && (ChanOf(t.calls[r].pc) == ChanOf(s.calls[r].pc) || (ChanOf(t.calls[r].pc).None? && s.calls[r].id !in s.pending)
          || ChanOf(s.calls[r].pc).None?)
  }

  lemma QuietOwners(s: State, t: State, o: Owner, ch: nat)
    requires Quiet(s, t)
    ensures Owns(t, o, ch) <==> Owns(s, o, ch)
  {
    if o.Dropper? {
      assert o.r in t.calls ==> QuietCall(s, t, o.r);
    }
  }

  lemma QuietKeeps(s: State, t: State)
    requires Inv(s) && Quiet(s, t) && forall r :: r in t.calls ==> CallOk(t, r)
    ensures Inv(t)
  {
    forall o, ch ensures OwnedOk(t, o, ch) {
      QuietOwners(s, t, o, ch);
      assert OwnedOk(s, o, ch);
    }
    forall o, p, ch | Owns(t, o, ch) && Owns(t, p, ch) ensures o == p {
      QuietOwners(s, t, o, ch);
      QuietOwners(s, t, p, ch);
    }
    forall ch | ch in t.chans ensures ChanOk(t, ch) {
      assert ChanOk(s, ch);
      if s.chans[ch].closes == 0 {
        var o :| Owns(s, o, ch);
        QuietOwners(s, t, o, ch);
      }
    }
    forall id | id in t.pending ensures Expected(t, id) {
      assert Expected(s, id);
      var r :| r in s.calls && s.calls[r].id == id && ChanOf(s.calls[r].pc) == Some(s.pending[id]);
      assert QuietCall(s, t, r);
    }
  }

  // ---- steps that hand a channel over ----

  /** Exactly the channel c changes hands, to `to`; nobody else's holdings change. */
  ghost predicate HandsOver(s: State, t: State, c: nat, to: Owner) {
    forall o, ch :: Owns(t, o, ch) <==> if ch == c then o == to else Owns(s, o, ch)
  }

  /** Exactly the channel c is closed and let go. */
  ghost predicate LetsGo(s: State, t: State, c: nat) {
    forall o, ch :: Owns(t, o, ch) <==> ch != c && Owns(s, o, ch)
  }

  /** A step of the deferred drop: the outcome stays. */
  predicate Winds(from: Pc, to: Pc) {
    (from.Dropping? || from.DropClosing?) && (to.DropClosing? || to.Returned?) && to.outcome == from.outcome
  }

  lemma CallsKept(s: State, t: State)
    requires forall r :: r in s.calls ==> CallOk(s, r)
    requires s.calls.Keys == t.calls.Keys && s.chans.Keys <= t.chans.Keys
    requires forall ch :: ch in s.chans ==> t.chans[ch].id == s.chans[ch].id
    requires forall r :: r in s.calls ==> t.calls[r].id == s.calls[r].id
    requires forall r :: r in s.calls ==> t.calls[r].pc == s.calls[r].pc || Winds(s.calls[r].pc, t.calls[r].pc)
    ensures forall r :: r in t.calls ==> CallOk(t, r)
  {
    forall r | r in t.calls ensures CallOk(t, r) {
      assert CallOk(s, r);
    }
  }

  lemma ChansKept(s: State, t: State, c: nat, to: Owner)
    requires (forall ch :: ch in s.chans ==> ChanOk(s, ch)) && HandsOver(s, t, c, to) && t.chans == s.chans
    ensures forall ch :: ch in t.chans ==> ChanOk(t, ch)
  {
    forall ch | ch in t.chans ensures ChanOk(t, ch) {
      assert ChanOk(s, ch);
      if s.chans[ch].closes == 0 {
        var o :| Owns(s, o, ch);
        assert Owns(t, if ch == c then to else o, ch);
      }
    }
  }

  lemma ChansClosed(s: State, t: State, c: nat)
    requires (forall ch :: ch in s.chans ==> ChanOk(s, ch)) && LetsGo(s, t, c) && c in s.chans && s.chans[c].closes == 0
    requires t.chans == s.chans[c := s.chans[c].(closes := 1)]
    ensures forall ch :: ch in t.chans ==> ChanOk(t, ch)
  {
    forall ch | ch in t.chans ensures ChanOk(t, ch) {
      assert ChanOk(s, ch);
      if t.chans[ch].closes == 0 {
        var o :| Owns(s, o, ch);
        assert Owns(t, o, ch);
      }
    }
  }

  /** The other calls' pending entries are still expected when call r or the map entry `gone` changes. */
  lemma StillExpected(s: State, t: State, gone: string)
    requires forall id :: id in s.pending ==> Expected(s, id)
    requires t.pending == s.pending - {gone}
    requires s.calls.Keys == t.calls.Keys
    requires forall r :: r in s.calls && s.calls[r].id != gone ==> t.calls[r] == s.calls[r]
    ensures forall id :: id in t.pending ==> Expected(t, id)
  {
    forall id | id in t.pending ensures Expected(t, id) {
      assert Expected(s, id);
      var r :| r in s.calls && s.calls[r].id == id && ChanOf(s.calls[r].pc) == Some(s.pending[id]);
      assert t.calls[r] == s.calls[r];
    }
  }

  lemma DropKeeps(s: State, r: nat)
    requires Inv(s) && Enabled(s, Drop(r)) && s.calls[r].id in s.pending
    ensures Inv(Next(s, Drop(r)))
  {
    var t, id := Next(s, Drop(r)), s.calls[r].id;
    var c := s.pending[id];
    assert Owns(s, TheMap(id), c) && OwnedOk(s, TheMap(id), c);
    forall o, ch ensures Owns(t, o, ch) <==> if ch == c then o == Dropper(r) else Owns(s, o, ch) {
      assert Owns(s, o, c) ==> o == TheMap(id);
    }
    HandedOver(s, t, c, Dropper(r));
    ChansKept(s, t, c, Dropper(r));
    CallsKept(s, t);
    StillExpected(s, t, id);
  }

  lemma HandedOver(s: State, t: State, c: nat, to: Owner)
    requires OwnersOk(s) && HandsOver(s, t, c, to) && t.chans == s.chans && OwnedOk(t, to, c)
    requires s.calls.Keys == t.calls.Keys && forall r :: r in s.calls ==> t.calls[r].id == s.calls[r].id
    requires t.resolver == s.resolver || to.TheResolver?
    requires to.TheResolver? ==> s.resolver.Idle?
    ensures OwnersOk(t)
  {
    forall o, ch ensures OwnedOk(t, o, ch) {
      assert OwnedOk(s, o, ch);
    }
  }

  lemma ResolveKeeps(s: State, resp: Response)
    requires Inv(s) && Enabled(s, Resolve(resp)) && resp.id in s.pending
    ensures Inv(Next(s, Resolve(resp)))
  {
    var t, id := Next(s, Resolve(resp)), resp.id;
    var c := s.pending[id];
    assert Owns(s, TheMap(id), c) && OwnedOk(s, TheMap(id), c);
    forall o, ch ensures Owns(t, o, ch) <==> if ch == c then o == TheResolver else Owns(s, o, ch) {
      assert Owns(s, o, c) ==> o == TheMap(id);
    }
    HandedOver(s, t, c, TheResolver);
    ChansKept(s, t, c, TheResolver);
    CallsKept(s, t);
    StillExpected(s, t, id);
  }

  lemma SwapKeeps(s: State)
    requires Inv(s) && Enabled(s, CloseSwap)
    ensures Inv(Next(s, CloseSwap))
  {
    var t := Next(s, CloseSwap);
    forall o, ch ensures OwnedOk(t, o, ch) {
      assert OwnedOk(s, o, ch);
      if Owns(t, o, ch) && o.TheCloser? {
        var id :| id in s.pending && s.pending[id] == ch;
        assert OwnedOk(s, TheMap(id), ch) && Owns(s, TheMap(id), ch);
      }
    }
    assert forall o, ch :: Owns(t, o, ch) && !o.TheCloser? ==> Owns(s, o, ch) && !o.TheMap?;
    forall o, p, ch | Owns(t, o, ch) && Owns(t, p, ch) ensures o == p {
      if o.TheCloser? || p.TheCloser? {
        var id :| id in s.pending && s.pending[id] == ch;
        assert Owns(s, TheMap(id), ch);
      }
    }
    forall ch | ch in t.chans ensures ChanOk(t, ch) {
      assert ChanOk(s, ch);
      if s.chans[ch].closes == 0 {
        var o :| Owns(s, o, ch);
        assert Owns(t, if o.TheMap? then TheCloser else o, ch);
      }
    }
    CallsKept(s, t);
  }

  lemma RegisterKeeps(s: State, r: nat, c: nat)
    requires Inv(s) && Enabled(s, Register(r, c)) && s.calls[r].id !in s.pending
    ensures Inv(Next(s, Register(r, c)))
  {
    var t, id := Next(s, Register(r, c)), s.calls[r].id;
    forall o, ch ensures Owns(t, o, ch) <==> if ch == c then o == TheMap(id) else Owns(s, o, ch) {
      assert OwnedOk(s, o, ch);
    }
    forall o, ch ensures OwnedOk(t, o, ch) {
      assert OwnedOk(s, o, ch);
    }
    forall ch | ch in t.chans ensures ChanOk(t, ch) {
      if ch == c {
        assert Owns(t, TheMap(id), c);
      } else {
        assert ChanOk(s, ch);
        if s.chans[ch].closes == 0 {
          var o :| Owns(s, o, ch);
          assert Owns(t, o, ch);
        }
      }
    }
    forall k | k in t.calls ensures CallOk(t, k) {
      assert CallOk(s, k);
    }
    forall i | i in t.pending ensures Expected(t, i) {
      if i == id {
        assert r in t.calls && ChanOf(t.calls[r].pc) == Some(c);
      } else {
        assert Expected(s, i);
        var k :| k in s.calls && s.calls[k].id == i && ChanOf(s.calls[k].pc) == Some(s.pending[i]);
        assert t.calls[k] == s.calls[k];
      }
    }
  }

  lemma SendKeeps(s: State)
    requires Inv(s) && Enabled(s, ResolveSend)
    ensures Inv(Next(s, ResolveSend))
  {
    var t, c := Next(s, ResolveSend), s.resolver.ch;
    assert Owns(s, TheResolver, c) && OwnedOk(s, TheResolver, c) && ChanOk(s, c);
    assert forall o, ch :: Owns(t, o, ch) <==> Owns(s, o, ch);
    forall o, ch ensures OwnedOk(t, o, ch) {
      assert OwnedOk(s, o, ch);
      assert ch == c && Owns(s, o, c) ==> o == TheResolver;
    }
    forall ch | ch in t.chans ensures ChanOk(t, ch) {
      assert ChanOk(s, ch);
      if s.chans[ch].closes == 0 {
        var o :| Owns(s, o, ch);
        assert Owns(t, o, ch);
      }
    }
    CallsKept(s, t);
    StillExpectedAll(s, t);
  }

  lemma StillExpectedAll(s: State, t: State)
    requires (forall id :: id in s.pending ==> Expected(s, id)) && t.pending == s.pending && s.calls.Keys == t.calls.Keys
    requires forall r :: r in s.calls && ChanOf(s.calls[r].pc).Some? ==> t.calls[r] == s.calls[r]
    ensures forall id :: id in t.pending ==> Expected(t, id)
  {
    forall id | id in t.pending ensures Expected(t, id) {
      assert Expected(s, id);
      var r :| r in s.calls && s.calls[r].id == id && ChanOf(s.calls[r].pc) == Some(s.pending[id]);
      assert t.calls[r] == s.calls[r];
    }
  }

  predicate Finishes(from: Call, to: Call) {
    from.pc.DropClosing? && to == from.(pc := Returned(from.pc.outcome))
  }

  /** The three closing steps: the owner o closes c and lets it go. */
  lemma CloseKeeps(s: State, t: State, o: Owner, c: nat)
    requires Inv(s) && Owns(s, o, c) && c in s.chans && LetsGo(s, t, c)
    requires t.chans == s.chans[c := s.chans[c].(closes := s.chans[c].closes + 1)] && t.pending == s.pending
    requires t.resolver == s.resolver || (o.TheResolver? && t.resolver.Idle?)
    requires s.calls.Keys == t.calls.Keys && forall r :: r in s.calls ==> t.calls[r] == s.calls[r] || Finishes(s.calls[r], t.calls[r])
    ensures Inv(t)
  {
    assert OwnedOk(s, o, c);
    forall p, ch ensures OwnedOk(t, p, ch) {
      assert OwnedOk(s, p, ch);
    }
    ChansClosed(s, t, c);
    CallsKept(s, t);
    StillExpectedAll(s, t);
  }

  lemma DropCloseKeeps(s: State, r: nat)
    requires Inv(s) && Enabled(s, DropClose(r))
    ensures Inv(Next(s, DropClose(r)))
  {
    var t, c := Next(s, DropClose(r)), s.calls[r].pc.taken;
    assert Owns(s, Dropper(r), c);
    forall o, ch ensures Owns(t, o, ch) <==> ch != c && Owns(s, o, ch) {
      assert Owns(s, o, c) ==> o == Dropper(r);
    }
    CloseKeeps(s, t, Dropper(r), c);
  }

  lemma ResolveCloseKeeps(s: State)
    requires Inv(s) && Enabled(s, ResolveClose)
    ensures Inv(Next(s, ResolveClose))
  {
    var t, c := Next(s, ResolveClose), s.resolver.ch;
    assert Owns(s, TheResolver, c);
    forall o, ch ensures Owns(t, o, ch) <==> ch != c && Owns(s, o, ch) {
      assert Owns(s, o, c) ==> o == TheResolver;
    }
    CloseKeeps(s, t, TheResolver, c);
  }

  lemma CloseOneKeeps(s: State, c: nat)
    requires Inv(s) && Enabled(s, CloseOne(c))
    ensures Inv(Next(s, CloseOne(c)))
  {
    var t := Next(s, CloseOne(c));
    assert Owns(s, TheCloser, c);
    forall o, ch ensures Owns(t, o, ch) <==> ch != c && Owns(s, o, ch) {
      assert Owns(s, o, c) ==> o == TheCloser;
    }
    CloseKeeps(s, t, TheCloser, c);
  }

  lemma StepKeeps(s: State, a: Action)
    requires Inv(s) && Enabled(s, a)
    ensures Inv(Next(s, a))
  {
    var t := Next(s, a);
    match a
    case Drop(r) => if s.calls[r].id in s.pending { DropKeeps(s, r); } else { CallMovesKeeps(s, a, r); }
    case DropClose(r) => DropCloseKeeps(s, r);
    case Resolve(resp) => if resp.id in s.pending { ResolveKeeps(s, resp); }
    case ResolveSend => SendKeeps(s);
    case ResolveClose => ResolveCloseKeeps(s);
    case CloseMark => CloseMarkKeeps(s);
    case CloseSwap => SwapKeeps(s);
    case CloseOne(ch) => CloseOneKeeps(s, ch);
    case Register(r, ch) => if s.calls[r].id in s.pending { CallMovesKeeps(s, a, r); } else { RegisterKeeps(s, r, ch); }
    case Begin(r, id) => CallMovesKeeps(s, a, r);
    case Enqueue(r) => CallMovesKeeps(s, a, r);
    case Abandon(r) => CallMovesKeeps(s, a, r);
    case Receive(r) => CallMovesKeeps(s, a, r);
    case ReceiveClosed(r) => CallMovesKeeps(s, a, r);
  }

  lemma CloseMarkKeeps(s: State)
    requires Inv(s) && Enabled(s, CloseMark)
    ensures Inv(Next(s, CloseMark))
  {
    var t := Next(s, CloseMark);
    CallsKept(s, t);
    QuietKeeps(s, t);
  }

  /** The steps in which only call r moves. */
  predicate Moves(s: State, a: Action, r: nat)
    requires Enabled(s, a)
  {
    match a
    case Begin(k, _) => k == r
    case Enqueue(k) => k == r
    case Abandon(k) => k == r
    case Receive(k) => k == r
    case ReceiveClosed(k) => k == r
    case Register(k, _) => k == r && s.calls[k].id in s.pending
    case Drop(k) => k == r && s.calls[k].id !in s.pending
    case _ => false
  }

  lemma CallMovesKeeps(s: State, a: Action, r: nat)
    requires Inv(s) && Enabled(s, a) && Moves(s, a, r)
    ensures Inv(Next(s, a))
  {
    var t := Next(s, a);
    MovesQuietly(s, a, r);
    forall k | k in t.calls ensures CallOk(t, k) {
      MovedCallOk(s, a, r, k);
    }
    QuietKeeps(s, t);
  }

  lemma MovesQuietly(s: State, a: Action, r: nat)
    requires Enabled(s, a) && Moves(s, a, r)
    ensures Quiet(s, Next(s, a))
  {
    var t := Next(s, a);
    forall k | k in t.calls ensures QuietCall(s, t, k) {
      assert k != r ==> t.calls[k] == s.calls[k];
    }
  }

  lemma MovedCallOk(s: State, a: Action, r: nat, k: nat)
    requires Enabled(s, a) && Moves(s, a, r) && k in Next(s, a).calls && (k in s.calls ==> CallOk(s, k))
    requires forall ch :: ch in s.chans ==> ChanOk(s, ch)
    ensures CallOk(Next(s, a), k)
  {
    if a.Receive? {
      assert ChanOk(s, s.calls[r].pc.ch);
    }
  }

  lemma {:induction false} RunKeeps(ss: seq<State>, acts: seq<Action>, i: nat)
    requires Run(ss, acts) && i < |ss|
    ensures Inv(ss[i])
  {
    if i > 0 {
      RunKeeps(ss, acts, i - 1);
      StepKeeps(ss[i - 1], acts[i - 1]);
    }
  }

  // ---- the theorems ----

  /** In no interleaving is a closed channel sent on or closed again, and no send blocks. */
  lemma NeverPanics(ss: seq<State>, acts: seq<Action>, i: nat)
    requires Run(ss, acts) && i < |acts|
    ensures Safe(ss[i], acts[i])
  {
    RunKeeps(ss, acts, i);
    StepSafe(ss[i], acts[i]);
  }

  /** Every channel is sent on at most once and closed at most once, and holds only a response with its own id. */
  lemma SentAndClosedOnce(ss: seq<State>, acts: seq<Action>, i: nat, ch: nat)
    requires Run(ss, acts) && i < |ss| && ch in ss[i].chans
    ensures ss[i].chans[ch].sent <= 1 && ss[i].chans[ch].closes <= 1
    ensures ss[i].chans[ch].buffer.Some? ==> ss[i].chans[ch].buffer.value.id == ss[i].chans[ch].id
  {
    RunKeeps(ss, acts, i);
    assert ChanOk(ss[i], ch);
  }

  /** A call that returns a response returns one with its own id. */
  lemma OwnResponse(ss: seq<State>, acts: seq<Action>, i: nat, r: nat)
    requires Run(ss, acts) && i < |ss| && r in ss[i].calls
    requires ss[i].calls[r].pc.Returned? && ss[i].calls[r].pc.outcome.Got?
    ensures ss[i].calls[r].pc.outcome.resp.id == ss[i].calls[r].id
  {
    RunKeeps(ss, acts, i);
    assert CallOk(ss[i], r);
  }

  ghost predicate AllReturned(s: State) {
    forall r :: r in s.calls ==> s.calls[r].pc.Returned?
  }

  /** Once all calls have returned nothing is pending; and when the resolver and the closer are done too,
      every channel has been closed exactly once. */
  lemma NothingLeftOver(ss: seq<State>, acts: seq<Action>, i: nat)
    requires Run(ss, acts) && i < |ss| && AllReturned(ss[i])
    ensures ss[i].pending == map[]
    ensures ss[i].resolver.Idle? && (ss[i].closer.ClosingAll? ==> ss[i].closer.left == {}) ==>
      forall ch :: ch in ss[i].chans ==> ss[i].chans[ch].closes == 1
  {
    var s := ss[i];
    RunKeeps(ss, acts, i);
    forall id ensures id !in s.pending {
      assert id in s.pending ==> Expected(s, id);
    }
    if s.resolver.Idle? && (s.closer.ClosingAll? ==> s.closer.left == {}) {
      forall ch | ch in s.chans ensures s.chans[ch].closes == 1 {
        assert ChanOk(s, ch);
        assert forall o :: !Owns(s, o, ch);
      }
    }
  }

  /** Step j takes ch out of the map. */
  ghost predicate Removes(ss: seq<State>, j: nat, ch: nat)
    requires j + 1 < |ss|
  {
    ch in ss[j].pending.Values && ch !in ss[j + 1].pending.Values
  }

  /** Whoever is about to close a channel is the one that removed it from the map, and held it ever since. */
  lemma {:induction false} ClosedByRemover(ss: seq<State>, acts: seq<Action>, i: nat, o: Owner, ch: nat) returns (j: nat)
    requires Run(ss, acts) && i < |ss| && Owns(ss[i], o, ch) && !o.TheMap?
    ensures j < i && Removes(ss, j, ch)
    ensures forall k :: j < k <= i ==> Owns(ss[k], o, ch)
  {
    assert i > 0;
    if Owns(ss[i - 1], o, ch) {
      j := ClosedByRemover(ss, acts, i - 1, o, ch);
    } else {
      j := i - 1;
      RunKeeps(ss, acts, j);
      RunKeeps(ss, acts, i);
      TakenFromMap(ss[j], acts[j], o, ch);
    }
  }

  lemma TakenFromMap(s: State, a: Action, o: Owner, ch: nat)
    requires Enabled(s, a) && OwnersOk(Next(s, a)) && !o.TheMap? && Owns(Next(s, a), o, ch) && !Owns(s, o, ch)
    ensures ch in s.pending.Values && ch !in Next(s, a).pending.Values
  {
    var t := Next(s, a);
    forall id | id in t.pending ensures t.pending[id] != ch {
      assert t.pending[id] == ch ==> Owns(t, TheMap(id), ch);
    }
    Acquires(s, a, o, ch);
  }

  lemma Acquires(s: State, a: Action, o: Owner, ch: nat)
    requires Enabled(s, a) && !o.TheMap? && Owns(Next(s, a), o, ch) && !Owns(s, o, ch)
    ensures ch in s.pending.Values
  {
    match o
    case TheResolver => assert a.Resolve? || a.ResolveSend?;
    case Dropper(r) =>
      assert a.Drop? && a.r == r;
    case TheCloser => assert a.CloseSwap?;
  }

  // ---- generated ids ----

  /** nextRequestID. */
  function RequestId(user: string, n: nat): string {
    user + "-" + Digits(n)
  }

  lemma RequestIdInjective(user: string, a: nat, b: nat)
    requires RequestId(user, a) == RequestId(user, b)
    ensures a == b
  {
    var prefix := user + "-";
    assert RequestId(user, a)[|prefix|..] == Digits(a) && RequestId(user, b)[|prefix|..] == Digits(b);
    DigitsInjective(a, b);
  }

  /** No two calls that have not returned share an id; an id may be used again once its call returned. */
  ghost predicate DistinctLiveIds(s: State) {
    forall q, r :: q in s.calls && r in s.calls && q != r && s.calls[q].id == s.calls[r].id ==>
      s.calls[q].pc.Returned? || s.calls[r].pc.Returned?
  }

  /** A call still registered or waiting whose channel was closed without a response, in an open session. */
  ghost predicate FalseAlarm(s: State, r: nat) {
    && s.closer.NotClosed? && r in s.calls && (s.calls[r].pc.Registered? || s.calls[r].pc.Awaiting?)
    && s.calls[r].pc.ch in s.chans && s.chans[s.calls[r].pc.ch].closes > 0 && s.chans[s.calls[r].pc.ch].sent == 0
  }

  ghost predicate NoFalseAlarm(s: State) {
    forall r :: !FalseAlarm(s, r)
  }

  /** Only another call's drop could raise a false alarm, and a drop closes a channel of its own id. */
  lemma StepRaisesNoAlarm(s: State, a: Action, r: nat)
    requires Inv(s) && Enabled(s, a) && DistinctLiveIds(s) && !FalseAlarm(s, r)
    ensures !FalseAlarm(Next(s, a), r)
  {
    if r in s.calls && ChanOf(s.calls[r].pc).Some? {
      assert CallOk(s, r);
      if a.DropClose? {
        DropCloseRaisesNoAlarm(s, a.r, r);
      } else {
        assert a.ResolveClose? ==> Owns(s, TheResolver, s.resolver.ch) && OwnedOk(s, TheResolver, s.resolver.ch);
        OtherStepRaisesNoAlarm(s, a, r);
      }
    } else {
      FreshCallHasNoAlarm(s, a, r);
    }
  }

  lemma OtherStepRaisesNoAlarm(s: State, a: Action, r: nat)
    requires Enabled(s, a) && !FalseAlarm(s, r) && !a.DropClose? && (a.ResolveClose? ==> s.chans[s.resolver.ch].sent == 1)
    requires r in s.calls && ChanOf(s.calls[r].pc).Some? && ChanOf(s.calls[r].pc).value in s.chans
    ensures !FalseAlarm(Next(s, a), r)
  {
  }

  lemma FreshCallHasNoAlarm(s: State, a: Action, r: nat)
    requires Enabled(s, a) && (r in s.calls ==> ChanOf(s.calls[r].pc).None?)
    ensures !FalseAlarm(Next(s, a), r)
  {
  }

  lemma DropCloseRaisesNoAlarm(s: State, q: nat, r: nat)
    requires OwnersOk(s) && Enabled(s, DropClose(q)) && DistinctLiveIds(s) && !FalseAlarm(s, r)
    requires r in s.calls && CallOk(s, r) && ChanOf(s.calls[r].pc).Some?
    ensures !FalseAlarm(Next(s, DropClose(q)), r)
  {
    assert Owns(s, Dropper(q), s.calls[q].pc.taken) && OwnedOk(s, Dropper(q), s.calls[q].pc.taken);
  }

  lemma {:induction false} RunRaisesNoAlarm(ss: seq<State>, acts: seq<Action>, i: nat)
    requires Run(ss, acts) && i < |ss| && forall k :: 0 <= k < |ss| ==> DistinctLiveIds(ss[k])
    ensures NoFalseAlarm(ss[i])
  {
    if i > 0 {
      RunRaisesNoAlarm(ss, acts, i - 1);
      RunKeeps(ss, acts, i - 1);
      forall r ensures !FalseAlarm(ss[i], r) {
        StepRaisesNoAlarm(ss[i - 1], acts[i - 1], r);
      }
    }
  }

  /** While no two unreturned calls share an id, a call still waiting finds its channel closed and empty only
      when the session is closed: no other call's cleanup can end it. */
  lemma ClosedUnderneathMeansSessionClosed(ss: seq<State>, acts: seq<Action>, i: nat, r: nat)
    requires Run(ss, acts) && i < |ss| && forall k :: 0 <= k < |ss| ==> DistinctLiveIds(ss[k])
    requires r in ss[i].calls && ss[i].calls[r].pc.Awaiting? && ss[i].calls[r].pc.ch in ss[i].chans
    requires ss[i].chans[ss[i].calls[r].pc.ch].closes > 0 && ss[i].chans[ss[i].calls[r].pc.ch].sent == 0
    ensures !ss[i].closer.NotClosed?
  {
    RunRaisesNoAlarm(ss, acts, i);
    assert !FalseAlarm(ss[i], r);
  }

  // ---- which id assignments are safe ----

  /** Every call r of the run uses the id ids(r). */
  ghost predicate Follows(acts: seq<Action>, ids: nat -> string) {
    forall i :: 0 <= i < |acts| && acts[i].Begin? ==> acts[i].id == ids(acts[i].r)
  }

  ghost predicate Injective(ids: nat -> string) {
    forall q, r :: ids(q) == ids(r) ==> q == r
  }

  /** No run in which the calls use these ids ever raises a false alarm. */
  ghost predicate AlarmFree(ids: nat -> string) {
    forall s :: Reached(ids, s) ==> NoFalseAlarm(s)
  }

  ghost predicate Reached(ids: nat -> string, s: State) {
    exists ss, acts :: Run(ss, acts) && Follows(acts, ids) && ss[|acts|] == s
  }

  lemma {:induction false} CallsFollow(ids: nat -> string, ss: seq<State>, acts: seq<Action>, i: nat)
    requires Run(ss, acts) && Follows(acts, ids) && i < |ss|
    ensures forall r :: r in ss[i].calls ==> ss[i].calls[r].id == ids(r)
  {
    if i > 0 {
      CallsFollow(ids, ss, acts, i - 1);
      StepKeepsIds(ids, ss[i - 1], acts[i - 1]);
    }
  }

  lemma StepKeepsIds(ids: nat -> string, s: State, a: Action)
    requires Enabled(s, a) && (a.Begin? ==> a.id == ids(a.r)) && forall r :: r in s.calls ==> s.calls[r].id == ids(r)
    ensures forall r :: r in Next(s, a).calls ==> Next(s, a).calls[r].id == ids(r)
  {
  }

  /** Exactly the id assignments that never repeat an id are safe from every schedule; generated ids are one. */
  lemma AlarmFreeIff(ids: nat -> string)
    ensures AlarmFree(ids) <==> Injective(ids)
  {
    if Injective(ids) {
      forall s | Reached(ids, s) ensures NoFalseAlarm(s) {
        var ss, acts :| Run(ss, acts) && Follows(acts, ids) && ss[|acts|] == s;
        forall k | 0 <= k < |ss| ensures DistinctLiveIds(ss[k]) {
          CallsFollow(ids, ss, acts, k);
        }
        RunRaisesNoAlarm(ss, acts, |acts|);
      }
    }
    forall q, r | q != r && ids(q) == ids(r) ensures !AlarmFree(ids) {
      SharedIdClosedUnderneath(ids, q, r);
    }
  }

  function GeneratedIds(user: string): nat -> string {
    (n: nat) => RequestId(user, n)
  }

  lemma GeneratedIdsAlarmFree(user: string)
    ensures AlarmFree(GeneratedIds(user))
  {
    var ids := GeneratedIds(user);
    forall q, r | ids(q) == ids(r) ensures q == r {
      RequestIdInjective(user, q, r);
    }
    AlarmFreeIff(ids);
  }

  lemma Extend(ids: nat -> string, s: State, a: Action)
    requires Reached(ids, s) && Enabled(s, a) && (a.Begin? ==> a.id == ids(a.r))
    ensures Reached(ids, Next(s, a))
  {
    var ss, acts :| Run(ss, acts) && Follows(acts, ids) && ss[|acts|] == s;
    ExtendRun(ss, acts, a);
    assert (ss + [Next(s, a)])[|acts + [a]|] == Next(s, a);
    assert Follows(acts + [a], ids);
  }

  lemma ExtendRun(ss: seq<State>, acts: seq<Action>, a: Action)
    requires Run(ss, acts) && Enabled(ss[|acts|], a)
    ensures Run(ss + [Next(ss[|acts|], a)], acts + [a])
  {
    var tt, more := ss + [Next(ss[|acts|], a)], acts + [a];
    forall i | 0 <= i < |more| ensures Enabled(tt[i], more[i]) && tt[i + 1] == Next(tt[i], more[i]) {
      if i < |acts| {
        assert tt[i] == ss[i] && tt[i + 1] == ss[i + 1] && more[i] == acts[i];
      } else {
        assert tt[i] == ss[|acts|] && more[i] == a;
      }
    }
  }

  /** Two calls q and r with one id: q was answered and gave up waiting while r registered. */
  function Shared(id: string, q: nat, r: nat, first: Pc, second: Pc, pending: map<string, nat>, closes: nat): State {
    State(pending, map[0 := Chan(id, None, 0, 0), 1 := Chan(id, None, 0, closes)],
          map[q := Call(id, first), r := Call(id, second)], Sending(0, Response(id, [])), NotClosed)
  }

  function Begun(id: string, q: nat, r: nat): State {
    State(map[], map[], map[q := Call(id, Admitted), r := Call(id, Admitted)], Idle, NotClosed)
  }

  lemma BegunReached(ids: nat -> string, q: nat, r: nat)
    requires q != r && ids(q) == ids(r)
    ensures Reached(ids, Begun(ids(q), q, r))
  {
    var id := ids(q);
    assert Run([Start], []) && [Start][0] == Start && Follows([], ids);
    Extend(ids, Start, Begin(q, id));
    var s1 := State(map[], map[], map[q := Call(id, Admitted)], Idle, NotClosed);
    assert Next(Start, Begin(q, id)) == s1;
    Extend(ids, s1, Begin(r, id));
    assert Next(s1, Begin(r, id)) == Begun(id, q, r);
  }

  lemma SharedReached(ids: nat -> string, q: nat, r: nat)
    requires q != r && ids(q) == ids(r)
    ensures Reached(ids, Shared(ids(q), q, r, Registered(0), Registered(1), map[ids(q) := 1], 0))
  {
    var id, resp := ids(q), Response(ids(q), []);
    BegunReached(ids, q, r);
    var s2 := Begun(id, q, r);
    Extend(ids, s2, Register(q, 0));
    var s3 := State(map[id := 0], map[0 := Chan(id, None, 0, 0)], map[q := Call(id, Registered(0)), r := Call(id, Admitted)], Idle, NotClosed);
    assert Next(s2, Register(q, 0)) == s3;
    Extend(ids, s3, Resolve(resp));
    assert map[id := 0] - {id} == map[];
    var s4 := s3.(pending := map[], resolver := Sending(0, resp));
    assert Next(s3, Resolve(resp)) == s4;
    Extend(ids, s4, Register(r, 1));
    assert Next(s4, Register(r, 1)) == Shared(id, q, r, Registered(0), Registered(1), map[id := 1], 0);
  }

  lemma SharedDropping(ids: nat -> string, q: nat, r: nat)
    requires q != r && ids(q) == ids(r)
    ensures Reached(ids, Shared(ids(q), q, r, Dropping(0, Failed), Awaiting(1), map[ids(q) := 1], 0))
  {
    var id := ids(q);
    SharedReached(ids, q, r);
    var s5 := Shared(id, q, r, Registered(0), Registered(1), map[id := 1], 0);
    Extend(ids, s5, Abandon(q));
    var s6 := Shared(id, q, r, Dropping(0, Failed), Registered(1), map[id := 1], 0);
    assert Next(s5, Abandon(q)) == s6;
    Extend(ids, s6, Enqueue(r));
    assert Next(s6, Enqueue(r)) == Shared(id, q, r, Dropping(0, Failed), Awaiting(1), map[id := 1], 0);
  }

  lemma SharedDropClosing(ids: nat -> string, q: nat, r: nat)
    requires q != r && ids(q) == ids(r)
    ensures Reached(ids, Shared(ids(q), q, r, DropClosing(1, Failed), Awaiting(1), map[], 0))
  {
    var id := ids(q);
    SharedDropping(ids, q, r);
    var s7 := Shared(id, q, r, Dropping(0, Failed), Awaiting(1), map[id := 1], 0);
    Extend(ids, s7, Drop(q));
    assert map[id := 1] - {id} == map[];
    assert Next(s7, Drop(q)) == Shared(id, q, r, DropClosing(1, Failed), Awaiting(1), map[], 0);
  }

  /** Whenever two calls share an id there is a run in which the one's drop closes the other's channel, with the
      session open and no response in it. */
  lemma SharedIdClosedUnderneath(ids: nat -> string, q: nat, r: nat)
    requires q != r && ids(q) == ids(r)
    ensures exists s :: Reached(ids, s) && FalseAlarm(s, r)
  {
    var id := ids(q);
    SharedDropClosing(ids, q, r);
    var s8 := Shared(id, q, r, DropClosing(1, Failed), Awaiting(1), map[], 0);
    Extend(ids, s8, DropClose(q));
    var s9 := Shared(id, q, r, Returned(Failed), Awaiting(1), map[], 1);
    assert Next(s8, DropClose(q)) == s9;
    assert FalseAlarm(s9, r);
  }
}
