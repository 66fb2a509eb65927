/** One session against an arbitrary peer and an arbitrary transport, over any sequence of events. */
module AspRuns {
  import opened Bytes
  import opened Wire
  import opened AspSpec
  import opened Reassembly
  import Opening

  /**
   * What can happen to an open session. Receiving one chunk is a sequence of the first four:
   * bytes arrive in the buffer, the whole messages at its front are taken out, and the stream
   * may instead turn out to be plain text or broken.
   */
  datatype Event =
    | Arrive(bytes: seq<byte>)
    | Take(ans: Answers)
    | Plain(text: seq<byte>)
    | Break
    | OnSay(text: seq<byte>, take: nat)
    | OnOffer(name: Option<seq<byte>>, contentType: Option<seq<byte>>, size: u32, crc: u32, take: nat)
    | OnAllow(have: u32, crc: u32, take: nat)
    | OnDeny(reason: byte, take: nat)
    | OnStop(inbound: bool, reason: byte, take: nat)
    | OnFlush(take: nat)
    | OnPump(credit: nat, got: seq<byte>, take: nat)

  predicate Possible(s: Session, e: Event) {
    match e
    case Arrive(bytes) => s.link != Raw && !NotAsp(s, bytes) && |s.inb| + |bytes| <= MAX_MESSAGE
    case Take(_) => s.link != Raw && FrameGet(s.inb).Ok?
    case Plain(text) => s.link == Raw || NotAsp(s, text)
    case Break => s.link != Raw && (FrameGet(s.inb).Malformed? || |s.inb| >= MAX_MESSAGE)
    case OnPump(credit, got, _) => |got| <= Wants(s, credit)
    case _ => true
  }

  function TakeFront(s: Session, ans: Answers): Outcome
    requires FrameGet(s.inb).Ok?
  {
    var f := FrameGet(s.inb);
    var o := Dispatch(s, f.kind, f.payload, ans);
    o.(s := o.s.(inb := s.inb[f.consumed..]))
  }

  function Happen(s: Session, e: Event): Outcome
    requires Possible(s, e)
  {
    match e
    case Arrive(bytes) => Still(s.(inb := s.inb + bytes))
    case Take(ans) => TakeFront(s, ans)
    case Plain(text) => Still(s.(link := Raw)).(effects := [TextArrived(text, true)])
    case Break => Fail(s)
    case OnSay(text, take) => SendText(s, text, take)
    case OnOffer(name, contentType, size, crc, take) => OfferFile(s, name, contentType, size, crc, take)
    case OnAllow(have, crc, take) => Admit(s, have, crc, take)
    case OnDeny(reason, take) => Refuse(s, reason, take)
    case OnStop(inbound, reason, take) => CancelTransfer(s, inbound, reason, take)
    case OnFlush(take) => Flush(s, take)
    case OnPump(credit, got, take) => Pump(s, credit, got, take)
  }

  /** A run so far: the session, everything queued, everything the transport took, all effects. */
  datatype History = History(s: Session, queued: seq<byte>, sent: seq<byte>, effects: seq<Effect>)

  function Extend(h: History, o: Outcome): History {
    History(o.s, h.queued + Image(o), h.sent + o.sent, h.effects + o.effects)
  }

  /** `h'` is `h` after the events `es`, each possible when it happens. */
  ghost predicate Leads(h: History, es: seq<Event>, h': History)
    decreases |es|
  {
    if es == [] then h' == h
    else
      var last := |es| - 1;
      exists mid :: Leads(h, es[..last], mid) && Possible(mid.s, es[last]) && h' == Extend(mid, Happen(mid.s, es[last]))
  }

  lemma HappenConserves(s: Session, e: Event)
    requires Possible(s, e)
    ensures Conserves(s, Happen(s, e))
  {
    match e
    case Take(ans) =>
      var f := FrameGet(s.inb);
      DispatchConserves(s, f.kind, f.payload, ans);
    case OnSay(text, take) => SendTextConserves(s, text, take);
    case OnOffer(name, contentType, size, crc, take) => OfferConserves(s, name, contentType, size, crc, take);
    case OnAllow(have, crc, take) => UserStepsConserve(s, true, have, crc, 0, take);
    case OnDeny(reason, take) => UserStepsConserve(s, true, 0, 0, reason, take);
    case OnStop(inbound, reason, take) => UserStepsConserve(s, inbound, 0, 0, reason, take);
    case OnFlush(take) => FlushConserves(s, take);
    case OnPump(credit, got, take) => PumpConserves(s, credit, got, take);
    case _ => FlushConserves(s, 0);
  }

  /**
   * Outbound stream: over any run, whatever the transport accepts at a time, what it took
   * followed by what is pending is everything that was queued, once and in order.
   */
  lemma {:induction false} OutboundStream(h: History, es: seq<Event>, h': History)
    requires Leads(h, es, h') && h.sent + h.s.pending == h.queued
    ensures h'.sent + h'.s.pending == h'.queued
    decreases |es|
  {
    if es != [] {
      var last := |es| - 1;
      var mid :| Leads(h, es[..last], mid) && Possible(mid.s, es[last]) && h' == Extend(mid, Happen(mid.s, es[last]));
      OutboundStream(h, es[..last], mid);
      HappenConserves(mid.s, es[last]);
      Regroup(mid, Happen(mid.s, es[last]));
    }
  }

  lemma Regroup(h: History, o: Outcome)
    requires h.sent + h.s.pending == h.queued && Conserves(h.s, o)
    ensures Extend(h, o).sent + o.s.pending == Extend(h, o).queued
  {
    assert h.sent + o.sent + o.s.pending == h.sent + (o.sent + o.s.pending);
    assert h.sent + (h.s.pending + Image(o)) == h.sent + h.s.pending + Image(o);
  }

  lemma OfferLink(s: Session, p: seq<byte>, ans: Answers)
    ensures AspSpec.OnOffer(s, p, ans).s.link == if OfferGet(p).None? then Idle else s.link
  {
  }

  lemma AcceptLink(s: Session, p: seq<byte>, ans: Answers)
    ensures OnAccept(s, p, ans).s.link == if AcceptGet(p).None? then Idle else s.link
  {
  }

  lemma DataLink(s: Session, p: seq<byte>, ans: Answers)
    ensures OnData(s, p, ans).s.link == s.link
    ensures OnDone(s, p, ans).s.link == if DoneGet(p).None? then Idle else s.link
  {
  }

  lemma OtherLink(s: Session, p: seq<byte>)
    ensures OnHello(s, p).s.link == (if HelloGet(p).Some? then Asp else s.link) && OnTextB(s, p).s.link == s.link
    ensures OnStart(s, p).s.link == if StartGet(p).None? then Idle else s.link
    ensures OnResult(s, p).s.link == if IdCodeGet(p).None? then Idle else s.link
    ensures AspSpec.OnStop(s, p).s.link == s.link
  {
  }

  /** A message opens the session, ends it, or leaves the link as it was. */
  lemma DispatchLink(s: Session, kind: byte, p: seq<byte>, ans: Answers)
    ensures Dispatch(s, kind, p, ans).s.link in {s.link, Asp, Idle}
    ensures s.link in {HelloSent, Asp} ==> Dispatch(s, kind, p, ans).s.link == Opening.LinkOne(s.link, kind, p)
  {
    if kind == OFFER {
      OfferLink(s, p, ans);
    } else if kind == ACCEPT {
      AcceptLink(s, p, ans);
    } else if kind == DATA || kind == DONE {
      DataLink(s, p, ans);
    } else {
      OtherLink(s, p);
    }
  }

  /** One event never leaves raw mode, and enters it only before the peer's first byte is read. */
  lemma RawIsDecidedOnce(s: Session, e: Event)
    requires Possible(s, e)
    ensures s.link == Raw ==> Happen(s, e).s.link == Raw
    ensures s.link == Asp || s.link == Idle ==> Happen(s, e).s.link == Asp || Happen(s, e).s.link == Idle
    ensures Happen(s, e).s.link == Raw ==> s.link == Raw || NotAsp(s, if e.Plain? then e.text else [])
  {
    if e.Take? {
      var f := FrameGet(s.inb);
      DispatchLink(s, f.kind, f.payload, e.ans);
    }
  }

  /** Against any peer, raw mode is for good, and a session that spoke ASP never falls into it. */
  lemma {:induction false} RawIsForGood(h: History, es: seq<Event>, h': History)
    requires Leads(h, es, h')
    ensures h.s.link == Raw ==> h'.s.link == Raw
    ensures h.s.link == Asp ==> h'.s.link == Asp || h'.s.link == Idle
    ensures h.s.link == Idle ==> h'.s.link == Asp || h'.s.link == Idle
    decreases |es|
  {
    if es != [] {
      var last := |es| - 1;
      var mid :| Leads(h, es[..last], mid) && Possible(mid.s, es[last]) && h' == Extend(mid, Happen(mid.s, es[last]));
      RawIsForGood(h, es[..last], mid);
      RawIsDecidedOnce(mid.s, es[last]);
    }
  }

  /** One more event at the end of a run. */
  lemma LeadsOn(h: History, es: seq<Event>, mid: History, e: Event)
    requires Leads(h, es, mid) && Possible(mid.s, e)
    ensures Leads(h, es + [e], Extend(mid, Happen(mid.s, e)))
  {
    assert (es + [e])[..|es + [e]| - 1] == es;
  }

  /** In a session that speaks ASP, a message ends it or leaves it open by its bytes alone. */
  lemma EndsByItsBytes(s: Session, kind: byte, p: seq<byte>, ans: Answers)
    requires s.link == Asp
    ensures Dispatch(s, kind, p, ans).s.link == if EndsSession(kind, p) then Idle else Asp
  {
    DispatchLink(s, kind, p, ans);
  }

  /** What two bytes of nothing and a one-byte chat message look like before the peer has said HELLO. */
  const EMPTY_HELLO: seq<byte> := [HELLO, 0]
  const ONE_LETTER: seq<byte> := [TEXT, 1, 0x41]

  lemma TwoFrames(rest: seq<byte>)
    ensures FrameGet(EMPTY_HELLO + rest) == Ok(HELLO, [], 2)
    ensures FrameGet(ONE_LETTER) == Ok(TEXT, [0x41], 3)
    ensures FrameGet([]).Short?
  {
    FrameRoundTrip(HELLO, [], rest);
    FrameRoundTrip(TEXT, [0x41], []);
    assert Frame(HELLO, []) == EMPTY_HELLO;
    assert Frame(TEXT, [0x41]) == ONE_LETTER == ONE_LETTER + [];
  }

  /** A HELLO that makes no sense is taken out and changes nothing. */
  lemma EmptyHelloIsIgnored(s: Session, rest: seq<byte>, ans: Answers)
    requires s.link == HelloSent && s.inb == EMPTY_HELLO + rest
    ensures Possible(s, Take(ans)) && Happen(s, Take(ans)).s == s.(inb := rest)
  {
    TwoFrames(rest);
    assert s.inb[2..] == rest;
  }

  lemma SeenInOneChunk(s: Session, ans: Answers)
    requires s.link == HelloSent && s.inb == []
    ensures var whole := EMPTY_HELLO + ONE_LETTER;
      && Possible(s, Arrive(whole)) && Happen(s, Arrive(whole)).s == s.(inb := whole)
      && Possible(s.(inb := whole), Take(ans)) && Happen(s.(inb := whole), Take(ans)).s == s.(inb := ONE_LETTER)
      && Possible(s.(inb := ONE_LETTER), Take(ans))
      && Happen(s.(inb := ONE_LETTER), Take(ans)).effects == [TextArrived([0x41], false)]
  {
    EmptyHelloIsIgnored(s.(inb := EMPTY_HELLO + ONE_LETTER), ONE_LETTER, ans);
    TwoFrames([]);
    assert s.inb + (EMPTY_HELLO + ONE_LETTER) == EMPTY_HELLO + ONE_LETTER;
  }

  /**
   * Before the peer has opened the session the cut of the stream can show: after a HELLO that
   * makes no sense, the bytes that `SeenInOneChunk` takes for a framed message are raw text
   * when they come in a chunk of their own.
   */
  lemma SeenInTwoChunks(s: Session, ans: Answers)
    requires s.link == HelloSent && s.inb == []
    ensures Possible(s, Arrive(EMPTY_HELLO)) && Happen(s, Arrive(EMPTY_HELLO)).s == s.(inb := EMPTY_HELLO)
    ensures Possible(s.(inb := EMPTY_HELLO), Take(ans)) && Happen(s.(inb := EMPTY_HELLO), Take(ans)).s == s
    ensures Possible(s, Plain(ONE_LETTER)) && Happen(s, Plain(ONE_LETTER)).effects == [TextArrived(ONE_LETTER, true)]
    ensures Happen(s, Plain(ONE_LETTER)).s.link == Raw
  {
    assert EMPTY_HELLO + [] == EMPTY_HELLO && s.inb + EMPTY_HELLO == EMPTY_HELLO;
    EmptyHelloIsIgnored(s.(inb := EMPTY_HELLO), [], ans);
  }

  /** The stream the two cuts are of is the smallest of its kind. */
  lemma SampleIsAmbiguous()
    ensures Opening.Ambiguous(EMPTY_HELLO + ONE_LETTER)
  {
    TwoFrames(ONE_LETTER);
  }
}
