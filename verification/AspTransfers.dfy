/** That what is asked for happens: chat is heard, offers say what they offer, and a transfer nothing stands in the way of completes. */
module AspTransfers {
  import opened Bytes
  import opened Wire
  import opened AspSpec
  import opened AspVerdicts
  import opened Machines
  import Crc32
  import SafeNames

  // --- chat ---

  /** What is pushed and what is left of `bytes`, when nothing else was pending. */
  lemma FlushIsAll(s: Session, bytes: seq<byte>, take: nat)
    ensures var o := Flush(s.(pending := bytes), take);
      o.sent + o.s.pending == bytes && o.s == s.(pending := o.s.pending)
  {
  }

  predicate GoesOut(s: Session, o: Outcome, bytes: seq<byte>) {
    o.s == s.(pending := o.s.pending) && o.sent + o.s.pending == bytes
  }

  /**
   * Chat goes out whenever nothing is pending and the peer can be spoken to: as one message, or to
   * a peer without ASP as it is.
   */
  lemma TextGoesOut(s: Session, text: seq<byte>, take: nat)
    ensures var o := SendText(s, text, take);
      if |text| > MAX_PAYLOAD || s.pending != [] || s.link == Idle then o == Still(s)
      else GoesOut(s, o, if s.link == Raw then text else Encode(Text(text)))
  {
    FlushIsAll(s, if s.link == Raw then text else Encode(Text(text)), take);
  }

  /** Such a message is read back, and the text shown to the operator. */
  lemma TextIsHeard(r: Session, text: seq<byte>, rest: seq<byte>, ans: Answers)
    requires |text| <= MAX_PAYLOAD
    ensures FrameGet(Encode(Text(text)) + rest) == Ok(TEXT, text, |Encode(Text(text))|)
    ensures Dispatch(r, TEXT, text, ans) == Still(r).(effects := [TextArrived(text, false)])
  {
    FrameRoundTrip(TEXT, text, rest);
  }

  /** A broadcast in its own form is shown as its text; anything else of that type as it came. */
  lemma BroadcastIsHeard(r: Session, call: seq<byte>, id: u16, text: seq<byte>, ans: Answers)
    requires 0 !in call && |text| <= MAX_PAYLOAD
    ensures Dispatch(r, TEXT_B, TextBPut(call, id, text), ans) == Still(r).(effects := [TextArrived(text, false)])
    ensures forall p :: TextBGet(p).None? ==> Dispatch(r, TEXT_B, p, ans) == Still(r).(effects := [TextArrived(p, true)])
  {
    TextBRoundTrip(call, id, text);
  }

  // --- messages that are neither ---

  /** BYE ends the session; a type nobody knows changes nothing. */
  lemma ByeAndUnknown(r: Session, kind: byte, p: seq<byte>, ans: Answers)
    ensures Dispatch(r, BYE, p, ans) == Still(r.(link := Idle))
    ensures kind !in {HELLO, BYE, TEXT, TEXT_B, OFFER, ACCEPT, REJECT, START, DATA, DONE, RESULT, CANCEL} ==>
      Dispatch(r, kind, p, ans) == Still(r)
  {
  }

  /** A malformed OFFER, ACCEPT, START, DONE or RESULT ends the session and says so; a malformed REJECT, CANCEL or HELLO changes nothing. */
  lemma MalformedEnds(r: Session, p: seq<byte>, ans: Answers)
    ensures OfferGet(p).None? ==> Dispatch(r, OFFER, p, ans) == Still(r.(link := Idle)).(effects := [ProtocolError])
    ensures |p| < 10 ==> Dispatch(r, ACCEPT, p, ans) == Still(r.(link := Idle)).(effects := [ProtocolError])
    ensures |p| < 6 ==> Dispatch(r, START, p, ans) == Still(r.(link := Idle)).(effects := [ProtocolError])
    ensures |p| < 2 ==> Dispatch(r, DONE, p, ans) == Still(r.(link := Idle)).(effects := [ProtocolError])
    ensures |p| < 3 ==> Dispatch(r, RESULT, p, ans) == Still(r.(link := Idle)).(effects := [ProtocolError])
    ensures |p| < 3 ==> Dispatch(r, REJECT, p, ans) == Dispatch(r, CANCEL, p, ans) == Still(r)
    ensures HelloGet(p).None? ==> Dispatch(r, HELLO, p, ans) == Still(r)
  {
  }

  // --- offers and results ---

  /** An offer names the file and its type, as far as there is room, under the next id, and becomes the one outbound transfer. */
  lemma OfferSays(s: Session, name: seq<byte>, kind: seq<byte>, size: u32, crc: u32, take: nat)
    requires CanSendFiles(s) && s.pending == []
    requires |name| <= 255 && 0 !in name && |kind| <= 63 && 0 !in kind
    ensures var o := OfferFile(s, Some(name), Some(kind), size, crc, take);
      && o.queued == Some(Offer(s.nextId, size, crc, name, kind))
      && o.s.tx == Outbound(Offered, s.nextId, size, 0, crc) && o.s.nextId == (s.nextId + 1) % 0x1_0000
    ensures var o := OfferFile(s, None, None, size, crc, take);
      o.queued == Some(Offer(s.nextId, size, crc, DEFAULT_NAME, DEFAULT_TYPE))
  {
    NamesFit(name, kind);
    OfferIsQueued(s, OfferMessage(s.nextId, Some(name), Some(kind), size, crc), take);
    OfferIsQueued(s, OfferMessage(s.nextId, None, None, size, crc), take);
  }

  lemma NamesFit(name: seq<byte>, kind: seq<byte>)
    requires |name| <= 255 && 0 !in name && |kind| <= 63 && 0 !in kind
    ensures Clip(CString(name), MAX_NAME) == name && Clip(CString(kind), MAX_CONTENT_TYPE) == kind
    ensures Clip(DEFAULT_NAME, MAX_NAME) == DEFAULT_NAME && Clip(DEFAULT_TYPE, MAX_CONTENT_TYPE) == DEFAULT_TYPE
  {
  }

  lemma OfferIsQueued(s: Session, m: Message, take: nat)
    requires s.pending == [] && m.Offer?
    ensures var o := SendOffer(s.(nextId := (s.nextId + 1) % 0x1_0000), m, take);
      && o.queued == Some(m) && o.s.tx == Outbound(Offered, m.id, m.size, 0, m.crc)
      && o.s.nextId == (s.nextId + 1) % 0x1_0000
  {
  }

  /** The peer's verdict on our transfer is told as it is, whatever it is, and the transfer is over. */
  lemma ResultIsTold(s: Session, code: byte, ans: Answers)
    requires s.tx.state != NoTransfer
    ensures Dispatch(s, RESULT, Payload(Result(s.tx.id, code)), ans) ==
      Still(s.(tx := s.tx.(state := NoTransfer))).(effects := [TransferDone(false, s.tx.id, code)])
  {
    PayloadRoundTrip(Result(s.tx.id, code));
  }

  // --- what stands in the way of a transfer ---

  /** A file that cannot be read on is cancelled with the peer, and the operator told that it fell short. */
  lemma ReadFailureStops(s: Session, credit: nat, take: nat)
    requires Wants(s, credit) > 0
    ensures var o := Pump(s, credit, [], take);
      && o.queued == Some(Cancel(s.tx.id, 0)) && o.effects == [TransferDone(false, s.tx.id, 2)]
      && o.s == s.(pending := o.s.pending, tx := s.tx.(state := NoTransfer))
  {
  }

  /** Data that cannot be written ends the reception, and the peer is told so unless a message of ours is in the way. */
  lemma WriteFailureStops(s: Session, p: seq<byte>, ans: Answers)
    requires s.rx.state == Receiving && !ans.writeOk
    ensures var o := Dispatch(s, DATA, p, ans);
      && o.queued == (if s.pending == [] then Some(Result(s.rx.id, 3)) else None) && o.effects == []
      && o.s == s.(pending := o.s.pending, rx := s.rx.(state := NoTransfer))
  {
  }

  /** A second offer is refused, if the refusal can be queued, and the first transfer goes on. */
  lemma SecondOfferIsRefused(s: Session, p: seq<byte>, m: Message, ans: Answers)
    requires s.rx.state != NoTransfer && OfferGet(p) == Some(m)
    ensures var o := Dispatch(s, OFFER, p, ans);
      && o.queued == (if s.pending == [] then Some(Reject(m.id, 0)) else None) && o.effects == []
      && o.s == s.(pending := o.s.pending)
  {
  }

  /** A decision put off is answered later as one given at once would have been. */
  lemma LateAnswerIsTheSame(s: Session, offer: Message, have: u32, prefixCrc: u32, ans: Answers)
    requires offer.Offer? && s.rx.state == NoTransfer && s.pending == [] && ans.decision.None?
    ensures var now := TakeOffer(s, offer, ans.(decision := Some((have, prefixCrc))));
      var waiting := TakeOffer(s, offer, ans);
      now.s.rx.state == Receiving ==>
        && Admit(waiting.s, have, prefixCrc, ans.take) == now.(effects := [])
        && now.queued == Some(Accept(offer.id, have, prefixCrc)) && now.s.rx.have == have && now.s.rx.running == prefixCrc
  {
  }

  // --- a transfer nothing stands in the way of ---

  /** Two stations, what is on its way between them, the file at the second, and what their operators have been told. */
  datatype Talk = Talk(a: Session, b: Session, toA: Option<Message>, toB: Option<Message>, stored: seq<byte>, told: seq<Effect>)

  function Written(effects: seq<Effect>): seq<byte> {
    if |effects| == 1 && effects[0].Wrote? then effects[0].bytes else []
  }

  function Told(effects: seq<Effect>): seq<Effect> {
    if |effects| == 1 && effects[0].TransferDone? then effects else []
  }

  function ByA(t: Talk, o: Outcome): Talk {
    t.(a := o.s, toA := None, toB := o.queued, told := t.told + Told(o.effects))
  }

  function ByB(t: Talk, o: Outcome): Talk {
    t.(b := o.s, toA := o.queued, toB := None, stored := t.stored + Written(o.effects), told := t.told + Told(o.effects))
  }

  /** What reading the file gives the pump. */
  function Piece(s: Session, file: seq<byte>): (r: seq<byte>)
    ensures |r| <= Wants(s, CHUNK + 8)
  {
    var n := Wants(s, CHUNK + 8);
    if s.tx.offset + n <= |file| then file[s.tx.offset..s.tx.offset + n] else []
  }

  /** A message on its way arrives; when there is none, the first station pumps. */
  function Turn(t: Talk, file: seq<byte>, ans: Answers): Talk {
    if t.toB.Some? then ByB(t, Dispatch(t.b, Kind(t.toB.value), Payload(t.toB.value), ans))
    else if t.toA.Some? then ByA(t, Dispatch(t.a, Kind(t.toA.value), Payload(t.toA.value), ans))
    else ByA(t, Pump(t.a, CHUNK + 8, Piece(t.a, file), ans.take))
  }

  lemma Onward<S>(f: S -> S, s: S, n: nat, t: S, k: nat) returns (total: nat)
    requires t == Iterate(f, n, s)
    ensures Iterate(f, total, s) == Iterate(f, k, t)
  {
    IterateAdds(f, n, k, s);
    total := n + k;
  }

  /** Two steps, or three. */
  lemma StepByStep<S>(f: S -> S, s: S, t: S, u: S) returns (two: nat, three: nat)
    requires f(s) == t && f(t) == u
    ensures Iterate(f, two, s) == u && Iterate(f, three, s) == f(u)
  {
    assert Iterate(f, 1, u) == Iterate(f, 0, f(u));
    assert Iterate(f, 1, t) == Iterate(f, 0, u);
    two, three := 2, 3;
  }

  function Turning(file: seq<byte>, ans: Answers): Talk -> Talk {
    t => Turn(t, file, ans)
  }

  /** Any number of turns. */
  function Turns(t: Talk, file: seq<byte>, ans: Answers, n: nat): Talk {
    Iterate(Turning(file, ans), n, t)
  }

  /** The transport takes everything, the operator agrees and reports `held` truthfully, and files can be read and written. */
  function Obliging(file: seq<byte>, held: seq<byte>): Answers
    requires |held| <= |file| < 0x1_0000_0000
  {
    Answers(MAX_MESSAGE, Some((|held| as u32, Checksum(held))), Some(file[..|held|]), true)
  }

  /** Everything queued is taken at once. */
  lemma TakenAtOnce(s: Session, m: Message)
    requires s.pending == [] && Legal(m)
    ensures Queue(s, m, MAX_MESSAGE) == Outcome(s, Some(m), [], Encode(m), [])
  {
    PayloadRoundTrip(m);
    FrameLength(Kind(m), Payload(m));
    var e := Encode(m);
    assert e[..|e|] == e && e[|e|..] == [];
  }

  // --- what each message comes to ---

  lemma PumpSends(s: Session, id: u16, file: seq<byte>, off: nat)
    requires off < |file| < 0x1_0000_0000 && s.pending == [] && s.tx == Outbound(Running, id, |file|, off, Checksum(file))
    ensures var k := Min(|file| - off, CHUNK);
      && Piece(s, file) == file[off..off + k] && 0 < k
      && Pump(s, CHUNK + 8, Piece(s, file), MAX_MESSAGE) ==
         Outcome(s.(tx := s.tx.(offset := off + k)), Some(Data(file[off..off + k])), [], Encode(Data(file[off..off + k])), [])
  {
    TakenAtOnce(s, Data(file[off..off + Min(|file| - off, CHUNK)]));
  }

  lemma DataIsCounted(s: Session, p: seq<byte>, ans: Answers)
    requires ans.writeOk && s.rx.state == Receiving
    ensures OnData(s, p, ans) == Still(s.(rx := s.rx.(have := (s.rx.have + |p|) % 0x1_0000_0000,
      running := Crc32.Crc(s.rx.running, p)))).(effects := [Wrote(p)])
  {
  }

  lemma DataIsTaken(s: Session, p: seq<byte>, ans: Answers)
    requires ans.writeOk && s.rx.state == Receiving && s.rx.have + |p| < 0x1_0000_0000
    ensures Dispatch(s, DATA, p, ans) ==
      Still(s.(rx := s.rx.(have := s.rx.have + |p|, running := Crc32.Crc(s.rx.running, p)))).(effects := [Wrote(p)])
  {
    DataIsCounted(s, p, ans);
    Unwrapped(s.rx.have + |p|);
    DataIsData(s, p, ans);
  }

  lemma Unwrapped(n: nat)
    requires n < 0x1_0000_0000
    ensures n % 0x1_0000_0000 == n
  {
  }

  lemma DataIsData(s: Session, p: seq<byte>, ans: Answers)
    ensures Dispatch(s, DATA, p, ans) == OnData(s, p, ans)
  {
  }

  lemma SumGoesOn(file: seq<byte>, off: nat, k: nat)
    requires off + k <= |file|
    ensures Crc32.Crc(Checksum(file[..off]), file[off..off + k]) == Checksum(file[..off + k])
    ensures file[..off] + file[off..off + k] == file[..off + k]
  {
    assert file[..off] + file[off..off + k] == file[..off + k];
    Crc32.CrcContinues(Crc32.INIT, file[..off], file[off..off + k]);
  }

  lemma PumpEnds(s: Session, id: u16, file: seq<byte>)
    requires |file| < 0x1_0000_0000 && s.pending == [] && s.tx == Outbound(Running, id, |file|, |file|, Checksum(file))
    ensures Pump(s, CHUNK + 8, Piece(s, file), MAX_MESSAGE) ==
      Outcome(s.(tx := s.tx.(state := AwaitResult)), Some(Done(id)), [], Encode(Done(id)), [])
  {
    TakenAtOnce(s, Done(id));
  }

  lemma DoneIsOk(s: Session, ans: Answers)
    requires s.pending == [] && ans.take == MAX_MESSAGE && s.rx.state == Receiving
    requires s.rx.size == s.rx.have && s.rx.crc == s.rx.running
    ensures Dispatch(s, DONE, Payload(Done(s.rx.id)), ans) ==
      Outcome(s.(rx := s.rx.(state := NoTransfer)), Some(Result(s.rx.id, RESULT_OK)), [], Encode(Result(s.rx.id, RESULT_OK)),
        [TransferDone(true, s.rx.id, RESULT_OK)])
  {
    PayloadRoundTrip(Done(s.rx.id));
    TakenAtOnce(s, Result(s.rx.id, RESULT_OK));
  }

  /** An offer admitted at once. */
  function Admitted(s: Session, m: Message, name: seq<byte>, d: (u32, u32)): Outcome
    requires m.Offer?
  {
    Outcome(s.(rx := Inbound(Receiving, m.id, m.size, d.0, m.crc, d.1, name)), Some(Accept(m.id, d.0, d.1)), [],
      Encode(Accept(m.id, d.0, d.1)), [Asked(m.id, m.size, m.name)])
  }

  lemma OfferTaken(s: Session, m: Message, name: seq<byte>, ans: Answers)
    requires m.Offer? && s.rx.state == NoTransfer && s.pending == [] && ans.take == MAX_MESSAGE
    requires SafeNames.SafeName(m.name, MAX_NAME + 1) == Some(name) && ans.decision.Some?
    ensures TakeOffer(s, m, ans) == Admitted(s, m, name, ans.decision.value)
  {
    var s' := s.(rx := Inbound(Receiving, m.id, m.size, 0, m.crc, Crc32.INIT, name));
    TakenAtOnce(s', Accept(m.id, ans.decision.value.0, ans.decision.value.1));
  }

  lemma OfferIsAdmitted(s: Session, m: Message, name: seq<byte>, ans: Answers)
    requires m.Offer? && Legal(m) && s.rx.state == NoTransfer && s.pending == [] && ans.take == MAX_MESSAGE
    requires SafeNames.SafeName(m.name, MAX_NAME + 1) == Some(name) && ans.decision.Some?
    ensures Dispatch(s, OFFER, Payload(m), ans) == Admitted(s, m, name, ans.decision.value)
  {
    PayloadRoundTrip(m);
    OfferTaken(s, m, name, ans);
  }

  lemma AcceptIsStarted(s: Session, file: seq<byte>, held: seq<byte>, ans: Answers)
    requires |file| < 0x1_0000_0000 && held <= file && ans == Obliging(file, held)
    requires s.tx.state == Offered && s.tx.size == |file| && s.pending == []
    ensures Dispatch(s, ACCEPT, Payload(Accept(s.tx.id, |held|, Checksum(held))), ans) ==
      Outcome(s.(tx := s.tx.(state := Running, offset := |held|)), Some(Start(s.tx.id, |held|)), [],
        Encode(Start(s.tx.id, |held|)), [])
  {
    PayloadRoundTrip(Accept(s.tx.id, |held|, Checksum(held)));
    assert file[..|held|] == held;
    TakenAtOnce(s, Start(s.tx.id, |held|));
  }

  lemma StartIsMet(s: Session, held: nat, ans: Answers)
    requires held < 0x1_0000_0000 && s.rx.state == Receiving && s.rx.have == held
    ensures Dispatch(s, START, Payload(Start(s.rx.id, held)), ans) == Still(s)
  {
    PayloadRoundTrip(Start(s.rx.id, held));
  }

  // --- the transfer ---

  /** The first `off` bytes of the file are over. */
  predicate Under(t: Talk, id: u16, file: seq<byte>, off: nat) {
    && off <= |file| < 0x1_0000_0000 && t.a.pending == t.b.pending == [] && t.told == [] && t.stored == file[..off]
    && t.toA == None && t.toB == None
    && t.a.tx == Outbound(Running, id, |file|, off, Checksum(file))
    && t.b.rx.state == Receiving && t.b.rx.id == id && t.b.rx.size == |file| && t.b.rx.crc == Checksum(file)
    && t.b.rx.have == off && t.b.rx.running == Checksum(file[..off])
  }

  lemma ChunkIsSent(t: Talk, id: u16, file: seq<byte>, off: nat, ans: Answers)
    requires Under(t, id, file, off) && off < |file| && ans.take == MAX_MESSAGE
    ensures var k := Min(|file| - off, CHUNK);
      Turn(t, file, ans) == t.(a := t.a.(tx := t.a.tx.(offset := off + k)), toB := Some(Data(file[off..off + k])))
  {
    PumpSends(t.a, id, file, off);
    assert t.told + [] == t.told;
  }

  lemma ChunkIsTaken(t: Talk, p: seq<byte>, file: seq<byte>, ans: Answers)
    requires t.toB == Some(Data(p)) && ans.writeOk && t.b.rx.state == Receiving && t.b.rx.have + |p| < 0x1_0000_0000
    ensures Turn(t, file, ans) ==
      t.(b := t.b.(rx := t.b.rx.(have := t.b.rx.have + |p|, running := Crc32.Crc(t.b.rx.running, p))),
         toA := None, toB := None, stored := t.stored + p)
  {
    DataIsTaken(t.b, p, ans);
    assert t.told + [] == t.told;
  }

  lemma ChunkGoesOver(t: Talk, id: u16, file: seq<byte>, off: nat, held: seq<byte>) returns (n: nat, u: Talk)
    requires Under(t, id, file, off) && off < |file| && |held| <= |file|
    ensures u == Turns(t, file, Obliging(file, held), n) && Under(u, id, file, off + Min(|file| - off, CHUNK))
  {
    var k, ans := Min(|file| - off, CHUNK), Obliging(file, held);
    var sent := t.(a := t.a.(tx := t.a.tx.(offset := off + k)), toB := Some(Data(file[off..off + k])));
    ChunkIsSent(t, id, file, off, ans);
    ChunkIsTaken(sent, file[off..off + k], file, ans);
    SumGoesOn(file, off, k);
    u := Turn(sent, file, ans);
    var three;
    n, three := StepByStep(Turning(file, ans), t, sent, u);
  }

  /** Both operators have been told, the file is whole, and both stations are free for another. */
  predicate Over(t: Talk, id: u16, file: seq<byte>) {
    && t.stored == file && t.told == [TransferDone(true, id, RESULT_OK), TransferDone(false, id, RESULT_OK)]
    && t.a.tx.state == NoTransfer && t.b.rx.state == NoTransfer
  }

  lemma EndIsSent(t: Talk, id: u16, file: seq<byte>, ans: Answers)
    requires Under(t, id, file, |file|) && ans.take == MAX_MESSAGE
    ensures Turn(t, file, ans) == t.(a := t.a.(tx := t.a.tx.(state := AwaitResult)), toB := Some(Done(id)))
  {
    PumpEnds(t.a, id, file);
    assert t.told + [] == t.told;
  }

  lemma EndIsJudged(t: Talk, id: u16, file: seq<byte>, ans: Answers)
    requires t.toB == Some(Done(id)) && t.b.pending == [] && ans.take == MAX_MESSAGE && t.b.rx.state == Receiving && t.b.rx.id == id
    requires t.b.rx.size == t.b.rx.have && t.b.rx.crc == t.b.rx.running
    ensures Turn(t, file, ans) ==
      t.(b := t.b.(rx := t.b.rx.(state := NoTransfer)), toA := Some(Result(id, RESULT_OK)), toB := None,
         told := t.told + [TransferDone(true, id, RESULT_OK)])
  {
    DoneIsOk(t.b, ans);
    assert t.stored + [] == t.stored;
  }

  lemma VerdictIsTold(t: Talk, id: u16, file: seq<byte>, ans: Answers)
    requires t.toB == None && t.toA == Some(Result(id, RESULT_OK)) && t.a.tx.state == AwaitResult && t.a.tx.id == id
    ensures Turn(t, file, ans) ==
      t.(a := t.a.(tx := t.a.tx.(state := NoTransfer)), toA := None, told := t.told + [TransferDone(false, id, RESULT_OK)])
  {
    ResultIsTold(t.a, RESULT_OK, ans);
  }

  lemma EndGoesOver(t: Talk, id: u16, file: seq<byte>, held: seq<byte>) returns (n: nat, u: Talk)
    requires Under(t, id, file, |file|) && |held| <= |file|
    ensures u == Turns(t, file, Obliging(file, held), n) && Over(u, id, file)
  {
    var ans := Obliging(file, held);
    assert file[..|file|] == file;
    EndIsSent(t, id, file, ans);
    var sent := t.(a := t.a.(tx := t.a.tx.(state := AwaitResult)), toB := Some(Done(id)));
    EndIsJudged(sent, id, file, ans);
    var judged := Turn(sent, file, ans);
    VerdictIsTold(judged, id, file, ans);
    u := Turn(judged, file, ans);
    var two;
    two, n := StepByStep(Turning(file, ans), t, sent, judged);
  }

  /** What a number of turns leads to, they lead to from before it. */
  lemma TurnsOn(t: Talk, n: nat, u: Talk, k: nat, file: seq<byte>, ans: Answers) returns (total: nat)
    requires u == Turns(t, file, ans, n)
    ensures Turns(t, file, ans, total) == Turns(u, file, ans, k)
  {
    total := Onward(Turning(file, ans), t, n, u, k);
  }

  lemma {:induction false} PumpingCompletes(t: Talk, id: u16, file: seq<byte>, off: nat, held: seq<byte>) returns (n: nat)
    requires Under(t, id, file, off) && |held| <= |file|
    ensures Over(Turns(t, file, Obliging(file, held), n), id, file)
    decreases |file| - off
  {
    var u;
    if off < |file| {
      n, u := ChunkGoesOver(t, id, file, off, held);
      var k := PumpingCompletes(u, id, file, off + Min(|file| - off, CHUNK), held);
      n := TurnsOn(t, n, u, k, file, Obliging(file, held));
    } else {
      n, u := EndGoesOver(t, id, file, held);
    }
  }

  lemma OfferIsTakenUp(t: Talk, m: Message, name: seq<byte>, file: seq<byte>, ans: Answers)
    requires t.toB == Some(m) && m.Offer? && Legal(m) && t.b.rx.state == NoTransfer && t.b.pending == [] && ans.take == MAX_MESSAGE
    requires SafeNames.SafeName(m.name, MAX_NAME + 1) == Some(name) && ans.decision.Some?
    ensures var d := ans.decision.value;
      Turn(t, file, ans) ==
        t.(b := t.b.(rx := Inbound(Receiving, m.id, m.size, d.0, m.crc, d.1, name)), toA := Some(Accept(m.id, d.0, d.1)), toB := None)
  {
    OfferIsAdmitted(t.b, m, name, ans);
    assert t.stored + [] == t.stored && t.told + [] == t.told;
  }

  lemma AcceptIsMet(t: Talk, file: seq<byte>, held: seq<byte>, ans: Answers)
    requires |file| < 0x1_0000_0000 && held <= file && ans == Obliging(file, held)
    requires t.a.tx.state == Offered && t.a.tx.size == |file| && t.a.pending == []
    requires t.toB == None && t.toA == Some(Accept(t.a.tx.id, |held|, Checksum(held)))
    ensures Turn(t, file, ans) ==
      t.(a := t.a.(tx := t.a.tx.(state := Running, offset := |held|)), toA := None, toB := Some(Start(t.a.tx.id, |held|)))
  {
    AcceptIsStarted(t.a, file, held, ans);
    assert t.told + [] == t.told;
  }

  lemma StartIsTaken(t: Talk, id: u16, held: nat, file: seq<byte>, ans: Answers)
    requires held < 0x1_0000_0000 && t.toB == Some(Start(id, held)) && t.b.rx.state == Receiving && t.b.rx.id == id && t.b.rx.have == held
    ensures Turn(t, file, ans) == t.(toA := None, toB := None)
  {
    StartIsMet(t.b, held, ans);
    assert t.stored + [] == t.stored && t.told + [] == t.told;
  }

  /** `m` offers the file and is on its way, nothing else is, and the receiver holds a prefix. */
  predicate Offering(t: Talk, m: Message, name: seq<byte>, file: seq<byte>, held: seq<byte>) {
    && |file| < 0x1_0000_0000 && held <= file && t.told == [] && t.stored == held && t.toA == None && t.toB == Some(m)
    && t.b.rx.state == NoTransfer && t.a.pending == t.b.pending == []
    && m.Offer? && Legal(m) && m.size == |file| && m.crc == Checksum(file)
    && t.a.tx == Outbound(Offered, m.id, |file|, 0, Checksum(file))
    && SafeNames.SafeName(m.name, MAX_NAME + 1) == Some(name)
  }

  /** Offered, accepted and started, with a true prefix of the file already held. */
  lemma TransferBegins(t: Talk, m: Message, name: seq<byte>, file: seq<byte>, held: seq<byte>) returns (n: nat, u: Talk)
    requires Offering(t, m, name, file, held)
    ensures u == Turns(t, file, Obliging(file, held), n) && Under(u, m.id, file, |held|)
  {
    var ans := Obliging(file, held);
    assert file[..|held|] == held;
    OfferIsTakenUp(t, m, name, file, ans);
    var taken := Turn(t, file, ans);
    AcceptIsMet(taken, file, held, ans);
    var met := Turn(taken, file, ans);
    StartIsTaken(met, m.id, |held|, file, ans);
    u := Turn(met, file, ans);
    var two;
    two, n := StepByStep(Turning(file, ans), t, taken, met);
  }

  lemma ThenCompletes(t: Talk, begun: nat, u: Talk, id: u16, file: seq<byte>, held: seq<byte>) returns (n: nat)
    requires |held| <= |file| < 0x1_0000_0000
    requires u == Turns(t, file, Obliging(file, held), begun) && Under(u, id, file, |held|)
    ensures Over(Turns(t, file, Obliging(file, held), n), id, file)
  {
    var k := PumpingCompletes(u, id, file, |held|, held);
    n := TurnsOn(t, begun, u, k, file, Obliging(file, held));
  }

  /** What an obliging transport makes of an offer. */
  lemma OfferGoesOut(a: Session, name: seq<byte>, kind: seq<byte>, size: u32, crc: u32)
    requires CanSendFiles(a) && a.pending == []
    requires |name| <= MAX_NAME && 0 !in name && |kind| <= MAX_CONTENT_TYPE && 0 !in kind
    ensures var m := Offer(a.nextId, size, crc, name, kind);
      && Legal(m)
      && OfferFile(a, Some(name), Some(kind), size, crc, MAX_MESSAGE) ==
         Outcome(a.(nextId := (a.nextId + 1) % 0x1_0000, tx := Outbound(Offered, a.nextId, size, 0, crc)), Some(m), [], Encode(m), [])
  {
    NamesFit(name, kind);
    TakenAtOnce(a.(nextId := (a.nextId + 1) % 0x1_0000), Offer(a.nextId, size, crc, name, kind));
  }

  /**
   * A file offered under a name something is left of, to a station receiving nothing and holding a
   * true prefix of it, or none of it, gets through if nothing is refused and nothing fails: after
   * some number of turns the receiver has the whole file, both operators have been told it is OK,
   * and both stations are free.
   */
  lemma TransferGoesThrough(a: Session, b: Session, name: seq<byte>, kind: seq<byte>, file: seq<byte>, held: seq<byte>)
    returns (n: nat)
    requires |file| < 0x1_0000_0000 && held <= file
    requires CanSendFiles(a) && b.rx.state == NoTransfer && a.pending == b.pending == []
    requires |name| <= MAX_NAME && 0 !in name && |kind| <= MAX_CONTENT_TYPE && 0 !in kind
    requires SafeNames.SafeName(name, MAX_NAME + 1).Some?
    ensures var ans := Obliging(file, held);
      var o := OfferFile(a, Some(name), Some(kind), |file|, Checksum(file), ans.take);
      Over(Turns(Talk(o.s, b, None, o.queued, held, []), file, ans, n), a.nextId, file)
  {
    var ans := Obliging(file, held);
    var m := Offer(a.nextId, |file|, Checksum(file), name, kind);
    OfferGoesOut(a, name, kind, |file|, Checksum(file));
    var a' := a.(nextId := (a.nextId + 1) % 0x1_0000, tx := Outbound(Offered, a.nextId, |file|, 0, Checksum(file)));
    var t, u := Talk(a', b, None, Some(m), held, []), Talk(a', b, None, None, [], []);
    n, u := TransferBegins(t, m, SafeNames.SafeName(name, MAX_NAME + 1).value, file, held);
    n := ThenCompletes(t, n, u, a.nextId, file, held);
  }
}
