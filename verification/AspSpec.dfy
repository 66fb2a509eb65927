/**
 * What every entry point of an ASP/1 session does, as functions from the session and the
 * answers of the world outside it to the session's next state and its effects.
 */
module AspSpec {
  import opened Bytes
  import opened Wire
  import Crc32
  import SafeNames

  const CHUNK := 1024

  const REFUSED: byte := 0
  const BAD_NAME: byte := 4

  const RESULT_OK: byte := 0
  const CRC_MISMATCH: byte := 1
  const SHORT: byte := 2
  const WRITE_FAILED: byte := 3

  datatype LinkState = Idle | HelloSent | Asp | Raw

  datatype XferState = NoTransfer | Offered | Running | AwaitResult | Receiving

  datatype Outbound = Outbound(state: XferState, id: u16, size: u32, offset: u32, crc: u32)

  datatype Inbound = Inbound(state: XferState, id: u16, size: u32, have: u32, crc: u32, running: u32, name: seq<byte>)

  datatype Session = Session(
    link: LinkState,
    peerCall: seq<byte>,
    peerCaps: u32,
    inb: seq<byte>,      // received and not yet a whole message
    pending: seq<byte>,  // queued and not yet taken by the transport
    tx: Outbound,
    rx: Inbound,
    nextId: u16)

  /** What a session asks of the world, apart from sending. */
  datatype Effect =
    | Asked(id: u16, size: u32, name: seq<byte>)
    | Wrote(bytes: seq<byte>)
    | Truncated
    | TextArrived(text: seq<byte>, raw: bool)
    | TransferDone(inbound: bool, id: u16, result: byte)
    | ProtocolError

  /**
   * The world's answers during one step: how many bytes the transport takes, what is
   * decided about an offer, what reading a file prefix gives (None when a read fails),
   * and whether a write succeeds.
   */
  datatype Answers = Answers(take: nat, decision: Option<(u32, u32)>, prefix: Option<seq<byte>>, writeOk: bool)

  /**
   * A step's result: the new session, the message it queued if any, the unframed text it
   * queued if any, the bytes the transport took, and its other effects in order.
   */
  datatype Outcome = Outcome(s: Session, queued: Option<Message>, plain: seq<byte>, sent: seq<byte>, effects: seq<Effect>)

  function Still(s: Session): (o: Outcome)
    ensures o.s.inb == s.inb
  {
    Outcome(s, None, [], [], [])
  }

  // --- outbound ---

  function Flush(s: Session, take: nat): (o: Outcome)
    ensures o.s.inb == s.inb
  {
    var n := Min(take, |s.pending|);
    Outcome(s.(pending := s.pending[n..]), None, [], s.pending[..n], [])
  }

  /** Queue one message if nothing is waiting, and push what the transport will take. */
  function Queue(s: Session, m: Message, take: nat): (o: Outcome)
    ensures o.s.inb == s.inb
  {
    if s.pending != [] then Still(s)
    else Flush(s.(pending := Encode(m)), take).(queued := Some(m))
  }

  function Fail(s: Session): (o: Outcome)
    ensures o.s.inb == s.inb
  {
    Still(s.(link := Idle)).(effects := [ProtocolError])
  }

  // --- lifecycle ---

  const NO_TX := Outbound(NoTransfer, 0, 0, 0, 0)
  const NO_RX := Inbound(NoTransfer, 0, 0, 0, 0, 0, [])

  function Open(myCall: seq<byte>, take: nat): Outcome {
    var s := Session(HelloSent, [], 0, [], [], NO_TX, NO_RX, 1);
    Queue(s, Hello(VERSION, CAP_FILES + CAP_RESUME, Clip(CString(myCall), MAX_CALL - 1)), take)
  }

  function Close(s: Session): Session {
    s.(link := Idle, inb := [], pending := [], tx := s.tx.(state := NoTransfer), rx := s.rx.(state := NoTransfer))
  }

  predicate CanSendFiles(s: Session) {
    s.link == Asp && s.peerCaps % 2 == 1 && s.tx.state == NoTransfer
  }

  // --- chat ---

  function SendText(s: Session, text: seq<byte>, take: nat): Outcome {
    if |text| > MAX_PAYLOAD then Still(s)
    else if s.link == Raw then
      if s.pending != [] then Still(s)
      else Flush(s.(pending := text), take).(plain := text)
    else if s.link == Asp || s.link == HelloSent then Queue(s, Text(text), take)
    else Still(s)
  }

  // --- file transfer, outbound ---

  const DEFAULT_NAME: seq<byte> := [0x66, 0x69, 0x6c, 0x65]  // "file"
  const DEFAULT_TYPE: seq<byte> := [0x61, 0x70, 0x70, 0x6c, 0x69, 0x63, 0x61, 0x74, 0x69, 0x6f, 0x6e, 0x2f,
    0x6f, 0x63, 0x74, 0x65, 0x74, 0x2d, 0x73, 0x74, 0x72, 0x65, 0x61, 0x6d]  // "application/octet-stream"

  function OfferMessage(id: u16, name: Option<seq<byte>>, contentType: Option<seq<byte>>, size: u32, crc: u32): Message {
    Offer(id, size, crc,
      Clip(if name.Some? then CString(name.value) else DEFAULT_NAME, MAX_NAME),
      Clip(if contentType.Some? then CString(contentType.value) else DEFAULT_TYPE, MAX_CONTENT_TYPE))
  }

  /** Queue an offer and, if it could be queued, take it as the one outbound transfer. */
  function SendOffer(s: Session, m: Message, take: nat): (o: Outcome)
    requires m.Offer?
    ensures o.s.inb == s.inb
  {
    var o := Queue(s, m, take);
    if o.queued.None? then o else o.(s := o.s.(tx := Outbound(Offered, m.id, m.size, 0, m.crc)))
  }

  function OfferFile(s: Session, name: Option<seq<byte>>, contentType: Option<seq<byte>>, size: u32, crc: u32, take: nat): Outcome {
    if !CanSendFiles(s) then Still(s)
    else SendOffer(s.(nextId := (s.nextId + 1) % 0x1_0000), OfferMessage(s.nextId, name, contentType, size, crc), take)
  }

  /** Whether a step of the pump will read the file, and how much it will ask for. */
  function Wants(s: Session, credit: nat): nat {
    if s.tx.state != Running || s.pending != [] || credit < CHUNK + 8 || s.tx.offset >= s.tx.size then 0
    else Min(s.tx.size - s.tx.offset, CHUNK)
  }

  /** Move one chunk of the active transfer, `got` being what reading the file gave. */
  function Pump(s: Session, credit: nat, got: seq<byte>, take: nat): Outcome
    requires |got| <= Wants(s, credit)
  {
    if s.tx.state != Running || s.pending != [] || credit < CHUNK + 8 then Still(s)
    else if s.tx.offset >= s.tx.size then
      var o := Queue(s, Done(s.tx.id), take);
      o.(s := o.s.(tx := s.tx.(state := AwaitResult)))
    else if got == [] then
      var o := Queue(s, Cancel(s.tx.id, REFUSED), take);
      o.(s := o.s.(tx := s.tx.(state := NoTransfer)), effects := [TransferDone(false, s.tx.id, SHORT)])
    else
      var o := Queue(s, Data(got), take);
      o.(s := o.s.(tx := s.tx.(offset := s.tx.offset + |got|)))
  }

  function CancelTransfer(s: Session, inbound: bool, reason: byte, take: nat): Outcome {
    if inbound then
      if s.rx.state == NoTransfer then Still(s)
      else
        var o := Queue(s, Cancel(s.rx.id, reason), take);
        if o.queued.None? then o else o.(s := o.s.(rx := s.rx.(state := NoTransfer)))
    else
      if s.tx.state == NoTransfer then Still(s)
      else
        var o := Queue(s, Cancel(s.tx.id, reason), take);
        if o.queued.None? then o else o.(s := o.s.(tx := s.tx.(state := NoTransfer)))
  }

  // --- file transfer, inbound ---

  function Refuse(s: Session, reason: byte, take: nat): (o: Outcome)
    ensures o.s.inb == s.inb
  {
    if s.rx.state != Receiving then Still(s)
    else Queue(s.(rx := s.rx.(state := NoTransfer)), Reject(s.rx.id, reason), take)
  }

  function Admit(s: Session, have: u32, prefixCrc: u32, take: nat): (o: Outcome)
    ensures o.s.inb == s.inb
  {
    if s.rx.state != Receiving then Still(s)
    else
      var o := Queue(s, Accept(s.rx.id, have, prefixCrc), take);
      if o.queued.None? then o else o.(s := o.s.(rx := s.rx.(have := have, running := prefixCrc)))
  }

  /** A well-formed offer: one inbound transfer at a time, and only under a safe name. */
  function TakeOffer(s: Session, offer: Message, ans: Answers): (o: Outcome)
    requires offer.Offer?
    ensures o.s.inb == s.inb
  {
    if s.rx.state != NoTransfer then Queue(s, Reject(offer.id, REFUSED), ans.take)
    else match SafeNames.SafeName(offer.name, MAX_NAME + 1)
      case None => Queue(s, Reject(offer.id, BAD_NAME), ans.take)
      case Some(name) =>
        var s' := s.(rx := Inbound(Receiving, offer.id, offer.size, 0, offer.crc, Crc32.INIT, name));
        var o := if ans.decision.Some? then Admit(s', ans.decision.value.0, ans.decision.value.1, ans.take) else Still(s');
        o.(effects := [Asked(offer.id, offer.size, offer.name)])
  }

  function OnOffer(s: Session, p: seq<byte>, ans: Answers): (o: Outcome)
    ensures o.s.inb == s.inb
  {
    match OfferGet(p)
    case None => Fail(s)
    case Some(offer) => TakeOffer(s, offer, ans)
  }

  /** Where to start: at `have` if the prefix read back has the CRC the receiver reported. */
  function StartOffset(size: u32, have: u32, prefixCrc: u32, prefix: Option<seq<byte>>): (from: u32)
    ensures from == 0 || from == have <= size
  {
    if 0 < have <= size && prefix.Some? && |prefix.value| == have && Crc32.Crc(Crc32.INIT, prefix.value) == prefixCrc
    then have else 0
  }

  function OnAccept(s: Session, p: seq<byte>, ans: Answers): (o: Outcome)
    ensures o.s.inb == s.inb
  {
    match AcceptGet(p)
    case None => Fail(s)
    case Some(a) =>
      if s.tx.state != Offered || a.id != s.tx.id then Still(s)
      else
        var from := StartOffset(s.tx.size, a.have, a.prefixCrc, ans.prefix);
        var o := Queue(s, Start(s.tx.id, from), ans.take);
        if o.queued.None? then o else o.(s := o.s.(tx := s.tx.(state := Running, offset := from)))
  }

  function OnStart(s: Session, p: seq<byte>): (o: Outcome)
    ensures o.s.inb == s.inb
  {
    match StartGet(p)
    case None => Fail(s)
    case Some(m) =>
      if s.rx.state != Receiving || m.id != s.rx.id then Still(s)
      else if m.from == 0 && s.rx.have > 0 then
        Still(s.(rx := s.rx.(have := 0, running := Crc32.INIT))).(effects := [Truncated])
      else Still(s.(rx := s.rx.(have := m.from)))
  }

  function OnData(s: Session, p: seq<byte>, ans: Answers): (o: Outcome)
    ensures o.s.inb == s.inb
  {
    if s.rx.state != Receiving then Still(s)
    else if !ans.writeOk then
      var o := Queue(s, Result(s.rx.id, WRITE_FAILED), ans.take);
      o.(s := o.s.(rx := s.rx.(state := NoTransfer)))
    else
      Still(s.(rx := s.rx.(have := (s.rx.have + |p|) % 0x1_0000_0000, running := Crc32.Crc(s.rx.running, p))))
        .(effects := [Wrote(p)])
  }

  /** The receiver's verdict on a whole transfer. */
  function Verdict(rx: Inbound): byte {
    if rx.have != rx.size then SHORT else if rx.running != rx.crc then CRC_MISMATCH else RESULT_OK
  }

  function OnDone(s: Session, p: seq<byte>, ans: Answers): (o: Outcome)
    ensures o.s.inb == s.inb
  {
    match DoneGet(p)
    case None => Fail(s)
    case Some(m) =>
      if s.rx.state != Receiving || m.id != s.rx.id then Still(s)
      else
        var o := Queue(s, Result(m.id, Verdict(s.rx)), ans.take);
        o.(s := o.s.(rx := s.rx.(state := NoTransfer)), effects := [TransferDone(true, m.id, Verdict(s.rx))])
  }

  function OnResult(s: Session, p: seq<byte>): (o: Outcome)
    ensures o.s.inb == s.inb
  {
    match IdCodeGet(p)
    case None => Fail(s)
    case Some(ic) =>
      if s.tx.state == NoTransfer || ic.0 != s.tx.id then Still(s)
      else Still(s.(tx := s.tx.(state := NoTransfer))).(effects := [TransferDone(false, ic.0, ic.1)])
  }

  /** REJECT and CANCEL do not say whose transfer they mean; ours is tried first. */
  function OnStop(s: Session, p: seq<byte>): (o: Outcome)
    ensures o.s.inb == s.inb
  {
    match IdCodeGet(p)
    case None => Still(s)
    case Some(ic) =>
      if s.tx.state != NoTransfer && ic.0 == s.tx.id then
        Still(s.(tx := s.tx.(state := NoTransfer))).(effects := [TransferDone(false, ic.0, SHORT)])
      else if s.rx.state != NoTransfer && ic.0 == s.rx.id then
        Still(s.(rx := s.rx.(state := NoTransfer))).(effects := [TransferDone(true, ic.0, SHORT)])
      else Still(s)
  }

  function OnHello(s: Session, p: seq<byte>): (o: Outcome)
    ensures o.s.inb == s.inb
  {
    match HelloGet(p)
    case None => Still(s)
    case Some(h) => Still(s.(peerCaps := h.caps, peerCall := h.call, link := Asp))
  }

  function OnTextB(s: Session, p: seq<byte>): (o: Outcome)
    ensures o.s.inb == s.inb
  {
    match TextBGet(p)
    case None => Still(s).(effects := [TextArrived(p, true)])
    case Some(t) => Still(s).(effects := [TextArrived(t.2, false)])
  }

  /** One whole message. An unknown type is skipped and is never an error. */
  function Dispatch(s: Session, kind: byte, p: seq<byte>, ans: Answers): (o: Outcome)
    ensures o.s.inb == s.inb
  {
    if kind == HELLO then OnHello(s, p)
    else if kind == BYE then Still(s.(link := Idle))
    else if kind == TEXT then Still(s).(effects := [TextArrived(p, false)])
    else if kind == TEXT_B then OnTextB(s, p)
    else if kind == OFFER then OnOffer(s, p, ans)
    else if kind == ACCEPT then OnAccept(s, p, ans)
    else if kind == START then OnStart(s, p)
    else if kind == DATA then OnData(s, p, ans)
    else if kind == DONE then OnDone(s, p, ans)
    else if kind == RESULT then OnResult(s, p)
    else if kind == REJECT || kind == CANCEL then OnStop(s, p)
    else Still(s)
  }

  /** A peer that does not open with a HELLO is not speaking ASP. */
  predicate NotAsp(s: Session, bytes: seq<byte>) {
    s.link == HelloSent && s.inb == [] && bytes != [] && bytes[0] != HELLO
  }

  // --- laws of single steps ---

  /** The bytes a step put in the outbound buffer. */
  function Image(o: Outcome): seq<byte> {
    (if o.queued.Some? then Encode(o.queued.value) else []) + o.plain
  }

  /**
   * The outbound law: what the transport took, then what is pending, is what was pending,
   * then what was queued. Nothing is lost, repeated or interleaved, however sends are cut.
   */
  ghost predicate Conserves(s: Session, o: Outcome) {
    o.sent + o.s.pending == s.pending + Image(o)
  }

  lemma FlushConserves(s: Session, take: nat)
    ensures Conserves(s, Flush(s, take))
  {
  }

  lemma QueueConserves(s: Session, m: Message, take: nat)
    ensures Conserves(s, Queue(s, m, take))
  {
    assert Encode(m) + [] == Encode(m);
    assert [] + Encode(m) == Encode(m);
  }

  lemma SendTextConserves(s: Session, text: seq<byte>, take: nat)
    ensures Conserves(s, SendText(s, text, take))
  {
    if s.link == Raw {
      RawTextConserves(s, text, take);
    } else {
      QueueConserves(s, Text(text), take);
    }
  }

  lemma RawTextConserves(s: Session, text: seq<byte>, take: nat)
    ensures s.pending == [] ==> Conserves(s, Flush(s.(pending := text), take).(plain := text))
  {
    FlushConserves(s.(pending := text), take);
    assert [] + ([] + text) == text;
  }

  lemma OfferConserves(s: Session, name: Option<seq<byte>>, contentType: Option<seq<byte>>, size: u32, crc: u32, take: nat)
    ensures Conserves(s, OfferFile(s, name, contentType, size, crc, take))
  {
    QueueConserves(s.(nextId := (s.nextId + 1) % 0x1_0000), OfferMessage(s.nextId, name, contentType, size, crc), take);
  }

  lemma PumpConserves(s: Session, credit: nat, got: seq<byte>, take: nat)
    requires |got| <= Wants(s, credit)
    ensures Conserves(s, Pump(s, credit, got, take))
  {
    QueueConserves(s, Done(s.tx.id), take);
    QueueConserves(s, Cancel(s.tx.id, REFUSED), take);
    QueueConserves(s, Data(got), take);
  }

  lemma UserStepsConserve(s: Session, inbound: bool, have: u32, crc: u32, reason: byte, take: nat)
    ensures Conserves(s, CancelTransfer(s, inbound, reason, take))
    ensures Conserves(s, Refuse(s, reason, take))
    ensures Conserves(s, Admit(s, have, crc, take))
  {
    QueueConserves(s, Cancel(s.rx.id, reason), take);
    QueueConserves(s, Cancel(s.tx.id, reason), take);
    QueueConserves(s.(rx := s.rx.(state := NoTransfer)), Reject(s.rx.id, reason), take);
    QueueConserves(s, Accept(s.rx.id, have, crc), take);
  }

  lemma OnOfferConserves(s: Session, p: seq<byte>, ans: Answers)
    ensures Conserves(s, OnOffer(s, p, ans))
  {
    if OfferGet(p).Some? {
      TakeOfferConserves(s, OfferGet(p).value, ans);
    }
  }

  lemma TakeOfferConserves(s: Session, offer: Message, ans: Answers)
    requires offer.Offer?
    ensures Conserves(s, TakeOffer(s, offer, ans))
  {
    QueueConserves(s, Reject(offer.id, REFUSED), ans.take);
    QueueConserves(s, Reject(offer.id, BAD_NAME), ans.take);
    match SafeNames.SafeName(offer.name, MAX_NAME + 1)
    case None =>
    case Some(name) =>
      if ans.decision.Some? {
        var s' := s.(rx := Inbound(Receiving, offer.id, offer.size, 0, offer.crc, Crc32.INIT, name));
        UserStepsConserve(s', true, ans.decision.value.0, ans.decision.value.1, 0, ans.take);
      }
  }

  lemma OnAcceptConserves(s: Session, p: seq<byte>, ans: Answers)
    ensures Conserves(s, OnAccept(s, p, ans))
  {
    match AcceptGet(p)
    case None =>
    case Some(a) =>
      QueueConserves(s, Start(s.tx.id, StartOffset(s.tx.size, a.have, a.prefixCrc, ans.prefix)), ans.take);
  }

  lemma OnDataConserves(s: Session, p: seq<byte>, ans: Answers)
    ensures Conserves(s, OnData(s, p, ans))
  {
    QueueConserves(s, Result(s.rx.id, WRITE_FAILED), ans.take);
  }

  lemma OnDoneConserves(s: Session, p: seq<byte>, ans: Answers)
    ensures Conserves(s, OnDone(s, p, ans))
  {
    if DoneGet(p).Some? {
      QueueConserves(s, Result(DoneGet(p).value.id, Verdict(s.rx)), ans.take);
    }
  }

  lemma DispatchConserves(s: Session, kind: byte, p: seq<byte>, ans: Answers)
    ensures Conserves(s, Dispatch(s, kind, p, ans))
  {
    if kind == OFFER {
      OnOfferConserves(s, p, ans);
    } else if kind == ACCEPT {
      OnAcceptConserves(s, p, ans);
    } else if kind == DATA {
      OnDataConserves(s, p, ans);
    } else if kind == DONE {
      OnDoneConserves(s, p, ans);
    }
  }

  /** A well-formed message about a transfer other than the one in hand. */
  predicate Stray(s: Session, m: Message) {
    match m
    case Accept(id, _, _) => s.tx.state != Offered || id != s.tx.id
    case Result(id, _) => s.tx.state == NoTransfer || id != s.tx.id
    case Start(id, _) => s.rx.state != Receiving || id != s.rx.id
    case Done(id) => s.rx.state != Receiving || id != s.rx.id
    case Data(_) => s.rx.state != Receiving
    case Cancel(id, _) => (s.tx.state == NoTransfer || id != s.tx.id) && (s.rx.state == NoTransfer || id != s.rx.id)
    case Reject(id, _) => (s.tx.state == NoTransfer || id != s.tx.id) && (s.rx.state == NoTransfer || id != s.rx.id)
    case _ => false
  }

  /** Such a message changes nothing, sends nothing and reports nothing. */
  lemma StraysAreIgnored(s: Session, m: Message, ans: Answers)
    requires Stray(s, m) && Legal(m)
    ensures Dispatch(s, Kind(m), Payload(m), ans) == Still(s)
  {
    PayloadRoundTrip(m);
  }

  /**
   * Declining an offer frees the slot even when the REJECT finds the buffer full; cancelling
   * gives a transfer up only if the CANCEL could be queued.
   */
  lemma RefusalFreesCancelWaits(s: Session, inbound: bool, reason: byte, take: nat)
    ensures Refuse(s, reason, take).s.rx.state != Receiving
    ensures s.pending == [] && s.rx.state == Receiving ==> Refuse(s, reason, take).queued == Some(Reject(s.rx.id, reason))
    ensures s.pending != [] ==> Refuse(s, reason, take).queued.None? && CancelTransfer(s, inbound, reason, take) == Still(s)
    ensures s.pending == [] && (if inbound then s.rx.state else s.tx.state) != NoTransfer ==>
      var o := CancelTransfer(s, inbound, reason, take);
      o.queued == Some(Cancel(if inbound then s.rx.id else s.tx.id, reason))
      && (if inbound then o.s.rx.state else o.s.tx.state) == NoTransfer
  {
  }

  /**
   * REJECT and CANCEL carry an id but no direction. One stops our outbound transfer whenever the
   * id fits it, and so reaches the inbound one exactly when the id fits that and not ours. The
   * operator is told which it was, and that it fell short.
   */
  lemma StopRouting(s: Session, m: Message, ans: Answers)
    requires m.Cancel? || m.Reject?
    ensures var o := Dispatch(s, Kind(m), Payload(m), ans);
      && (o.s.tx.state != s.tx.state <==> s.tx.state != NoTransfer && m.id == s.tx.id)
      && (o.s.rx.state != s.rx.state <==>
          s.rx.state != NoTransfer && m.id == s.rx.id && (s.tx.state == NoTransfer || m.id != s.tx.id))
      && o.effects == (if o.s.tx.state != s.tx.state then [TransferDone(false, m.id, SHORT)]
          else if o.s.rx.state != s.rx.state then [TransferDone(true, m.id, SHORT)] else [])
  {
    PayloadRoundTrip(m);
  }
}
