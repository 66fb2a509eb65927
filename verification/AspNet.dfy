/**
 * Two ASP/1 sessions joined by two byte streams. Sends may be partial, deliveries may be cut
 * anywhere, users may chat, offer, answer and cancel at any point, and reading and writing
 * files may fail. Both stations run this program and report their partial files truthfully.
 */
module AspNet {
  import opened Bytes
  import opened Wire
  import opened AspSpec
  import Crc32

  const WORD := 0x1_0000_0000

  /** How far the messages of one direction have got with that direction's transfers. */
  datatype Standing =
    | Nothing
    | Proposed(id: u16)
    | Sending(id: u16, off: nat)
    | Finished(id: u16)

  /** A transfer its receiver reported complete: what was kept of the old partial, and all of it. */
  datatype Receipt = Receipt(kept: seq<byte>, bytes: seq<byte>)

  /**
   * One direction: its history, the bytes in flight, and the files at both ends.
   * `trail[k]` is where the transfers stood after the first `k` messages.
   */
  datatype Channel = Channel(
    log: seq<Message>,           // every message the sending side has queued
    trail: seq<Standing>,
    handled: nat,                // how many of them the receiving side has dispatched
    wire: seq<byte>,             // taken by the transport and not yet delivered
    files: map<u16, seq<byte>>,  // what was offered, by transfer id
    entered: set<u16>,           // the offers the receiving side took up
    stored: seq<byte>,           // the file being received
    kept: seq<byte>,             // what it held when its transfer started
    received: map<u16, Receipt>, // transfers the receiving side reported OK
    told: set<u16>)              // transfers the sending side was told are OK

  datatype Net = Net(a: Session, b: Session, ab: Channel, ba: Channel)

  /** What one side does next; the other side's moves are the same with the ends swapped. */
  datatype Action =
    | Say(text: seq<byte>, take: nat)
    | Propose(name: Option<seq<byte>>, contentType: Option<seq<byte>>, file: seq<byte>, take: nat)
    | Allow(take: nat)
    | Deny(reason: byte, take: nat)
    | Stop(inbound: bool, reason: byte, take: nat)
    | Push(take: nat)
    | Move(credit: nat, amount: nat, take: nat)
    | Deliver(count: nat)
    | Break
    | Handle(disk: seq<byte>, admit: bool, readOk: bool, writeOk: bool, take: nat)

  function Swap(n: Net): Net {
    Net(n.b, n.a, n.ba, n.ab)
  }

  function Checksum(s: seq<byte>): u32 {
    Crc32.Crc(Crc32.INIT, s)
  }

  // --- steps ---

  function Next(st: Standing, m: Message): Standing {
    match m
    case Offer(id, _, _, _, _) => Proposed(id)
    case Start(id, from) => Sending(id, from)
    case Data(bytes) => if st.Sending? then Sending(st.id, st.off + |bytes|) else st
    case Done(id) => Finished(id)
    case _ => st
  }

  function Last(c: Channel): Standing
    requires |c.trail| > 0
  {
    c.trail[|c.trail| - 1]
  }

  function Append(c: Channel, m: Message): Channel
    requires |c.trail| > 0
  {
    c.(log := c.log + [m], trail := c.trail + [Next(Last(c), m)])
  }

  function Told(effects: seq<Effect>): set<u16> {
    if |effects| == 1 && effects[0].TransferDone? && !effects[0].inbound && effects[0].result == RESULT_OK
    then {effects[0].id} else {}
  }

  /** What a step of the sending side does to its outgoing channel. */
  function Emit(c: Channel, o: Outcome): Channel
    requires |c.trail| > 0
  {
    var c' := if o.queued.Some? then Append(c, o.queued.value) else c;
    c'.(wire := c.wire + o.sent, told := c.told + Told(o.effects))
  }

  function Pop(c: Channel): Channel {
    c.(handled := c.handled + 1)
  }

  /** What dispatching a message does to the files at the receiving end. */
  function Absorb(c: Channel, s: Session, kind: byte, p: seq<byte>, o: Outcome, disk: seq<byte>, writeOk: bool): Channel {
    var c' := Pop(c);
    if |o.effects| == 1 && o.effects[0].Asked? then
      c'.(stored := disk, kept := [], entered := c.entered + {o.effects[0].id})
    else if |o.effects| == 1 && o.effects[0].Wrote? then c'.(stored := c.stored + o.effects[0].bytes)
    else if kind == DATA && s.rx.state == Receiving && !writeOk then c'.(stored := disk)
    else if |o.effects| == 1 && o.effects[0].Truncated? then c'.(stored := [], kept := [])
    else if kind == START && s.rx.state == Receiving && StartGet(p).Some? && StartGet(p).value.id == s.rx.id then c'.(kept := c.stored)
    else if |o.effects| == 1 && o.effects[0].TransferDone? && o.effects[0].inbound && o.effects[0].result == RESULT_OK then
      c'.(received := c.received[o.effects[0].id := Receipt(c.kept, c.stored)])
    else c'
  }

  /** What reading `amount` bytes of the file being sent gives. */
  function ReadAt(c: Channel, s: Session, amount: nat): (r: seq<byte>)
    ensures |r| <= amount
  {
    if s.tx.id in c.files && s.tx.offset + amount <= |c.files[s.tx.id]|
    then c.files[s.tx.id][s.tx.offset..s.tx.offset + amount] else []
  }

  /** What reading back the prefix an ACCEPT claims gives, unless a read fails. */
  function ReadPrefix(c: Channel, s: Session, p: seq<byte>, readOk: bool): Option<seq<byte>> {
    if readOk && AcceptGet(p).Some? && s.tx.id in c.files && AcceptGet(p).value.have <= |c.files[s.tx.id]|
    then Some(c.files[s.tx.id][..AcceptGet(p).value.have]) else None
  }

  /** When an action of side `a` can happen. Fewer than 65536 offers are ever made. */
  predicate Enabled(n: Net, act: Action) {
    |n.ab.trail| > 0 &&
    match act
    case Propose(_, _, file, _) => |file| < WORD && n.a.nextId != 0
    case Allow(_) => |n.ba.stored| < WORD
    case Move(credit, amount, _) => amount <= Wants(n.a, credit)
    case Deliver(count) => count <= |n.ba.wire| && |n.a.inb| + count <= MAX_MESSAGE
    case Break => n.a.link != Raw && (FrameGet(n.a.inb).Malformed? || (FrameGet(n.a.inb).Short? && |n.a.inb| >= MAX_MESSAGE))
    case Handle(disk, _, _, _, _) => n.a.link != Raw && FrameGet(n.a.inb).Ok? && |disk| < WORD
    case _ => true
  }

  function HandleAnswers(n: Net, act: Action): Answers
    requires act.Handle? && Enabled(n, act)
  {
    Answers(act.take,
      if act.admit then Some((|act.disk| as u32, Checksum(act.disk))) else None,
      ReadPrefix(n.ab, n.a, FrameGet(n.a.inb).payload, act.readOk),
      act.writeOk)
  }

  function HandleOutcome(n: Net, act: Action): Outcome
    requires act.Handle? && Enabled(n, act)
  {
    var f := FrameGet(n.a.inb);
    Dispatch(n.a, f.kind, f.payload, HandleAnswers(n, act))
  }

  /** A step of side `a` that only touches its session and its outgoing channel. */
  function UserOutcome(n: Net, act: Action): Outcome
    requires Enabled(n, act) && !act.Deliver? && !act.Handle?
  {
    match act
    case Say(text, take) => SendText(n.a, text, take)
    case Propose(name, contentType, file, take) => OfferFile(n.a, name, contentType, |file|, Checksum(file), take)
    case Allow(take) => Admit(n.a, |n.ba.stored|, Checksum(n.ba.stored), take)
    case Deny(reason, take) => Refuse(n.a, reason, take)
    case Stop(inbound, reason, take) => CancelTransfer(n.a, inbound, reason, take)
    case Push(take) => Flush(n.a, take)
    case Move(credit, amount, take) => Pump(n.a, credit, ReadAt(n.ab, n.a, amount), take)
    case Break => Fail(n.a)
  }

  /** A step of side `a` on its own: its session moves on and its outgoing channel with it. */
  function Alone(n: Net, ab: Channel, o: Outcome): Net
    requires |ab.trail| > 0
  {
    n.(a := o.s, ab := Emit(ab, o))
  }

  /** Bytes join the buffer, unless the peer turns out not to speak ASP: then they are raw text, and so is all that follows. */
  function Arrived(n: Net, count: nat): Net
    requires count <= |n.ba.wire|
  {
    var bytes := n.ba.wire[..count];
    n.(a := if n.a.link == Raw || NotAsp(n.a, bytes) then n.a.(link := Raw) else n.a.(inb := n.a.inb + bytes),
       ba := n.ba.(wire := n.ba.wire[count..]))
  }

  function Offering(n: Net, file: seq<byte>): Channel {
    n.ab.(files := n.ab.files[n.a.nextId := file])
  }

  function Act(n: Net, act: Action): Net
    requires Enabled(n, act)
  {
    if act.Deliver? then Arrived(n, act.count)
    else if act.Handle? then
      var f := FrameGet(n.a.inb);
      var o := HandleOutcome(n, act);
      Net(o.s.(inb := n.a.inb[f.consumed..]), n.b, Emit(n.ab, o), Absorb(n.ba, n.a, f.kind, f.payload, o, act.disk, act.writeOk))
    else
      Alone(n, if act.Propose? && CanSendFiles(n.a) then Offering(n, act.file) else n.ab, UserOutcome(n, act))
  }

  /** Either side moves. */
  function Step(n: Net, first: bool, act: Action): Net
    requires Enabled(if first then n else Swap(n), act)
  {
    if first then Act(n, act) else Swap(Act(Swap(n), act))
  }

  const EMPTY := Channel([], [Nothing], 0, [], map[], {}, [], [], map[], {})

  function Initial(callA: seq<byte>, callB: seq<byte>, takeA: nat, takeB: nat): Net {
    Net(Open(callA, takeA).s, Open(callB, takeB).s, Emit(EMPTY, Open(callA, takeA)), Emit(EMPTY, Open(callB, takeB)))
  }

  // --- the invariant ---

  function IdOf(st: Standing): nat {
    if st.Nothing? then 0 else st.id
  }

  function Rank(st: Standing): nat {
    3 * IdOf(st) + match st
      case Nothing => 0
      case Proposed(_) => 0
      case Sending(_, _) => 1
      case Finished(_) => 2
  }

  /** What a direction's next message may be, given where its transfers stand. */
  predicate Follows(st: Standing, m: Message, files: map<u16, seq<byte>>) {
    match m
    case Offer(id, size, crc, _, _) =>
      id in files && IdOf(st) < id && size == |files[id]| && crc == Checksum(files[id])
    case Start(id, from) => id in files && st == Proposed(id) && from <= |files[id]|
    case Data(bytes) =>
      st.Sending? && st.id in files && st.off + |bytes| <= |files[st.id]| && bytes == files[st.id][st.off..st.off + |bytes|]
    case Done(id) => id in files && st == Sending(id, |files[id]|)
    case _ => true
  }

  /** The bytes somewhere between the two sessions are the messages not yet dispatched. */
  ghost predicate Framed(c: Channel, s: Session, r: Session) {
    && c.handled <= |c.log|
    && (forall m :: m in c.log ==> Legal(m))
    && r.inb + c.wire + s.pending == EncodeAll(c.log[c.handled..])
  }

  /** The HELLO is first, and the other side speaks ASP from the moment it is dispatched. */
  ghost predicate Greeted(c: Channel, r: Session) {
    && 0 < |c.log| && c.log[0].Hello?
    && r.link == (if c.handled == 0 then HelloSent else Asp)
  }

  ghost predicate Trailed(c: Channel) {
    && |c.trail| == |c.log| + 1 && c.trail[0] == Nothing
    && (forall k :: 0 <= k < |c.log| ==> Follows(c.trail[k], c.log[k], c.files) && c.trail[k + 1] == Next(c.trail[k], c.log[k]))
    && (forall j, k :: 0 <= j <= k < |c.trail| ==> Rank(c.trail[j]) <= Rank(c.trail[k]))
  }

  ghost predicate Numbered(c: Channel, t: Session)
    requires |c.trail| > 0
  {
    && 0 !in c.files && (forall id :: id in c.files ==> |c.files[id]| < WORD)
    && (t.nextId != 0 ==> IdOf(Last(c)) < t.nextId && forall id :: id in c.files ==> id < t.nextId)
  }

  ghost predicate TxAgrees(c: Channel, t: Session)
    requires |c.trail| > 0
  {
    var end := Last(c);
    match t.tx.state
    case NoTransfer => true
    case Receiving => false
    case Offered => end == Proposed(t.tx.id) && TxSource(c, t)
    case Running => end == Sending(t.tx.id, t.tx.offset) && TxSource(c, t)
    case AwaitResult => end == Finished(t.tx.id) && TxSource(c, t)
  }

  ghost predicate TxSource(c: Channel, t: Session) {
    && t.tx.id in c.files
    && t.tx.size == |c.files[t.tx.id]|
    && t.tx.offset <= t.tx.size
  }

  /** The receiving side's file, while the transfer it is receiving is being sent. */
  ghost predicate Holds(c: Channel, r: Session, off: nat)
    requires r.rx.id in c.files
  {
    var file := c.files[r.rx.id];
    && off <= |file|
    && r.rx.have == off == |c.stored|
    && r.rx.running == Checksum(c.stored) == Checksum(file[..off])
    && |c.kept| <= off && c.stored == c.kept + file[|c.kept|..off]
  }

  /** What the receiving side has told, or would tell, of the partial file it holds. */
  ghost predicate Reported(c: Channel, r: Session) {
    r.rx.have == |c.stored| && r.rx.running == Checksum(c.stored)
  }

  ghost predicate RxAgrees(c: Channel, r: Session)
    requires c.handled < |c.trail|
  {
    var here := c.trail[c.handled];
    && (r.rx.state == NoTransfer || r.rx.state == Receiving)
    && (forall id :: id in c.entered ==> id <= IdOf(here))
    && (r.rx.state == Receiving ==>
        && r.rx.id in c.files
        && r.rx.size == |c.files[r.rx.id]| && r.rx.crc == Checksum(c.files[r.rx.id])
        && r.rx.id in c.entered
        && |c.stored| < WORD
        && (here.Finished? ==> r.rx.id < here.id)
        && (here.Proposed? || r.rx.id == IdOf(here))
        && (r.rx.id < IdOf(here) ==> here.id !in c.entered)
        && (here.Sending? ==> Holds(c, r, here.off)))
    && (here.Sending? ==> here.id in c.entered)
  }

  /** A START in flight is for the offer last dispatched, and starts where the receiver can go on. */
  ghost predicate StartsAgree(c: Channel, r: Session) {
    forall k :: c.handled <= k < |c.log| && c.log[k].Start? ==> StartAgrees(c, r, c.log[k])
  }

  ghost predicate StartAgrees(c: Channel, r: Session, m: Message)
    requires m.Start?
  {
    && m.id in c.entered
    && m.id in c.files && m.from <= |c.files[m.id]|
    && (r.rx.state == Receiving && r.rx.id == m.id ==>
        Reported(c, r) && (m.from == 0 || (m.from == |c.stored| && Checksum(c.files[m.id][..m.from]) == Checksum(c.stored))))
  }

  ghost predicate AcceptsAgree(c: Channel, r: Session, back: Channel)
    requires c.handled < |c.trail|
  {
    forall k :: back.handled <= k < |back.log| && back.log[k].Accept? ==> AcceptAgrees(c, r, back.log[k])
  }

  ghost predicate AcceptAgrees(c: Channel, r: Session, m: Message)
    requires m.Accept? && c.handled < |c.trail|
  {
    && m.id in c.entered
    && (r.rx.state == Receiving && r.rx.id == m.id && c.trail[c.handled] == Proposed(m.id) ==>
        Reported(c, r) && m.have == |c.stored| && m.prefixCrc == Checksum(c.stored))
  }

  /** The sender hears OK only of transfers the receiver reported OK. */
  ghost predicate ResultsAgree(c: Channel, back: Channel) {
    && (forall k :: back.handled <= k < |back.log| && back.log[k].Result? && back.log[k].code == RESULT_OK
          ==> back.log[k].id in c.received)
    && c.told <= c.received.Keys
  }

  /** A reported transfer is the offered file, up to what was kept of an earlier partial. */
  ghost predicate Faithful(file: seq<byte>, r: Receipt) {
    && |r.bytes| == |file|
    && Checksum(r.bytes) == Checksum(file)
    && |r.kept| <= |file|
    && r.bytes == r.kept + file[|r.kept|..]
  }

  ghost predicate Delivered(c: Channel) {
    forall id :: id in c.received ==> id in c.files && Faithful(c.files[id], c.received[id])
  }

  /** Everything about one direction: `t` sends files to `r` over `c`, hearing back over `back`. */
  ghost predicate Half(t: Session, r: Session, c: Channel, back: Channel) {
    && Framed(c, t, r)
    && Greeted(c, r)
    && Trailed(c)
    && Numbered(c, t)
    && TxAgrees(c, t)
    && RxAgrees(c, r)
    && StartsAgree(c, r)
    && AcceptsAgree(c, r, back)
    && ResultsAgree(c, back)
    && Delivered(c)
  }

  ghost predicate Inv(n: Net) {
    Half(n.a, n.b, n.ab, n.ba) && Half(n.b, n.a, n.ba, n.ab)
  }
}
