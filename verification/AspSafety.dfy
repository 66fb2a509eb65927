/** Every step of either side keeps the invariant of `AspNet`. */
module AspSafety {
  import opened Bytes
  import opened Wire
  import opened AspSpec
  import opened AspNet
  import opened Reassembly

  // --- one more message in a direction's history ---

  lemma InFlight(arrived: seq<byte>, wire: seq<byte>, pending: seq<byte>, sent: seq<byte>, pending': seq<byte>, image: seq<byte>)
    requires sent + pending' == pending + image
    ensures arrived + (wire + sent) + pending' == arrived + wire + pending + image
  {
    assert arrived + (wire + sent) + pending' == arrived + wire + (sent + pending');
    assert arrived + wire + (pending + image) == arrived + wire + pending + image;
  }

  /** What a step put in the outbound buffer, when none of it was unframed. */
  function Framing(o: Outcome): seq<byte> {
    if o.queued.Some? then Encode(o.queued.value) else []
  }

  lemma LogGrows(c: Channel, o: Outcome)
    requires |c.trail| > 0 && c.handled <= |c.log|
    ensures EncodeAll(Emit(c, o).log[c.handled..]) == EncodeAll(c.log[c.handled..]) + Framing(o)
  {
    var rest := c.log[c.handled..];
    if o.queued.Some? {
      FlatMapAppends(Encode, rest, o.queued.value);
      assert Emit(c, o).log[c.handled..] == rest + [o.queued.value];
    } else {
      assert EncodeAll(rest) + [] == EncodeAll(rest);
    }
  }

  lemma EmitFramed(c: Channel, s: Session, r: Session, o: Outcome)
    requires Framed(c, s, r) && |c.trail| > 0
    requires Conserves(s, o) && o.plain == []
    requires o.queued.Some? ==> Legal(o.queued.value)
    ensures Framed(Emit(c, o), o.s, r)
  {
    LogGrows(c, o);
    assert Image(o) == Framing(o) + [] == Framing(o);
    InFlight(r.inb, c.wire, s.pending, o.sent, o.s.pending, Framing(o));
  }

  lemma RankGrows(st: Standing, m: Message, files: map<u16, seq<byte>>)
    requires Follows(st, m, files)
    ensures Rank(st) <= Rank(Next(st, m))
  {
  }

  lemma AppendTrailed(c: Channel, m: Message)
    requires Trailed(c) && Follows(Last(c), m, c.files)
    ensures Trailed(Append(c, m))
  {
    var c' := Append(c, m);
    RankGrows(Last(c), m, c.files);
    forall k | 0 <= k < |c'.log|
      ensures Follows(c'.trail[k], c'.log[k], c'.files) && c'.trail[k + 1] == Next(c'.trail[k], c'.log[k])
    {
      if k < |c.log| {
        assert c'.trail[k] == c.trail[k] && c'.trail[k + 1] == c.trail[k + 1];
      }
    }
    forall j, k | 0 <= j <= k < |c'.trail|
      ensures Rank(c'.trail[j]) <= Rank(c'.trail[k])
    {
      if k == |c.trail| && j < k {
        assert Rank(c.trail[j]) <= Rank(c.trail[|c.trail| - 1]);
      }
    }
  }

  /** What a message must satisfy to join the direction `c` of the sender that queued it. */
  ghost predicate Joins(c: Channel, r: Session, m: Message)
    requires |c.trail| > 0
  {
    && Legal(m)
    && Follows(Last(c), m, c.files)
    && (m.Start? ==> StartAgrees(c, r, m))
  }

  /** The sending side of a direction takes a step. */
  lemma EmitKeepsTx(t: Session, r: Session, c: Channel, back: Channel, o: Outcome)
    requires Half(t, r, c, back)
    requires Conserves(t, o) && o.plain == []
    requires o.queued.Some? ==> Joins(c, r, o.queued.value)
    requires Told(o.effects) <= c.received.Keys
    requires Numbered(Emit(c, o), o.s) && TxAgrees(Emit(c, o), o.s)
    ensures Half(o.s, r, Emit(c, o), back)
  {
    var c' := Emit(c, o);
    EmitFramed(c, t, r, o);
    if o.queued.Some? {
      AppendTrailed(c, o.queued.value);
    }
    assert c'.trail[c'.handled] == c.trail[c.handled];
    forall k | c'.handled <= k < |c'.log| && c'.log[k].Start?
      ensures StartAgrees(c', r, c'.log[k])
    {
      if k < |c.log| {
        assert StartAgrees(c, r, c.log[k]);
      }
    }
    forall k | back.handled <= k < |back.log| && back.log[k].Accept?
      ensures AcceptAgrees(c', r, back.log[k])
    {
      assert AcceptAgrees(c, r, back.log[k]);
    }
  }

  /** The receiving side of a direction takes a step: it may answer on `back`. */
  lemma EmitKeepsRx(t: Session, r: Session, r': Session, c: Channel, back: Channel, o: Outcome)
    requires Half(t, r, c, back) && |back.trail| > 0
    requires r'.inb == r.inb && r'.link == r.link
    requires RxAgrees(c, r') && StartsAgree(c, r') && AcceptsAgree(c, r', back)
    requires o.queued.Some? && o.queued.value.Accept? ==> AcceptAgrees(c, r', o.queued.value)
    requires o.queued.Some? && o.queued.value.Result? && o.queued.value.code == RESULT_OK ==> o.queued.value.id in c.received
    ensures Half(t, r', c, Emit(back, o))
  {
    var back' := Emit(back, o);
    forall k | back'.handled <= k < |back'.log| && back'.log[k].Accept?
      ensures AcceptAgrees(c, r', back'.log[k])
    {
      if k < |back.log| {
        assert AcceptAgrees(c, r', back.log[k]);
      }
    }
    forall k | back'.handled <= k < |back'.log| && back'.log[k].Result? && back'.log[k].code == RESULT_OK
      ensures back'.log[k].id in c.received
    {
      if k < |back.log| {
        assert back.log[k].id in c.received;
      }
    }
  }

  /** Giving up a reception, or leaving it as it is, weakens nothing. */
  lemma LessReceiving(c: Channel, r: Session, r': Session, back: Channel)
    requires c.handled < |c.trail|
    requires RxAgrees(c, r) && StartsAgree(c, r) && AcceptsAgree(c, r, back)
    requires r'.rx == r.rx || r'.rx == r.rx.(state := NoTransfer)
    ensures RxAgrees(c, r') && StartsAgree(c, r') && AcceptsAgree(c, r', back)
  {
    forall k | c.handled <= k < |c.log| && c.log[k].Start?
      ensures StartAgrees(c, r', c.log[k])
    {
      assert StartAgrees(c, r, c.log[k]);
    }
    forall k | back.handled <= k < |back.log| && back.log[k].Accept?
      ensures AcceptAgrees(c, r', back.log[k])
    {
      assert AcceptAgrees(c, r, back.log[k]);
    }
  }

  // --- the steps of a user ---

  /** A message that only the other direction, or nobody's transfers, care about. */
  predicate Aside(m: Message) {
    m.Text? || m.Reject? || m.Cancel?
  }

  /** Chatting, refusing, cancelling and pushing: neutral messages, transfers only given up. */
  lemma NeutralStep(n: Net, o: Outcome)
    requires Inv(n)
    requires Conserves(n.a, o) && o.plain == [] && |o.effects| == 0
    requires o.queued.Some? ==> Aside(o.queued.value) && Legal(o.queued.value)
    requires o.s.inb == n.a.inb && o.s.link == n.a.link && o.s.nextId == n.a.nextId
    requires o.s.rx == n.a.rx || o.s.rx == n.a.rx.(state := NoTransfer)
    requires o.s.tx == n.a.tx || o.s.tx == n.a.tx.(state := NoTransfer)
    ensures Inv(Alone(n, n.ab, o))
  {
    assert Last(Emit(n.ab, o)) == Last(n.ab);
    EmitKeepsTx(n.a, n.b, n.ab, n.ba, o);
    LessReceiving(n.ba, n.a, o.s, n.ab);
    EmitKeepsRx(n.b, n.a, o.s, n.ba, n.ab, o);
  }

  /** Reporting the truth about the partial file agrees with everything in flight. */
  lemma TruthAgrees(c: Channel, r: Session, r': Session, back: Channel)
    requires c.handled < |c.trail|
    requires RxAgrees(c, r) && StartsAgree(c, r) && AcceptsAgree(c, r, back)
    requires r.rx.state == Receiving && Reported(c, r')
    requires r'.rx == r.rx.(have := r'.rx.have, running := r'.rx.running)
    ensures RxAgrees(c, r') && StartsAgree(c, r') && AcceptsAgree(c, r', back)
  {
    forall k | c.handled <= k < |c.log| && c.log[k].Start?
      ensures StartAgrees(c, r', c.log[k])
    {
      assert StartAgrees(c, r, c.log[k]);
    }
    forall k | back.handled <= k < |back.log| && back.log[k].Accept?
      ensures AcceptAgrees(c, r', back.log[k])
    {
      assert AcceptAgrees(c, r, back.log[k]);
    }
  }

  lemma AdmitShape(s: Session, have: u32, crc: u32, take: nat)
    ensures var o := Admit(s, have, crc, take);
      && o.plain == [] && o.effects == [] && o.s == s.(pending := o.s.pending, rx := o.s.rx)
      && (o.queued.Some? ==> o.queued.value == Accept(s.rx.id, have, crc))
      && (o.queued.Some? ==> s.rx.state == Receiving && o.s.rx == s.rx.(have := have, running := crc))
      && (o.queued.None? ==> o.s.rx == s.rx)
  {
  }

  /** An answer, as far as the direction it is sent on goes. */
  lemma AnswerTx(n: Net, o: Outcome)
    requires Inv(n) && Conserves(n.a, o) && o.plain == [] && o.effects == []
    requires o.s.tx == n.a.tx && o.s.nextId == n.a.nextId && (o.queued.Some? ==> o.queued.value.Accept?)
    ensures Half(o.s, n.b, Emit(n.ab, o), n.ba)
  {
    assert Last(Emit(n.ab, o)) == Last(n.ab);
    EmitKeepsTx(n.a, n.b, n.ab, n.ba, o);
  }

  /** Answering an offer with the truth, as long as it is being answered. */
  lemma AnswerStep(n: Net, o: Outcome)
    requires Inv(n) && |n.ba.stored| < WORD
    requires Conserves(n.a, o) && o.plain == [] && o.effects == []
    requires o.s == n.a.(pending := o.s.pending, rx := o.s.rx)
    requires o.queued.None? ==> o.s.rx == n.a.rx
    requires o.queued.Some? ==>
      && n.a.rx.state == Receiving
      && o.queued.value == Accept(n.a.rx.id, |n.ba.stored|, Checksum(n.ba.stored))
      && o.s.rx == n.a.rx.(have := |n.ba.stored|, running := Checksum(n.ba.stored))
    ensures Inv(Alone(n, n.ab, o))
  {
    AnswerTx(n, o);
    if o.queued.Some? {
      TruthAgrees(n.ba, n.a, o.s, n.ab);
    }
    EmitKeepsRx(n.b, n.a, o.s, n.ba, n.ab, o);
  }

  lemma AllowStep(n: Net, take: nat)
    requires Inv(n) && |n.ba.stored| < WORD
    ensures Inv(Alone(n, n.ab, Admit(n.a, |n.ba.stored|, Checksum(n.ba.stored), take)))
  {
    AdmitShape(n.a, |n.ba.stored|, Checksum(n.ba.stored), take);
    UserStepsConserve(n.a, true, |n.ba.stored|, Checksum(n.ba.stored), 0, take);
    AnswerStep(n, Admit(n.a, |n.ba.stored|, Checksum(n.ba.stored), take));
  }

  lemma SayStep(n: Net, text: seq<byte>, take: nat)
    requires Inv(n)
    ensures Inv(Alone(n, n.ab, SendText(n.a, text, take)))
  {
    SendTextConserves(n.a, text, take);
    NeutralStep(n, SendText(n.a, text, take));
  }

  lemma DenyStep(n: Net, reason: byte, take: nat)
    requires Inv(n)
    ensures Inv(Alone(n, n.ab, Refuse(n.a, reason, take)))
  {
    UserStepsConserve(n.a, true, 0, 0, reason, take);
    NeutralStep(n, Refuse(n.a, reason, take));
  }

  lemma StopShape(s: Session, inbound: bool, reason: byte, take: nat)
    ensures var o := CancelTransfer(s, inbound, reason, take);
      && o.plain == [] && o.effects == [] && (o.queued.Some? ==> o.queued.value.Cancel?)
      && o.s == s.(pending := o.s.pending, tx := o.s.tx, rx := o.s.rx)
      && (o.s.rx == s.rx || o.s.rx == s.rx.(state := NoTransfer))
      && (o.s.tx == s.tx || o.s.tx == s.tx.(state := NoTransfer))
  {
  }

  lemma StopStep(n: Net, inbound: bool, reason: byte, take: nat)
    requires Inv(n)
    ensures Inv(Alone(n, n.ab, CancelTransfer(n.a, inbound, reason, take)))
  {
    StopShape(n.a, inbound, reason, take);
    UserStepsConserve(n.a, inbound, 0, 0, reason, take);
    NeutralStep(n, CancelTransfer(n.a, inbound, reason, take));
  }

  lemma PushStep(n: Net, take: nat)
    requires Inv(n)
    ensures Inv(Alone(n, n.ab, Flush(n.a, take)))
  {
    FlushConserves(n.a, take);
    NeutralStep(n, Flush(n.a, take));
  }

  // --- offering a file ---

  /** The same direction, with files added. */
  ghost predicate Extends(c: Channel, c': Channel) {
    && c' == c.(files := c'.files)
    && forall id :: id in c.files ==> id in c'.files && c'.files[id] == c.files[id]
  }

  lemma ExtendsTrailed(c: Channel, c': Channel)
    requires Trailed(c) && Extends(c, c')
    ensures Trailed(c')
  {
    forall k | 0 <= k < |c'.log|
      ensures Follows(c'.trail[k], c'.log[k], c'.files) && c'.trail[k + 1] == Next(c'.trail[k], c'.log[k])
    {
      assert Follows(c.trail[k], c.log[k], c.files);
    }
  }

  lemma ExtendsRx(r: Session, c: Channel, c': Channel, back: Channel)
    requires c.handled < |c.trail| && Extends(c, c')
    requires RxAgrees(c, r) && StartsAgree(c, r) && AcceptsAgree(c, r, back)
    ensures RxAgrees(c', r) && StartsAgree(c', r) && AcceptsAgree(c', r, back)
  {
    forall k | c'.handled <= k < |c'.log| && c'.log[k].Start?
      ensures StartAgrees(c', r, c'.log[k])
    {
      assert StartAgrees(c, r, c.log[k]);
    }
    forall k | back.handled <= k < |back.log| && back.log[k].Accept?
      ensures AcceptAgrees(c', r, back.log[k])
    {
      assert AcceptAgrees(c, r, back.log[k]);
    }
  }

  lemma ExtendsDelivered(c: Channel, c': Channel, back: Channel)
    requires Delivered(c) && ResultsAgree(c, back) && Extends(c, c')
    ensures Delivered(c') && ResultsAgree(c', back)
  {
    forall id | id in c'.received
      ensures id in c'.files && Faithful(c'.files[id], c'.received[id])
    {
      assert id in c.files;
    }
  }

  lemma ExtendsTx(c: Channel, t: Session, file: seq<byte>)
    requires |c.trail| > 0 && Numbered(c, t) && TxAgrees(c, t) && t.nextId != 0 && |file| < WORD
    ensures var c', t' := c.(files := c.files[t.nextId := file]), t.(nextId := (t.nextId + 1) % 0x1_0000);
      Numbered(c', t') && TxAgrees(c', t') && Extends(c, c')
  {
  }

  lemma ExtendsHalf(t: Session, t': Session, r: Session, c: Channel, c': Channel, back: Channel)
    requires Half(t, r, c, back) && Extends(c, c') && t'.pending == t.pending
    requires Numbered(c', t') && TxAgrees(c', t')
    ensures Half(t', r, c', back)
  {
    ExtendsTrailed(c, c');
    ExtendsRx(r, c, c', back);
    ExtendsDelivered(c, c', back);
  }

  /** A new file under a number not used before disturbs nothing about the others. */
  lemma MoreFiles(t: Session, r: Session, c: Channel, back: Channel, file: seq<byte>)
    requires Half(t, r, c, back) && t.nextId != 0 && |file| < WORD
    ensures var t' := t.(nextId := (t.nextId + 1) % 0x1_0000);
      Half(t', r, c.(files := c.files[t.nextId := file]), back)
  {
    ExtendsTx(c, t, file);
    ExtendsHalf(t, t.(nextId := (t.nextId + 1) % 0x1_0000), r, c, c.(files := c.files[t.nextId := file]), back);
  }

  lemma OfferIsLegal(id: u16, name: Option<seq<byte>>, contentType: Option<seq<byte>>, size: u32, crc: u32)
    ensures Legal(OfferMessage(id, name, contentType, size, crc))
  {
    assert 0 !in DEFAULT_NAME && 0 !in DEFAULT_TYPE;
  }

  lemma OfferShape(s: Session, m: Message, name: Option<seq<byte>>, contentType: Option<seq<byte>>, size: u32, crc: u32, take: nat)
    requires CanSendFiles(s) && m == OfferMessage(s.nextId, name, contentType, size, crc)
    ensures var o := OfferFile(s, name, contentType, size, crc, take);
      && o.plain == [] && o.effects == []
      && o.s == s.(pending := o.s.pending, tx := o.s.tx, nextId := (s.nextId + 1) % 0x1_0000)
      && (o.queued.Some? ==> o.queued.value == m && o.s.tx == Outbound(Offered, s.nextId, size, 0, crc))
      && (o.queued.None? ==> o.s.tx == s.tx)
  {
  }

  /** The message and the state an offer leaves behind, if it could be queued. */
  predicate OffersFile(s: Session, file: seq<byte>, o: Outcome)
    requires |file| < WORD
  {
    && o.plain == [] && o.effects == []
    && o.s == s.(pending := o.s.pending, tx := o.s.tx, nextId := (s.nextId + 1) % 0x1_0000)
    && (o.queued.None? ==> o.s.tx == s.tx)
    && (o.queued.Some? ==>
        && Legal(o.queued.value) && o.queued.value.Offer? && o.queued.value.id == s.nextId
        && o.queued.value.size == |file| && o.queued.value.crc == Checksum(file)
        && o.s.tx == Outbound(Offered, s.nextId, |file|, 0, Checksum(file)))
  }

  lemma OfferJoins(t: Session, r: Session, c: Channel, file: seq<byte>, o: Outcome)
    requires t.nextId != 0 && |file| < WORD && t.tx.state == NoTransfer && OffersFile(t, file, o)
    requires |c.trail| > 0 && Numbered(c, t)
    ensures var c' := c.(files := c.files[t.nextId := file]);
      && (o.queued.Some? ==> Joins(c', r, o.queued.value))
      && Numbered(Emit(c', o), o.s) && TxAgrees(Emit(c', o), o.s)
  {
  }

  lemma OfferingTx(n: Net, file: seq<byte>, o: Outcome)
    requires Inv(n) && n.a.nextId != 0 && |file| < WORD && n.a.tx.state == NoTransfer
    requires Conserves(n.a, o) && OffersFile(n.a, file, o)
    ensures Half(o.s, n.b, Emit(n.ab.(files := n.ab.files[n.a.nextId := file]), o), n.ba)
  {
    var t := n.a.(nextId := (n.a.nextId + 1) % 0x1_0000);
    var c := n.ab.(files := n.ab.files[n.a.nextId := file]);
    MoreFiles(n.a, n.b, n.ab, n.ba, file);
    OfferJoins(n.a, n.b, n.ab, file, o);
    assert Conserves(t, o);
    EmitKeepsTx(t, n.b, c, n.ba, o);
  }

  lemma OfferingStep(n: Net, file: seq<byte>, o: Outcome)
    requires Inv(n) && n.a.nextId != 0 && |file| < WORD && n.a.tx.state == NoTransfer
    requires Conserves(n.a, o) && OffersFile(n.a, file, o)
    ensures Inv(Alone(n, Offering(n, file), o))
  {
    OfferingTx(n, file, o);
    LessReceiving(n.ba, n.a, o.s, n.ab);
    EmitKeepsRx(n.b, n.a, o.s, n.ba, n.ab, o);
    BackMatters(n.b, o.s, n.ba, Emit(n.ab, o), Emit(n.ab.(files := n.ab.files[n.a.nextId := file]), o));
  }

  /** A direction depends on the opposite one only through the messages in flight there. */
  lemma BackMatters(t: Session, r: Session, c: Channel, back: Channel, back': Channel)
    requires Half(t, r, c, back)
    requires back'.log == back.log && back.handled <= back'.handled
    ensures Half(t, r, c, back')
  {
    forall k | back'.handled <= k < |back'.log| && back'.log[k].Accept?
      ensures AcceptAgrees(c, r, back'.log[k])
    {
      assert AcceptAgrees(c, r, back.log[k]);
    }
    forall k | back'.handled <= k < |back'.log| && back'.log[k].Result? && back'.log[k].code == RESULT_OK
      ensures back'.log[k].id in c.received
    {
      assert back.log[k].id in c.received;
    }
  }

  lemma ProposeStep(n: Net, name: Option<seq<byte>>, contentType: Option<seq<byte>>, file: seq<byte>, take: nat)
    requires Inv(n) && |file| < WORD && n.a.nextId != 0 && CanSendFiles(n.a)
    ensures Inv(Alone(n, Offering(n, file), OfferFile(n.a, name, contentType, |file|, Checksum(file), take)))
  {
    var size, crc := |file|, Checksum(file);
    var o := OfferFile(n.a, name, contentType, size, crc, take);
    OfferConserves(n.a, name, contentType, size, crc, take);
    OfferIsLegal(n.a.nextId, name, contentType, size, crc);
    OfferShape(n.a, OfferMessage(n.a.nextId, name, contentType, size, crc), name, contentType, size, crc, take);
    OfferingStep(n, file, o);
  }

  // --- sending a file ---

  /** What the pump may queue, and what it makes of the transfer. */
  predicate Moving(c: Channel, s: Session, o: Outcome)
    requires |c.trail| > 0
  {
    && o.plain == [] && Told(o.effects) == {}
    && o.s == s.(pending := o.s.pending, tx := o.s.tx)
    && (o.queued.None? ==> o.s.tx == s.tx)
    && (o.queued.Some? ==> s.tx.state == Running && Moved(c, s, o.queued.value, o.s.tx))
  }

  predicate Moved(c: Channel, s: Session, m: Message, tx: Outbound)
    requires |c.trail| > 0
  {
    match m
    case Done(id) => id == s.tx.id && s.tx.offset >= s.tx.size && tx == s.tx.(state := AwaitResult)
    case Cancel(_, _) => tx == s.tx.(state := NoTransfer)
    case Data(bytes) =>
      && s.tx.id in c.files && 0 < |bytes| <= MAX_PAYLOAD && s.tx.offset + |bytes| <= s.tx.size
      && s.tx.offset + |bytes| <= |c.files[s.tx.id]|
      && bytes == c.files[s.tx.id][s.tx.offset..s.tx.offset + |bytes|]
      && tx == s.tx.(offset := s.tx.offset + |bytes|)
    case _ => false
  }

  lemma MoveShape(c: Channel, s: Session, credit: nat, amount: nat, take: nat)
    requires amount <= Wants(s, credit) && |c.trail| > 0
    ensures Moving(c, s, Pump(s, credit, ReadAt(c, s, amount), take))
  {
  }

  lemma MovingAgrees(c: Channel, s: Session, o: Outcome)
    requires |c.trail| > 0 && Numbered(c, s) && TxAgrees(c, s) && Moving(c, s, o)
    ensures Numbered(Emit(c, o), o.s) && TxAgrees(Emit(c, o), o.s)
  {
  }

  lemma MovingTx(n: Net, o: Outcome)
    requires Inv(n) && Moving(n.ab, n.a, o)
    ensures Numbered(Emit(n.ab, o), o.s) && TxAgrees(Emit(n.ab, o), o.s)
    ensures o.queued.Some? ==> Joins(n.ab, n.b, o.queued.value)
  {
    MovingAgrees(n.ab, n.a, o);
  }

  lemma MovingStep(n: Net, o: Outcome)
    requires Inv(n) && Conserves(n.a, o) && Moving(n.ab, n.a, o)
    ensures Inv(Alone(n, n.ab, o))
  {
    MovingTx(n, o);
    EmitKeepsTx(n.a, n.b, n.ab, n.ba, o);
    LessReceiving(n.ba, n.a, o.s, n.ab);
    EmitKeepsRx(n.b, n.a, o.s, n.ba, n.ab, o);
  }

  lemma MoveStep(n: Net, credit: nat, amount: nat, take: nat)
    requires Inv(n) && amount <= Wants(n.a, credit)
    ensures Inv(Alone(n, n.ab, Pump(n.a, credit, ReadAt(n.ab, n.a, amount), take)))
  {
    MoveShape(n.ab, n.a, credit, amount, take);
    PumpConserves(n.a, credit, ReadAt(n.ab, n.a, amount), take);
    MovingStep(n, Pump(n.a, credit, ReadAt(n.ab, n.a, amount), take));
  }

  // --- bytes arriving ---

  lemma ArrivedFramed(c: Channel, s: Session, r: Session, count: nat)
    requires Framed(c, s, r) && count <= |c.wire|
    ensures Framed(c.(wire := c.wire[count..]), s, r.(inb := r.inb + c.wire[..count]))
  {
    assert c.wire == c.wire[..count] + c.wire[count..];
    assert r.inb + (c.wire[..count] + c.wire[count..]) == r.inb + c.wire[..count] + c.wire[count..];
  }

  /** The wire matters to the framing only. */
  lemma WireMatters(t: Session, r: Session, r': Session, c: Channel, c': Channel, back: Channel)
    requires Half(t, r, c, back)
    requires c' == c.(wire := c'.wire) && r' == r.(inb := r'.inb) && Framed(c', t, r')
    ensures Half(t, r', c', back)
  {
    forall k | c'.handled <= k < |c'.log| && c'.log[k].Start?
      ensures StartAgrees(c', r', c'.log[k])
    {
      assert StartAgrees(c, r, c.log[k]);
    }
    forall k | back.handled <= k < |back.log| && back.log[k].Accept?
      ensures AcceptAgrees(c', r', back.log[k])
    {
      assert AcceptAgrees(c, r, back.log[k]);
    }
  }

  /** The first byte a station hears is a HELLO's, whatever part of the stream arrives first. */
  lemma NeverRaw(n: Net, count: nat)
    requires Inv(n) && count <= |n.ba.wire|
    ensures n.a.link != Raw && !NotAsp(n.a, n.ba.wire[..count])
  {
    if n.a.link == HelloSent && n.a.inb == [] && count > 0 {
      var ms := n.ba.log[n.ba.handled..];
      assert ms[0] == n.ba.log[0];
      assert EncodeAll(ms) == Encode(ms[0]) + EncodeAll(ms[1..]);
      assert (n.a.inb + n.ba.wire + n.b.pending)[0] == n.ba.wire[..count][0];
      assert EncodeAll(ms)[0] == HELLO;
    }
  }

  lemma DeliverStep(n: Net, count: nat)
    requires Inv(n) && count <= |n.ba.wire|
    ensures Inv(Arrived(n, count))
  {
    var n' := Arrived(n, count);
    NeverRaw(n, count);
    ArrivedFramed(n.ba, n.b, n.a, count);
    WireMatters(n.b, n.a, n'.a, n.ba, n'.ba, n.ab);
    SenderReceives(n.a, n'.a, n.b, n.ab, n.ba, n'.ba);
  }

  lemma SenderReceives(t: Session, t': Session, r: Session, c: Channel, back: Channel, back': Channel)
    requires Half(t, r, c, back)
    requires t' == t.(inb := t'.inb) && back' == back.(wire := back'.wire)
    ensures Half(t', r, c, back')
  {
    BackMatters(t, r, c, back, back');
  }
}
