/** Dispatching a message keeps the invariant of `AspNet`, message by message. */
module AspHandling {
  import opened Bytes
  import opened Wire
  import opened AspSpec
  import opened AspNet
  import opened AspSafety
  import Crc32

  // --- the message at the front ---

  /** Whatever has arrived, a whole message at its front is the oldest one not yet dispatched. */
  lemma Front(c: Channel, s: Session, r: Session)
    requires Framed(c, s, r)
    ensures FrameGet(r.inb).Short? || FrameGet(r.inb).Ok?
    ensures FrameGet(r.inb).Ok? ==>
      && c.handled < |c.log|
      && var m := c.log[c.handled];
      && Legal(m)
      && FrameGet(r.inb) == Ok(Kind(m), Payload(m), |Encode(m)|)
      && r.inb[|Encode(m)|..] + c.wire + s.pending == EncodeAll(c.log[c.handled + 1..])
  {
    var ms := c.log[c.handled..];
    assert r.inb + (c.wire + s.pending) == r.inb + c.wire + s.pending;
    assert forall m :: m in ms ==> m in c.log;
    StreamFront(ms, r.inb, c.wire + s.pending);
    if FrameGet(r.inb).Ok? {
      var rest := r.inb[|Encode(ms[0])|..];
      assert ms[0] == c.log[c.handled] && ms[1..] == c.log[c.handled + 1..];
      assert rest + (c.wire + s.pending) == rest + c.wire + s.pending;
    }
  }

  // --- the receiving side's part of the invariant, message by message ---

  ghost predicate RxCore(c: Channel, r: Session, back: Channel) {
    && c.handled < |c.trail|
    && RxAgrees(c, r) && StartsAgree(c, r) && AcceptsAgree(c, r, back)
    && ResultsAgree(c, back) && Delivered(c)
  }

  /** The direction `c` with its oldest message `m` about to be dispatched. */
  ghost predicate Facing(c: Channel, m: Message) {
    Trailed(c) && c.handled < |c.log| && c.log[c.handled] == m
  }

  lemma StandingMoves(c: Channel, m: Message)
    requires Facing(c, m)
    ensures Follows(c.trail[c.handled], m, c.files)
    ensures c.trail[c.handled + 1] == Next(c.trail[c.handled], m)
  {
  }

  /** Messages that leave this direction's transfers where they are. */
  lemma PassBy(c: Channel, m: Message, r: Session, r': Session, back: Channel)
    requires Facing(c, m) && RxCore(c, r, back)
    requires !m.Offer? && !m.Start? && !m.Data? && !m.Done?
    requires r'.rx == r.rx || r'.rx == r.rx.(state := NoTransfer)
    ensures RxCore(Pop(c), r', back)
  {
    StandingMoves(c, m);
    LessReceiving(c, r, r', back);
    StillAgree(c, r', back);
  }

  lemma StillAgree(c: Channel, r: Session, back: Channel)
    requires c.handled + 1 < |c.trail| && c.trail[c.handled + 1] == c.trail[c.handled]
    requires StartsAgree(c, r) && AcceptsAgree(c, r, back)
    ensures StartsAgree(Pop(c), r) && AcceptsAgree(Pop(c), r, back)
  {
    forall k | c.handled + 1 <= k < |c.log| && c.log[k].Start?
      ensures StartAgrees(Pop(c), r, c.log[k])
    {
      assert StartAgrees(c, r, c.log[k]);
    }
    forall k | back.handled <= k < |back.log| && back.log[k].Accept?
      ensures AcceptAgrees(Pop(c), r, back.log[k])
    {
      assert AcceptAgrees(c, r, back.log[k]);
    }
  }

  /** While nothing is being received, only the numbers matter. */
  lemma IdleAgrees(c: Channel, c': Channel, r: Session, r': Session, back: Channel)
    requires c.handled < |c.log| && |c.trail| == |c.log| + 1 && RxCore(c, r, back) && r'.rx.state == NoTransfer
    requires c' == Pop(c).(stored := c'.stored, kept := c'.kept)
    requires IdOf(c.trail[c.handled]) <= IdOf(c'.trail[c'.handled])
    requires c'.trail[c'.handled].Sending? ==> c'.trail[c'.handled].id in c.entered
    ensures RxCore(c', r', back)
  {
    forall k | c'.handled <= k < |c'.log| && c'.log[k].Start?
      ensures StartAgrees(c', r', c'.log[k])
    {
      assert StartAgrees(c, r, c.log[k]);
    }
    forall k | back.handled <= k < |back.log| && back.log[k].Accept?
      ensures AcceptAgrees(c', r', back.log[k])
    {
      assert AcceptAgrees(c, r, back.log[k]);
    }
  }

  lemma OfferPassed(c: Channel, m: Message, r: Session, r': Session, back: Channel)
    requires Facing(c, m) && m.Offer? && RxCore(c, r, back) && r'.rx == r.rx
    ensures RxCore(Pop(c), r', back)
  {
    var c' := Pop(c);
    StandingMoves(c, m);
    forall k | c'.handled <= k < |c'.log| && c'.log[k].Start?
      ensures StartAgrees(c', r', c'.log[k])
    {
      assert StartAgrees(c, r, c.log[k]);
    }
    forall k | back.handled <= k < |back.log| && back.log[k].Accept?
      ensures AcceptAgrees(c', r', back.log[k])
    {
      assert AcceptAgrees(c, r, back.log[k]);
    }
  }

  /** The direction once the receiving side has taken up the offer at its front. */
  function TakenUp(c: Channel, id: u16, disk: seq<byte>): Channel {
    Pop(c).(stored := disk, kept := [], entered := c.entered + {id})
  }

  lemma OfferTaken(c: Channel, m: Message, r: Session, r': Session, back: Channel, disk: seq<byte>)
    requires Facing(c, m) && m.Offer? && RxCore(c, r, back) && |disk| < WORD
    requires r'.rx.state == Receiving && r'.rx.id == m.id && r'.rx.size == m.size && r'.rx.crc == m.crc
    ensures RxCore(TakenUp(c, m.id, disk), r', back)
  {
    var c' := TakenUp(c, m.id, disk);
    StandingMoves(c, m);
    forall k | c'.handled <= k < |c'.log| && c'.log[k].Start?
      ensures StartAgrees(c', r', c'.log[k])
    {
      assert StartAgrees(c, r, c.log[k]);
    }
    forall k | back.handled <= k < |back.log| && back.log[k].Accept?
      ensures AcceptAgrees(c', r', back.log[k])
    {
      assert AcceptAgrees(c, r, back.log[k]);
    }
  }

  lemma StartIsForUs(c: Channel, m: Message, r: Session, back: Channel)
    requires Facing(c, m) && m.Start? && RxCore(c, r, back)
    ensures StartAgrees(c, r, m) && c.trail[c.handled] == Proposed(m.id)
    ensures c.trail[c.handled + 1] == Sending(m.id, m.from) && m.id in c.files
    ensures r.rx.state == Receiving ==> r.rx.id == m.id
  {
    StandingMoves(c, m);
    assert StartAgrees(c, r, c.log[c.handled]);
  }

  /** Moving into or through a transfer's data, with the file as it should be. */
  lemma SendingAgrees(c: Channel, c': Channel, r: Session, r': Session, back: Channel)
    requires c.handled < |c.log| && RxCore(c, r, back) && |c.trail| == |c.log| + 1
    requires r.rx.state == Receiving && r'.rx == r.rx.(have := r'.rx.have, running := r'.rx.running)
    requires c' == Pop(c).(stored := c'.stored, kept := c'.kept)
    requires c'.trail[c'.handled].Sending? && c'.trail[c'.handled].id == r.rx.id
    requires IdOf(c.trail[c.handled]) <= r.rx.id
    requires Holds(c', r', c'.trail[c'.handled].off)
    requires forall k :: c'.handled <= k < |c.log| && c.log[k].Start? ==> c.log[k].id != r.rx.id
    ensures RxCore(c', r', back)
  {
    forall k | c'.handled <= k < |c'.log| && c'.log[k].Start?
      ensures StartAgrees(c', r', c'.log[k])
    {
      assert StartAgrees(c, r, c.log[k]);
    }
    forall k | back.handled <= k < |back.log| && back.log[k].Accept?
      ensures AcceptAgrees(c', r', back.log[k])
    {
      assert AcceptAgrees(c, r, back.log[k]);
    }
  }

  /** A transfer is started once: no START for it follows one already dispatched. */
  lemma StartedOnce(c: Channel, id: u16, k: nat)
    requires Trailed(c) && c.handled < |c.log|
    requires c.trail[c.handled + 1].Sending? && c.trail[c.handled + 1].id == id
    requires c.handled + 1 <= k < |c.log| && c.log[k].Start?
    ensures c.log[k].id != id
  {
    assert Follows(c.trail[k], c.log[k], c.files);
    assert Rank(c.trail[c.handled + 1]) <= Rank(c.trail[k]);
  }

  lemma StartTaken(c: Channel, m: Message, r: Session, r': Session, c': Channel, back: Channel)
    requires Facing(c, m) && m.Start? && RxCore(c, r, back) && r.rx.state == Receiving
    requires r'.rx == r.rx.(have := m.from, running := r'.rx.running)
    requires c' == Pop(c).(stored := c'.stored, kept := c'.kept) && c'.kept == c'.stored
    requires if m.from == 0 && r.rx.have > 0 then c'.stored == [] && r'.rx.running == Crc32.INIT
             else c'.stored == c.stored && r'.rx.running == r.rx.running
    ensures RxCore(c', r', back)
  {
    StartIsForUs(c, m, r, back);
    Crc32.CrcOfNothing();
    var file := c.files[m.id];
    assert file[..0] == [];
    assert c'.stored == c'.kept + file[m.from..m.from];
    forall k | c'.handled <= k < |c.log| && c.log[k].Start?
      ensures c.log[k].id != r.rx.id
    {
      StartedOnce(c, m.id, k);
    }
    SendingAgrees(c, c', r, r', back);
  }

  lemma DataIsForUs(c: Channel, m: Message, r: Session, back: Channel)
    requires Facing(c, m) && m.Data? && RxCore(c, r, back)
    ensures c.trail[c.handled].Sending? && c.trail[c.handled].id in c.entered
    ensures r.rx.state == Receiving ==>
      && var st := c.trail[c.handled];
      && st.id == r.rx.id && r.rx.id in c.files && Holds(c, r, st.off)
      && st.off + |m.bytes| <= |c.files[st.id]|
      && m.bytes == c.files[st.id][st.off..st.off + |m.bytes|]
      && c.trail[c.handled + 1] == Sending(st.id, st.off + |m.bytes|)
  {
    StandingMoves(c, m);
  }

  /** The next bytes of the file, after the right beginning of it, make a longer right beginning. */
  lemma OneMoreChunk(file: seq<byte>, stored: seq<byte>, kept: seq<byte>, off: nat, bytes: seq<byte>)
    requires off + |bytes| <= |file| && bytes == file[off..off + |bytes|]
    requires Checksum(stored) == Checksum(file[..off])
    requires |kept| <= off && stored == kept + file[|kept|..off]
    ensures Crc32.Crc(Checksum(stored), bytes) == Checksum(stored + bytes) == Checksum(file[..off + |bytes|])
    ensures stored + bytes == kept + file[|kept|..off + |bytes|]
  {
    Crc32.CrcContinues(Crc32.INIT, stored, bytes);
    Crc32.CrcContinues(Crc32.INIT, file[..off], bytes);
    assert file[..off] + bytes == file[..off + |bytes|];
    assert file[|kept|..off] + bytes == file[|kept|..off + |bytes|];
  }

  lemma MoreHeld(c: Channel, m: Message, r: Session, r': Session, off: nat)
    requires m.Data? && r.rx.id in c.files && Holds(c, r, off) && |c.files[r.rx.id]| < WORD
    requires off + |m.bytes| <= |c.files[r.rx.id]| && m.bytes == c.files[r.rx.id][off..off + |m.bytes|]
    requires r'.rx.id == r.rx.id && r'.rx.have == (r.rx.have + |m.bytes|) % WORD
    requires r'.rx.running == Crc32.Crc(r.rx.running, m.bytes)
    ensures Holds(c.(stored := c.stored + m.bytes), r', off + |m.bytes|)
  {
    var file := c.files[r.rx.id];
    OneMoreChunk(file, c.stored, c.kept, off, m.bytes);
    assert r'.rx.have == off + |m.bytes| == |c.stored + m.bytes|;
    assert r'.rx.running == Checksum(c.stored + m.bytes);
  }

  lemma DataTaken(c: Channel, m: Message, r: Session, r': Session, back: Channel)
    requires Facing(c, m) && m.Data? && RxCore(c, r, back) && r.rx.state == Receiving
    requires forall id :: id in c.files ==> |c.files[id]| < WORD
    requires r'.rx == r.rx.(have := r'.rx.have, running := r'.rx.running)
    requires r'.rx.have == (r.rx.have + |m.bytes|) % WORD && r'.rx.running == Crc32.Crc(r.rx.running, m.bytes)
    ensures RxCore(Pop(c).(stored := c.stored + m.bytes), r', back)
  {
    var c' := Pop(c).(stored := c.stored + m.bytes);
    DataIsForUs(c, m, r, back);
    var st := c.trail[c.handled];
    MoreHeld(c, m, r, r', st.off);
    assert Holds(c', r', st.off + |m.bytes|);
    forall k | c'.handled <= k < |c.log| && c.log[k].Start?
      ensures c.log[k].id != r.rx.id
    {
      StartedOnce(c, st.id, k);
    }
    SendingAgrees(c, c', r, r', back);
  }

  /** A DONE that finds its transfer being received always finds it whole. */
  lemma DoneFindsAll(c: Channel, m: Message, r: Session, back: Channel)
    requires Facing(c, m) && m.Done? && RxCore(c, r, back)
    ensures c.trail[c.handled + 1] == Finished(m.id) && IdOf(c.trail[c.handled]) == m.id
    ensures r.rx.state == Receiving ==>
      && r.rx.id == m.id && m.id in c.files
      && Verdict(r.rx) == RESULT_OK
      && Faithful(c.files[m.id], Receipt(c.kept, c.stored))
  {
    StandingMoves(c, m);
    if r.rx.state == Receiving {
      var file := c.files[m.id];
      assert file[..|file|] == file && file[|c.kept|..|file|] == file[|c.kept|..];
    }
  }

  lemma DoneTaken(c: Channel, m: Message, r: Session, r': Session, back: Channel)
    requires Facing(c, m) && m.Done? && RxCore(c, r, back) && r.rx.state == Receiving
    requires r'.rx == r.rx.(state := NoTransfer)
    ensures RxCore(Pop(c).(received := c.received[m.id := Receipt(c.kept, c.stored)]), r', back)
  {
    DoneFindsAll(c, m, r, back);
    IdleAgrees(c, Pop(c), r, r', back);
    MoreReceived(Pop(c), r', back, m.id, Receipt(c.kept, c.stored));
  }

  lemma MoreReceived(c: Channel, r: Session, back: Channel, id: u16, receipt: Receipt)
    requires RxCore(c, r, back) && id in c.files && Faithful(c.files[id], receipt)
    ensures RxCore(c.(received := c.received[id := receipt]), r, back)
  {
    var c' := c.(received := c.received[id := receipt]);
    ReceivedMatters(c, c', r, back);
    assert Delivered(c') && ResultsAgree(c', back);
  }

  /** What has been reported does not matter to what is being received. */
  lemma ReceivedMatters(c: Channel, c': Channel, r: Session, back: Channel)
    requires c.handled < |c.trail| && RxAgrees(c, r) && StartsAgree(c, r) && AcceptsAgree(c, r, back)
    requires c' == c.(received := c'.received)
    ensures RxAgrees(c', r) && StartsAgree(c', r) && AcceptsAgree(c', r, back)
  {
    forall k | c'.handled <= k < |c'.log| && c'.log[k].Start?
      ensures StartAgrees(c', r, c'.log[k])
    {
      assert StartAgrees(c, r, c.log[k]);
    }
    forall k | back.handled <= k < |back.log| && back.log[k].Accept?
      ensures AcceptAgrees(c', r, back.log[k])
    {
      assert AcceptAgrees(c, r, back.log[k]);
    }
  }

  // --- the two halves of a dispatch ---

  /** What a handler may do to the session and queue, on the receiving side's behalf. */
  ghost predicate Replies(c: Channel, r: Session, o: Outcome) {
    && c.handled < |c.trail|
    && (o.queued.Some? && o.queued.value.Accept? ==> AcceptAgrees(c, r, o.queued.value))
    && (o.queued.Some? && o.queued.value.Result? && o.queued.value.code == RESULT_OK ==> o.queued.value.id in c.received)
  }

  /** What it may do on the sending side's. */
  ghost predicate Continues(c: Channel, t: Session, r: Session, o: Outcome)
    requires |c.trail| > 0
  {
    && o.plain == []
    && (o.queued.Some? ==> Joins(c, r, o.queued.value))
    && Told(o.effects) <= c.received.Keys
    && Numbered(Emit(c, o), o.s) && TxAgrees(Emit(c, o), o.s)
  }

  lemma SameSender(t: Session, t': Session, r: Session, c: Channel, back: Channel)
    requires Half(t, r, c, back)
    requires t'.pending == t.pending && t'.nextId == t.nextId && t'.tx == t.tx
    ensures Half(t', r, c, back)
  {
  }

  lemma SenderHalf(n: Net, o: Outcome, a': Session, ba': Channel)
    requires Inv(n) && Conserves(n.a, o) && Continues(n.ab, n.a, n.b, o)
    requires a' == o.s.(inb := a'.inb)
    requires ba'.log == n.ba.log && ba'.handled == n.ba.handled + 1
    ensures Half(a', n.b, Emit(n.ab, o), ba')
  {
    EmitKeepsTx(n.a, n.b, n.ab, n.ba, o);
    SameSender(o.s, a', n.b, Emit(n.ab, o), n.ba);
    BackMatters(a', n.b, Emit(n.ab, o), n.ba, ba');
  }

  lemma ReceiverHalf(n: Net, m: Message, o: Outcome, a': Session, ba': Channel)
    requires Inv(n) && Facing(n.ba, m)
    requires a'.inb + n.ba.wire + n.b.pending == EncodeAll(n.ba.log[n.ba.handled + 1..])
    requires a'.link == (if m.Hello? then Asp else n.a.link)
    requires ba' == Pop(n.ba).(stored := ba'.stored, kept := ba'.kept, entered := ba'.entered, received := ba'.received)
    requires RxCore(ba', a', n.ab) && Replies(ba', a', o)
    requires m.Hello? || n.ba.handled > 0
    ensures Half(n.b, a', ba', Emit(n.ab, o))
  {
    PoppedHalf(n.b, n.a, n.ba, n.ab, m, a', ba');
    EmitKeepsRx(n.b, a', a', ba', n.ab, o);
  }

  /** The direction `c` after its oldest message: the same history, whatever has become of the files. */
  predicate Popped(c: Channel, c': Channel) {
    c' == Pop(c).(stored := c'.stored, kept := c'.kept, entered := c'.entered, received := c'.received)
  }

  lemma PoppedFramed(t: Session, r: Session, c: Channel, m: Message, r': Session, c': Channel)
    requires Framed(c, t, r) && Greeted(c, r) && Facing(c, m) && Popped(c, c')
    requires r'.inb + c.wire + t.pending == EncodeAll(c.log[c.handled + 1..])
    requires r'.link == (if m.Hello? then Asp else r.link) && (m.Hello? || c.handled > 0)
    ensures Framed(c', t, r') && Greeted(c', r')
  {
  }

  lemma PoppedHistory(t: Session, c: Channel, c': Channel)
    requires |c.trail| > 0 && Trailed(c) && Numbered(c, t) && TxAgrees(c, t) && Popped(c, c')
    ensures Trailed(c') && Numbered(c', t) && TxAgrees(c', t)
  {
    assert c'.log == c.log && c'.trail == c.trail && c'.files == c.files;
  }

  lemma PoppedHalf(t: Session, r: Session, c: Channel, back: Channel, m: Message, r': Session, c': Channel)
    requires Half(t, r, c, back) && Facing(c, m) && Popped(c, c')
    requires r'.inb + c.wire + t.pending == EncodeAll(c.log[c.handled + 1..])
    requires r'.link == (if m.Hello? then Asp else r.link)
    requires RxCore(c', r', back)
    requires m.Hello? || c.handled > 0
    ensures Half(t, r', c', back)
  {
    PoppedFramed(t, r, c, m, r', c');
    PoppedHistory(t, c, c');
  }

  /** Side `a` dispatches `m` with outcome `o`, `rest` being what its buffer holds after it. */
  ghost predicate Dispatched(n: Net, m: Message, rest: seq<byte>, o: Outcome) {
    && Inv(n) && Facing(n.ba, m) && Conserves(n.a, o)
    && rest + n.ba.wire + n.b.pending == EncodeAll(n.ba.log[n.ba.handled + 1..])
    && o.s.link == (if m.Hello? then Asp else n.a.link)
    && (m.Hello? || n.ba.handled > 0)
  }

  function After(rest: seq<byte>, o: Outcome): Session {
    o.s.(inb := rest)
  }

  function Reached(n: Net, rest: seq<byte>, o: Outcome, ba': Channel): Net
    requires |n.ab.trail| > 0
  {
    Net(After(rest, o), n.b, Emit(n.ab, o), ba')
  }

  lemma DispatchKeeps(n: Net, m: Message, rest: seq<byte>, o: Outcome, ba': Channel)
    requires Dispatched(n, m, rest, o)
    requires ba' == Pop(n.ba).(stored := ba'.stored, kept := ba'.kept, entered := ba'.entered, received := ba'.received)
    requires Continues(n.ab, n.a, n.b, o)
    requires RxCore(ba', After(rest, o), n.ab) && Replies(ba', After(rest, o), o)
    ensures Inv(Reached(n, rest, o, ba'))
  {
    SenderHalf(n, o, After(rest, o), ba');
    ReceiverHalf(n, m, o, After(rest, o), ba');
  }

  // --- what each handler does with a message it can parse ---

  /** The part of every handler's outcome that concerns neither transfer. */
  predicate Quiet(s: Session, o: Outcome) {
    o.plain == [] && o.s == s.(pending := o.s.pending, tx := o.s.tx, rx := o.s.rx)
  }

  predicate GivenUp(s: Session, s': Session) {
    && (s'.tx == s.tx || s'.tx == s.tx.(state := NoTransfer))
    && (s'.rx == s.rx || s'.rx == s.rx.(state := NoTransfer))
  }

  lemma HelloOutcome(s: Session, m: Message, ans: Answers)
    requires m.Hello? && Legal(m)
    ensures Dispatch(s, Kind(m), Payload(m), ans) == Still(s.(peerCaps := m.caps, peerCall := m.call, link := Asp))
  {
    HelloRoundTrip(m);
  }

  lemma StopOutcome(s: Session, m: Message, ans: Answers)
    requires m.Reject? || m.Cancel?
    ensures var o := Dispatch(s, Kind(m), Payload(m), ans);
      && Quiet(s, o) && GivenUp(s, o.s) && o.queued.None?
      && (o.effects == [] || exists inbound :: o.effects == [TransferDone(inbound, m.id, SHORT)])
  {
    SmallRoundTrip(m);
  }

  lemma ResultOutcome(s: Session, m: Message, ans: Answers)
    requires m.Result?
    ensures var o := Dispatch(s, Kind(m), Payload(m), ans);
      && Quiet(s, o) && GivenUp(s, o.s) && o.queued.None?
      && (o.effects == [] || o.effects == [TransferDone(false, m.id, m.code)])
  {
    SmallRoundTrip(m);
  }

  lemma AcceptOutcome(s: Session, m: Message, ans: Answers)
    requires m.Accept?
    ensures var o := Dispatch(s, Kind(m), Payload(m), ans);
      var from := StartOffset(s.tx.size, m.have, m.prefixCrc, ans.prefix);
      && Quiet(s, o) && o.effects == [] && o.s.rx == s.rx
      && (o.queued.None? ==> o.s.tx == s.tx)
      && (o.queued.Some? ==>
          && s.tx.state == Offered && m.id == s.tx.id && o.queued.value == Start(m.id, from)
          && o.s.tx == s.tx.(state := Running, offset := from))
  {
    SmallRoundTrip(m);
  }

  lemma OffersAreTaken(s: Session, p: seq<byte>, m: Message, ans: Answers)
    requires OfferGet(p) == Some(m) && m.Offer?
    ensures Dispatch(s, OFFER, p, ans) == TakeOffer(s, m, ans)
  {
  }

  lemma OfferOutcome(s: Session, m: Message, ans: Answers)
    requires m.Offer? && Legal(m)
    ensures Dispatch(s, Kind(m), Payload(m), ans) == TakeOffer(s, m, ans)
  {
    OfferRoundTrip(m);
    OffersAreTaken(s, Payload(m), m, ans);
  }

  lemma TakeOfferShape(s: Session, m: Message, ans: Answers)
    requires m.Offer?
    ensures var o := TakeOffer(s, m, ans);
      && Quiet(s, o) && o.s.tx == s.tx
      && (o.effects == [] ==> o.s.rx == s.rx && (o.queued.Some? ==> o.queued.value.Reject?))
      && (o.effects != [] ==> o.effects == [Asked(m.id, m.size, m.name)] && Admitted(m, ans, o))
  {
  }

  /** A reception that has just begun, with or without an immediate ACCEPT. */
  predicate Admitted(m: Message, ans: Answers, o: Outcome)
    requires m.Offer?
  {
    && o.s.rx.state == Receiving && o.s.rx.id == m.id && o.s.rx.size == m.size && o.s.rx.crc == m.crc
    && (o.queued.Some? ==>
        && ans.decision.Some?
        && o.queued.value == Accept(m.id, ans.decision.value.0, ans.decision.value.1)
        && o.s.rx.have == ans.decision.value.0 && o.s.rx.running == ans.decision.value.1)
  }

  lemma StartOutcome(s: Session, m: Message, ans: Answers)
    requires m.Start?
    ensures var o := Dispatch(s, Kind(m), Payload(m), ans);
      && Quiet(s, o) && o.queued.None? && o.s.tx == s.tx
      && (s.rx.state == Receiving && m.id == s.rx.id ==>
          && o.s.rx == s.rx.(have := m.from, running := o.s.rx.running)
          && (if m.from == 0 && s.rx.have > 0 then o.effects == [Truncated] && o.s.rx.running == Crc32.INIT
              else o.effects == [] && o.s.rx.running == s.rx.running))
      && (!(s.rx.state == Receiving && m.id == s.rx.id) ==> o.s.rx == s.rx && o.effects == [])
  {
    SmallRoundTrip(m);
  }

  lemma DataOutcome(s: Session, m: Message, ans: Answers)
    requires m.Data?
    ensures var o := Dispatch(s, Kind(m), Payload(m), ans);
      && Quiet(s, o) && o.s.tx == s.tx
      && (o.queued.Some? ==> o.queued.value == Result(s.rx.id, WRITE_FAILED))
      && (s.rx.state != Receiving ==> o.s.rx == s.rx && o.effects == [])
      && (s.rx.state == Receiving && !ans.writeOk ==> o.s.rx == s.rx.(state := NoTransfer) && o.effects == [])
      && (s.rx.state == Receiving && ans.writeOk ==>
          && o.s.rx == s.rx.(have := (s.rx.have + |m.bytes|) % WORD, running := Crc32.Crc(s.rx.running, m.bytes))
          && o.effects == [Wrote(m.bytes)] && o.queued.None?)
  {
  }

  lemma DoneOutcome(s: Session, m: Message, ans: Answers)
    requires m.Done?
    ensures var o := Dispatch(s, Kind(m), Payload(m), ans);
      && Quiet(s, o) && o.s.tx == s.tx
      && (s.rx.state == Receiving && m.id == s.rx.id ==>
          && o.s.rx == s.rx.(state := NoTransfer) && o.effects == [TransferDone(true, m.id, Verdict(s.rx))]
          && (o.queued.Some? ==> o.queued.value == Result(m.id, Verdict(s.rx))))
      && (!(s.rx.state == Receiving && m.id == s.rx.id) ==> o.s.rx == s.rx && o.effects == [] && o.queued.None?)
  {
    SmallRoundTrip(m);
  }

  // --- each handler keeps the invariant ---

  /** A handler that leaves our own transfer alone, queueing at most a reply. */
  lemma NothingSent(n: Net, o: Outcome)
    requires Inv(n) && o.plain == []
    requires o.queued.Some? ==> var m := o.queued.value; m.Reject? || m.Accept? || m.Result?
    requires o.s.tx == n.a.tx || o.s.tx == n.a.tx.(state := NoTransfer)
    requires o.s.nextId == n.a.nextId && Told(o.effects) <= n.ab.received.Keys
    ensures Continues(n.ab, n.a, n.b, o)
  {
    ReplyContinues(n.ab, n.a, n.b, o);
  }

  lemma ReplyContinues(c: Channel, t: Session, r: Session, o: Outcome)
    requires |c.trail| > 0 && Numbered(c, t) && TxAgrees(c, t) && o.plain == []
    requires o.queued.Some? ==> var m := o.queued.value; m.Reject? || m.Accept? || m.Result?
    requires o.s.tx == t.tx || o.s.tx == t.tx.(state := NoTransfer)
    requires o.s.nextId == t.nextId && Told(o.effects) <= c.received.Keys
    ensures Continues(c, t, r, o)
  {
    assert Last(Emit(c, o)) == Last(c);
  }

  lemma PassingStep(n: Net, m: Message, rest: seq<byte>, o: Outcome)
    requires Dispatched(n, m, rest, o)
    requires !m.Offer? && !m.Start? && !m.Data? && !m.Done?
    requires o.s.rx == n.a.rx || o.s.rx == n.a.rx.(state := NoTransfer)
    requires o.queued.None? || o.queued.value.Start?
    requires Continues(n.ab, n.a, n.b, o)
    ensures Inv(Reached(n, rest, o, Pop(n.ba)))
  {
    PassBy(n.ba, m, n.a, After(rest, o), n.ab);
    DispatchKeeps(n, m, rest, o, Pop(n.ba));
  }

  /** An OK result in flight towards us was really reported. */
  lemma ResultIsTrue(n: Net, m: Message)
    requires Inv(n) && Facing(n.ba, m) && m.Result? && m.code == RESULT_OK
    ensures m.id in n.ab.received
  {
    assert n.ba.log[n.ba.handled] == m;
  }

  lemma GivingUpStep(n: Net, m: Message, rest: seq<byte>, o: Outcome)
    requires Dispatched(n, m, rest, o) && !m.Offer? && !m.Start? && !m.Data? && !m.Done?
    requires o.plain == [] && o.queued.None? && GivenUp(n.a, o.s) && o.s.nextId == n.a.nextId
    requires Told(o.effects) <= if m.Result? && m.code == RESULT_OK then {m.id} else {}
    ensures Inv(Reached(n, rest, o, Pop(n.ba)))
  {
    if m.Result? && m.code == RESULT_OK {
      ResultIsTrue(n, m);
    }
    NothingSent(n, o);
    PassingStep(n, m, rest, o);
  }

  /** The offer an ACCEPT in flight answers is the last one dispatched, if it is still open. */
  lemma AcceptIsForUs(n: Net, m: Message)
    requires Inv(n) && Facing(n.ba, m) && m.Accept? && n.a.tx.state == Offered && m.id == n.a.tx.id
    ensures AcceptAgrees(n.ab, n.b, m) && n.ab.trail[n.ab.handled] == Proposed(m.id)
  {
    var c := n.ab;
    assert n.ba.log[n.ba.handled] == m;
    assert Rank(c.trail[c.handled]) <= Rank(c.trail[|c.trail| - 1]);
  }

  /** The START that answers it begins where both files agree. */
  lemma StartJoins(n: Net, m: Message, prefix: Option<seq<byte>>)
    requires Inv(n) && Facing(n.ba, m) && m.Accept? && n.a.tx.state == Offered && m.id == n.a.tx.id
    requires prefix.Some? ==> m.have <= |n.ab.files[m.id]| && prefix.value == n.ab.files[m.id][..m.have]
    ensures Joins(n.ab, n.b, Start(m.id, StartOffset(n.a.tx.size, m.have, m.prefixCrc, prefix)))
  {
    AcceptIsForUs(n, m);
  }

  lemma StartContinues(n: Net, m: Message, o: Outcome, from: u32)
    requires Inv(n) && m.Accept? && n.a.tx.state == Offered && m.id == n.a.tx.id && from <= n.a.tx.size
    requires o.plain == [] && o.effects == [] && o.s == n.a.(pending := o.s.pending, tx := n.a.tx.(state := Running, offset := from))
    requires o.queued == Some(Start(m.id, from)) && Joins(n.ab, n.b, o.queued.value)
    ensures Continues(n.ab, n.a, n.b, o)
  {
  }

  lemma AcceptStep(n: Net, m: Message, rest: seq<byte>, o: Outcome, prefix: Option<seq<byte>>)
    requires Dispatched(n, m, rest, o) && m.Accept?
    requires o.plain == [] && o.effects == [] && o.s == n.a.(pending := o.s.pending, tx := o.s.tx)
    requires n.a.tx.id in n.ab.files && m.id == n.a.tx.id && prefix.Some? ==>
      m.have <= |n.ab.files[m.id]| && prefix.value == n.ab.files[m.id][..m.have]
    requires o.queued.None? ==> o.s.tx == n.a.tx
    requires o.queued.Some? ==>
      var from := StartOffset(n.a.tx.size, m.have, m.prefixCrc, prefix);
      && n.a.tx.state == Offered && m.id == n.a.tx.id && o.queued.value == Start(m.id, from)
      && o.s.tx == n.a.tx.(state := Running, offset := from)
    ensures Inv(Reached(n, rest, o, Pop(n.ba)))
  {
    if o.queued.Some? {
      StartJoins(n, m, prefix);
      StartContinues(n, m, o, StartOffset(n.a.tx.size, m.have, m.prefixCrc, prefix));
    } else {
      NothingSent(n, o);
    }
    PassingStep(n, m, rest, o);
  }

  lemma OfferRefusedStep(n: Net, m: Message, rest: seq<byte>, o: Outcome)
    requires Dispatched(n, m, rest, o) && m.Offer?
    requires Quiet(n.a, o) && o.s.tx == n.a.tx && o.s.rx == n.a.rx && o.effects == []
    requires o.queued.Some? ==> o.queued.value.Reject?
    ensures Inv(Reached(n, rest, o, Pop(n.ba)))
  {
    NothingSent(n, o);
    OfferPassed(n.ba, m, n.a, After(rest, o), n.ab);
    DispatchKeeps(n, m, rest, o, Pop(n.ba));
  }

  lemma OfferTakenStep(n: Net, m: Message, rest: seq<byte>, o: Outcome, disk: seq<byte>)
    requires Dispatched(n, m, rest, o) && m.Offer? && |disk| < WORD
    requires Quiet(n.a, o) && o.s.tx == n.a.tx && Told(o.effects) == {}
    requires o.s.rx.state == Receiving && o.s.rx.id == m.id && o.s.rx.size == m.size && o.s.rx.crc == m.crc
    requires o.queued.Some? ==>
      && o.queued.value == Accept(m.id, |disk|, Checksum(disk))
      && o.s.rx.have == |disk| && o.s.rx.running == Checksum(disk)
    ensures Inv(Reached(n, rest, o, TakenUp(n.ba, m.id, disk)))
  {
    NothingSent(n, o);
    OfferTaken(n.ba, m, n.a, After(rest, o), n.ab, disk);
    DispatchKeeps(n, m, rest, o, TakenUp(n.ba, m.id, disk));
  }

  lemma StartPassedStep(n: Net, m: Message, rest: seq<byte>, o: Outcome)
    requires Dispatched(n, m, rest, o) && m.Start? && n.a.rx.state == NoTransfer
    requires Quiet(n.a, o) && o.s.tx == n.a.tx && o.s.rx == n.a.rx && o.effects == [] && o.queued.None?
    ensures Inv(Reached(n, rest, o, Pop(n.ba)))
  {
    NothingSent(n, o);
    StartIsForUs(n.ba, m, n.a, n.ab);
    IdleAgrees(n.ba, Pop(n.ba), n.a, After(rest, o), n.ab);
    DispatchKeeps(n, m, rest, o, Pop(n.ba));
  }

  lemma StartTakenStep(n: Net, m: Message, rest: seq<byte>, o: Outcome, ba': Channel)
    requires Dispatched(n, m, rest, o) && m.Start? && n.a.rx.state == Receiving
    requires Quiet(n.a, o) && o.s.tx == n.a.tx && Told(o.effects) == {} && o.queued.None?
    requires o.s.rx == n.a.rx.(have := m.from, running := o.s.rx.running)
    requires ba' == Pop(n.ba).(stored := ba'.stored, kept := ba'.kept) && ba'.kept == ba'.stored
    requires if m.from == 0 && n.a.rx.have > 0 then ba'.stored == [] && o.s.rx.running == Crc32.INIT
             else ba'.stored == n.ba.stored && o.s.rx.running == n.a.rx.running
    ensures Inv(Reached(n, rest, o, ba'))
  {
    NothingSent(n, o);
    StartTaken(n.ba, m, n.a, After(rest, o), ba', n.ab);
    DispatchKeeps(n, m, rest, o, ba');
  }

  lemma DataPassedStep(n: Net, m: Message, rest: seq<byte>, o: Outcome, ba': Channel)
    requires Dispatched(n, m, rest, o) && m.Data? && o.s.rx.state == NoTransfer
    requires Quiet(n.a, o) && o.s.tx == n.a.tx && o.effects == []
    requires o.queued.Some? ==> o.queued.value.Result? && o.queued.value.code == WRITE_FAILED
    requires ba' == Pop(n.ba).(stored := ba'.stored)
    ensures Inv(Reached(n, rest, o, ba'))
  {
    NothingSent(n, o);
    DataIsForUs(n.ba, m, n.a, n.ab);
    IdleAgrees(n.ba, ba', n.a, After(rest, o), n.ab);
    DispatchKeeps(n, m, rest, o, ba');
  }

  lemma DataTakenCore(n: Net, m: Message, rest: seq<byte>, o: Outcome)
    requires Inv(n) && Facing(n.ba, m) && m.Data? && n.a.rx.state == Receiving
    requires o.s.rx == n.a.rx.(have := o.s.rx.have, running := o.s.rx.running)
    requires o.s.rx.have == (n.a.rx.have + |m.bytes|) % WORD && o.s.rx.running == Crc32.Crc(n.a.rx.running, m.bytes)
    ensures RxCore(Pop(n.ba).(stored := n.ba.stored + m.bytes), After(rest, o), n.ab)
  {
    DataTaken(n.ba, m, n.a, After(rest, o), n.ab);
  }

  lemma DataTakenStep(n: Net, m: Message, rest: seq<byte>, o: Outcome, stored: seq<byte>)
    requires Dispatched(n, m, rest, o) && m.Data?
    requires Quiet(n.a, o) && o.s.tx == n.a.tx && Told(o.effects) == {} && o.queued.None?
    requires RxCore(Pop(n.ba).(stored := stored), After(rest, o), n.ab)
    ensures Inv(Reached(n, rest, o, Pop(n.ba).(stored := stored)))
  {
    NothingSent(n, o);
    DispatchKeeps(n, m, rest, o, Pop(n.ba).(stored := stored));
  }

  lemma DonePassedStep(n: Net, m: Message, rest: seq<byte>, o: Outcome)
    requires Dispatched(n, m, rest, o) && m.Done? && n.a.rx.state == NoTransfer
    requires Quiet(n.a, o) && o.s.tx == n.a.tx && o.s.rx == n.a.rx && o.effects == [] && o.queued.None?
    ensures Inv(Reached(n, rest, o, Pop(n.ba)))
  {
    NothingSent(n, o);
    DoneFindsAll(n.ba, m, n.a, n.ab);
    IdleAgrees(n.ba, Pop(n.ba), n.a, After(rest, o), n.ab);
    DispatchKeeps(n, m, rest, o, Pop(n.ba));
  }

  lemma DoneTakenStep(n: Net, m: Message, rest: seq<byte>, o: Outcome)
    requires Dispatched(n, m, rest, o) && m.Done? && n.a.rx.state == Receiving
    requires Quiet(n.a, o) && o.s.tx == n.a.tx && Told(o.effects) == {} && o.s.rx == n.a.rx.(state := NoTransfer)
    requires o.queued.Some? ==> o.queued.value == Result(m.id, RESULT_OK)
    ensures Inv(Reached(n, rest, o, Pop(n.ba).(received := n.ba.received[m.id := Receipt(n.ba.kept, n.ba.stored)])))
  {
    NothingSent(n, o);
    DoneTaken(n.ba, m, n.a, After(rest, o), n.ab);
    DispatchKeeps(n, m, rest, o, Pop(n.ba).(received := n.ba.received[m.id := Receipt(n.ba.kept, n.ba.stored)]));
  }
}
