/** The session itself: fixed buffers and fields updated in place, proved against `AspSpec`. */
module Asp {
  import opened Bytes
  import opened Wire
  import opened AspSpec
  import opened AspRuns
  import opened Reassembly
  import Opening
  import Crc32
  import SafeNames
  import WireBuffers

  /** What a read finds: the file as it is then, and the most it gives. */
  datatype Disk = Disk(file: seq<byte>, most: nat)

  /** What the next read gives; nothing if it fails. */
  function Given(disks: seq<Disk>, offset: nat, want: nat): (got: seq<byte>)
    ensures |got| <= want
  {
    if disks == [] || offset > |disks[0].file| then [] else Clip(disks[0].file[offset..], Min(want, disks[0].most))
  }

  /** What was read, and then what is read later, if that succeeds. */
  function Join(got: seq<byte>, later: Option<seq<byte>>): Option<seq<byte>> {
    if later.None? then None else Some(got + later.value)
  }

  /** The first `have` bytes, from `off` on, read a block at a time; None if a read gives nothing. */
  function ReadFrom(disks: seq<Disk>, off: nat, have: nat): (r: Option<seq<byte>>)
    requires off <= have
    ensures r.Some? ==> |r.value| == have - off
    decreases have - off
  {
    if off == have then Some([])
    else
      var got := Given(disks, off, Min(have - off, CHUNK));
      if got == [] then None else Join(got, ReadFrom(disks[1..], off + |got|, have))
  }

  /**
   * The world outside a session: a transport that takes as much as it likes, and files and
   * operators that answer as they like. Everything asked of it is recorded; `decision`, `credit`
   * and `disks` are what it is going to answer.
   */
  class World {
    var accepted: seq<byte>
    var effects: seq<Effect>
    var decision: Option<(u32, u32)>
    var credit: nat
    var disks: seq<Disk>
    var tries: nat     // sends so far
    var refused: bool  // the last of them took nothing

    constructor ()
      ensures accepted == [] && effects == []
    {
      accepted, effects := [], [];
      decision, credit, disks, tries, refused := *, *, *, 0, *;
    }

    method Send(data: seq<byte>) returns (n: nat)
      modifies `accepted, `tries, `refused
      ensures n <= |data| && accepted == old(accepted) + data[..n]
      ensures tries == old(tries) + 1 && refused == (n == 0)
    {
      n :| 0 <= n <= |data|;
      accepted := accepted + data[..n];
      tries, refused := tries + 1, n == 0;
    }

    method Credit() returns (n: nat)
      ensures n == credit
    {
      n := credit;
    }

    method ReadFile(offset: nat, want: nat) returns (got: seq<byte>)
      modifies `disks
      ensures got == Given(old(disks), offset, want) && disks == if old(disks) == [] then [] else old(disks)[1..]
    {
      got := Given(disks, offset, want);
      disks := if disks == [] then [] else disks[1..];
    }

    method WriteFile(data: seq<byte>) returns (ok: bool)
      modifies `effects
      ensures effects == old(effects) + (if ok then [Wrote(data)] else [])
    {
      ok := *;
      if ok {
        effects := effects + [Wrote(data)];
      }
    }

    method OfferArrived(id: u16, size: u32, name: seq<byte>) returns (answer: Option<(u32, u32)>)
      modifies `effects, `decision
      ensures effects == old(effects) + [Asked(id, size, name)] && answer == old(decision)
    {
      answer, decision := decision, *;
      effects := effects + [Asked(id, size, name)];
    }

    method Report(e: Effect)
      modifies `effects
      ensures effects == old(effects) + [e]
    {
      effects := effects + [e];
    }
  }

  class AspSession {
    const io: World
    const inBuf: array<byte>
    const outBuf: array<byte>

    var state: LinkState
    var peerCall: seq<byte>
    var peerCaps: u32
    var inLen: nat
    var outLen: nat
    var outSent: nat
    var tx: Outbound  // the one outbound transfer
    var rx: Inbound   // the one inbound transfer
    var nextId: u16

    ghost predicate Valid()
      reads this
    {
      && inBuf != outBuf && inBuf.Length == outBuf.Length == MAX_MESSAGE
      && inLen <= MAX_MESSAGE && outSent <= outLen <= MAX_MESSAGE
    }

    /** The session as a value. */
    ghost function View(): Session
      requires Valid()
      reads this, inBuf, outBuf
    {
      Session(state, peerCall, peerCaps, inBuf[..inLen], outBuf[outSent..outLen], tx, rx, nextId)
    }

    /** The step just taken had outcome `o`, as far as the session and the world show. */
    twostate predicate Did(o: Outcome)
      requires old(Valid())
      reads this, inBuf, outBuf, io
    {
      && Valid() && View() == o.s
      && io.accepted == old(io.accepted) + o.sent
      && io.effects == old(io.effects) + o.effects
      && (View().pending != [] && View().pending != old(View()).pending ==> io.refused) && io.tries >= old(io.tries)
    }

    /** Start a session and send our HELLO: the source's `asp_open`. */
    constructor (io: World, myCall: seq<byte>)
      modifies io
      ensures this.io == io && fresh(inBuf) && fresh(outBuf) && Valid()
      ensures exists take :: var o := Open(myCall, take);
        View() == o.s && io.accepted == old(io.accepted) + o.sent && io.effects == old(io.effects)
      ensures View().pending != [] ==> io.refused
    {
      this.io := io;
      inBuf, outBuf := new byte[MAX_MESSAGE], new byte[MAX_MESSAGE];
      state, peerCall, peerCaps := HelloSent, [], 0;
      inLen, outLen, outSent := 0, 0, 0;
      tx, rx, nextId := NO_TX, NO_RX, 1;
      new;
      var hello := Hello(VERSION, CAP_FILES + CAP_RESUME, Clip(CString(myCall), MAX_CALL - 1));
      HelloRoundTrip(hello);
      PayloadRoundTrip(hello);
      ghost var s := View();
      ghost var accepted, effects := io.accepted, io.effects;
      var queued;
      ghost var take;
      queued, take := QueueMessage(hello);
      assert View() == Open(myCall, take).s;
    }

    // --- outbound ---

    /** Push whatever is pending; the world may take it in any number of pieces. */
    method FlushOut() returns (ghost take: nat)
      requires Valid()
      modifies `outSent, `outLen, io
      ensures Did(Flush(old(View()), take)) && (View().pending != [] ==> io.refused)
      ensures old(View()).pending != [] ==> io.tries > old(io.tries)
      ensures io.credit == old(io.credit) && io.disks == old(io.disks)
    {
      ghost var pending := View().pending;
      take := 0;
      while outSent < outLen
        modifies `outSent, io`accepted, io`tries, io`refused
        invariant io.tries >= old(io.tries) && (take > 0 ==> io.tries > old(io.tries))
        invariant take <= |pending| && outSent == old(outSent) + take && outSent <= outLen
        invariant io.accepted == old(io.accepted) + pending[..take] && io.effects == old(io.effects)
        decreases outLen - outSent
      {
        assert outBuf[outSent..outLen] == pending[take..];
        var n := io.Send(outBuf[outSent..outLen]);
        TakeMore(pending, take, n);
        outSent := outSent + n;
        take := take + n;
        if n == 0 {
          assert outBuf[outSent..outLen] == pending[take..];
          return;
        }
      }
      outLen, outSent := 0, 0;
    }

    method QueueMessage(m: Message) returns (queued: bool, ghost take: nat)
      requires Valid() && |Payload(m)| <= MAX_PAYLOAD
      modifies this, outBuf, io
      ensures Did(Queue(old(View()), m, take))
      ensures queued == Queue(old(View()), m, take).queued.Some?
    {
      take := 0;
      if outLen != outSent {
        queued := false;
        return;
      }
      FrameLength(Kind(m), Payload(m));
      var n := WireBuffers.FramePut(outBuf, Kind(m), Payload(m));
      outLen, outSent := n, 0;
      assert View() == old(View()).(pending := Encode(m));
      take := FlushOut();
      queued := true;
    }

    method Fail()
      requires Valid()
      modifies this, io
      ensures Did(AspSpec.Fail(old(View())))
    {
      state := Idle;
      io.Report(ProtocolError);
    }

    // --- lifecycle and chat ---

    method Close()
      requires Valid()
      modifies this
      ensures Valid() && View() == AspSpec.Close(old(View()))
    {
      state := Idle;
      tx, rx := tx.(state := NoTransfer), rx.(state := NoTransfer);
      inLen, outLen, outSent := 0, 0, 0;
    }

    method SayText(text: seq<byte>) returns (ok: bool, ghost take: nat)
      requires Valid()
      modifies this, outBuf, io
      ensures Did(SendText(old(View()), text, take))
      ensures ok == (SendText(old(View()), text, take).queued.Some?
                     || (old(state) == Raw && |text| <= MAX_PAYLOAD && old(View()).pending == []))
    {
      ok, take := false, 0;
      if |text| > MAX_PAYLOAD {
        return;
      }
      if state == Raw {
        if outLen != outSent {
          return;
        }
        forall i | 0 <= i < |text| {
          outBuf[i] := text[i];
        }
        outLen, outSent := |text|, 0;
        assert outBuf[..|text|] == text;
        assert View() == old(View()).(pending := text);
        take := FlushOut();
        ok := true;
        return;
      }
      if state != LinkState.Asp && state != HelloSent {
        return;
      }
      ok, take := QueueMessage(Text(text));
    }

    // --- file transfer, outbound ---

    method Offer(name: Option<seq<byte>>, contentType: Option<seq<byte>>, size: u32, crc: u32)
      returns (ok: bool, ghost take: nat)
      requires Valid()
      modifies this, outBuf, io
      ensures Did(OfferFile(old(View()), name, contentType, size, crc, take))
      ensures ok == OfferFile(old(View()), name, contentType, size, crc, take).queued.Some?
    {
      ok, take := false, 0;
      if state != LinkState.Asp || peerCaps % 2 != 1 || tx.state != NoTransfer {
        return;
      }
      var m := OfferMessage(nextId, name, contentType, size, crc);
      OfferFits(nextId, name, contentType, size, crc);
      ghost var s := View();
      nextId := (nextId + 1) % 0x1_0000;
      assert View() == s.(nextId := (s.nextId + 1) % 0x1_0000);
      ok, take := OfferMessageOut(m);
    }

    method OfferMessageOut(m: Message) returns (ok: bool, ghost take: nat)
      requires Valid() && m.Offer? && |Payload(m)| <= MAX_PAYLOAD
      modifies this, outBuf, io
      ensures Did(SendOffer(old(View()), m, take)) && ok == SendOffer(old(View()), m, take).queued.Some?
    {
      ok, take := QueueMessage(m);
      if ok {
        tx := Outbound(Offered, m.id, m.size, 0, m.crc);
      }
    }

    /** The file could not be read: cancelling is honest, sending short is not. */
    method GiveUpTx() returns (ghost take: nat)
      requires Valid() && outLen == outSent
      modifies this, outBuf, io
      ensures Did(GivenUp(old(View()), take))
    {
      var queued;
      queued, take := QueueMessage(Message.Cancel(tx.id, REFUSED));
      tx := tx.(state := NoTransfer);
      io.Report(TransferDone(false, tx.id, SHORT));
    }

    method FinishTx() returns (ghost take: nat)
      requires Valid() && outLen == outSent
      modifies this, outBuf, io
      ensures var o := Queue(old(View()), Message.Done(old(tx.id)), take);
        Did(o.(s := o.s.(tx := o.s.tx.(state := AwaitResult))))
    {
      var queued;
      queued, take := QueueMessage(Message.Done(tx.id));
      tx := tx.(state := AwaitResult);
    }

    method SendChunk(chunk: seq<byte>) returns (ghost take: nat)
      requires Valid() && outLen == outSent && |chunk| <= CHUNK && tx.offset + |chunk| <= tx.size
      modifies this, outBuf, io
      ensures Did(ChunkSent(old(View()), chunk, take))
    {
      var queued;
      queued, take := QueueMessage(Message.Data(chunk));
      tx := tx.(offset := tx.offset + |chunk|);
    }

    /** Move one chunk of the active outbound transfer, if there is room. */
    method PumpTx() returns (ghost take: nat)
      requires Valid()
      modifies this, outBuf, io
      ensures var credit := old(io.credit);
        Did(Pump(old(View()), credit, Given(old(io.disks), old(tx.offset), Wants(old(View()), credit)), take))
    {
      take := 0;
      if tx.state != Running || outLen != outSent {
        return;
      }
      var room := io.Credit();
      if room < CHUNK + 8 {
        return;
      }
      take := PumpChunk(room);
    }

    method PumpChunk(room: nat) returns (ghost take: nat)
      requires Valid() && tx.state == Running && outLen == outSent && room >= CHUNK + 8
      modifies this, outBuf, io
      ensures Did(Pump(old(View()), room, Given(old(io.disks), old(tx.offset), Wants(old(View()), room)), take))
    {
      assert View().pending == [];
      if tx.offset >= tx.size {
        take := FinishTx();
      } else {
        take := PumpData();
      }
    }

    /** What of the file a read gives, or the end of the transfer. */
    method PumpData() returns (ghost take: nat)
      requires Valid() && outLen == outSent && tx.offset < tx.size
      modifies this, outBuf, io
      ensures var s, got := old(View()), Given(old(io.disks), old(tx.offset), Min(old(tx.size - tx.offset), CHUNK));
        Did(if got == [] then GivenUp(s, take) else ChunkSent(s, got, take))
    {
      var chunk := io.ReadFile(tx.offset, Min(tx.size - tx.offset, CHUNK));
      if chunk == [] {
        take := GiveUpTx();
      } else {
        take := SendChunk(chunk);
      }
    }

    /** Queued output first, then transfer data. */
    method Service() returns (ghost flushed: nat, ghost take: nat)
      requires Valid()
      modifies this, outBuf, io
      ensures Valid() && var f, credit := Flush(old(View()), flushed), old(io.credit);
        var o := Pump(f.s, credit, Given(old(io.disks), f.s.tx.offset, Wants(f.s, credit)), take);
        && View() == o.s && io.accepted == old(io.accepted) + f.sent + o.sent && io.effects == old(io.effects) + o.effects
      ensures old(View()).pending != [] ==> io.tries > old(io.tries)
    {
      flushed := FlushOut();
      assert io.effects == old(io.effects) + [] == old(io.effects);
      take := PumpTx();
    }

    method Cancel(inbound: bool, reason: byte) returns (ok: bool, ghost take: nat)
      requires Valid()
      modifies this, outBuf, io
      ensures Did(CancelTransfer(old(View()), inbound, reason, take))
      ensures ok == CancelTransfer(old(View()), inbound, reason, take).queued.Some?
    {
      ok, take := false, 0;
      var id := if inbound then rx.id else tx.id;
      if (if inbound then rx.state else tx.state) == NoTransfer {
        return;
      }
      ok, take := QueueMessage(Message.Cancel(id, reason));
      if ok {
        if inbound {
          rx := rx.(state := NoTransfer);
        } else {
          tx := tx.(state := NoTransfer);
        }
      }
    }

    // --- file transfer, inbound ---

    method Answer(accept: bool, have: u32, prefixCrc: u32, reason: byte) returns (ok: bool, ghost take: nat)
      requires Valid()
      modifies this, outBuf, io
      ensures Did(if accept then Admit(old(View()), have, prefixCrc, take) else Refuse(old(View()), reason, take))
      ensures ok == (if accept then Admit(old(View()), have, prefixCrc, take) else Refuse(old(View()), reason, take)).queued.Some?
    {
      ok, take := false, 0;
      if rx.state != Receiving {
        return;
      }
      if !accept {
        rx := rx.(state := NoTransfer);
        ok, take := QueueMessage(Message.Reject(rx.id, reason));
        return;
      }
      ok, take := QueueMessage(Message.Accept(rx.id, have, prefixCrc));
      if ok {
        rx := rx.(have := have, running := prefixCrc);
      }
    }

    method RejectOffer(id: u16, reason: byte) returns (ghost take: nat)
      requires Valid()
      modifies this, outBuf, io
      ensures Did(Queue(old(View()), Message.Reject(id, reason), take))
    {
      var queued;
      queued, take := QueueMessage(Message.Reject(id, reason));
    }

    method BeginReception(id: u16, size: u32, crc: u32, wireName: seq<byte>, name: seq<byte>)
      returns (decision: Option<(u32, u32)>)
      requires Valid()
      modifies `rx, io
      ensures var s := old(View()).(rx := Inbound(Receiving, id, size, 0, crc, Crc32.INIT, name));
        Did(Still(s).(effects := [Asked(id, size, wireName)]))
      ensures decision == old(io.decision)
    {
      rx := Inbound(Receiving, id, size, 0, crc, Crc32.INIT, name);
      decision := io.OfferArrived(id, size, wireName);
      assert io.accepted + [] == io.accepted;
    }

    /** An answer given at once, if there is one. */
    method AnswerAtOnce(decision: Option<(u32, u32)>) returns (ghost take: nat)
      requires Valid()
      modifies this, outBuf, io
      ensures Did(AnswerNow(old(View()), decision, take)) && io.effects == old(io.effects)
    {
      ghost var s := View();
      take := 0;
      if decision.Some? {
        var queued;
        queued, take := Answer(true, decision.value.0, decision.value.1, REFUSED);
        AdmitIsQuiet(s, decision.value.0, decision.value.1, take);
      }
    }

    method TakeUp(offer: Message, name: seq<byte>) returns (ghost ans: Answers)
      requires Valid() && offer.Offer?
      modifies this, outBuf, io
      ensures var s := old(View()).(rx := Inbound(Receiving, offer.id, offer.size, 0, offer.crc, Crc32.INIT, name));
        Did(AnswerNow(s, ans.decision, ans.take).(effects := [Asked(offer.id, offer.size, offer.name)]))
        && ans.decision == old(io.decision)
    {
      var decision := BeginReception(offer.id, offer.size, offer.crc, offer.name, name);
      ghost var take := AnswerAtOnce(decision);
      ans := Answers(take, decision, None, false);
    }

    method OnOffer(p: seq<byte>) returns (ghost ans: Answers)
      requires Valid()
      modifies this, outBuf, io
      ensures Did(AspSpec.OnOffer(old(View()), p, ans)) && ans.decision == old(io.decision)
    {
      ans := Answers(0, io.decision, None, false);
      var parsed := OfferGet(p);
      if parsed.None? {
        Fail();
        return;
      }
      ans := OnWellFormedOffer(parsed.value);
    }

    method OnWellFormedOffer(offer: Message) returns (ghost ans: Answers)
      requires Valid() && offer.Offer?
      modifies this, outBuf, io
      ensures Did(TakeOffer(old(View()), offer, ans)) && ans.decision == old(io.decision)
    {
      ghost var take, decision := 0, io.decision;
      if rx.state != NoTransfer {
        take := RejectOffer(offer.id, REFUSED);
        ans := Answers(take, decision, None, false);
        return;
      }
      var name := SafeNames.SafeName(offer.name, MAX_NAME + 1);
      if name.None? {
        take := RejectOffer(offer.id, BAD_NAME);
        ans := Answers(take, decision, None, false);
        return;
      }
      ans := TakeUp(offer, name.value);
    }

    /** Read back the first `have` bytes of the file being sent, unless a read fails. */
    method ReadBack(have: u32) returns (ok: bool, crc: u32)
      modifies io`disks
      ensures var prefix := ReadFrom(old(io.disks), 0, have);
        ok == prefix.Some? && (ok ==> crc == Crc32.Crc(Crc32.INIT, prefix.value))
    {
      crc := Crc32.INIT;
      var off := 0;
      ghost var soFar: seq<byte>, whole := [], ReadFrom(io.disks, 0, have);
      ReadStarts(io.disks, have);
      while off < have
        invariant off == |soFar| && Reading(whole, have, soFar, io.disks, crc)
        decreases have - off
      {
        ReadOn(whole, have, soFar, io.disks, crc);
        var got := io.ReadFile(off, Min(have - off, CHUNK));
        if got == [] {
          return false, crc;
        }
        crc := Crc32.Compute(crc, got);
        soFar := soFar + got;
        off := off + |got|;
      }
      JoinTwice(soFar, [], Some([]));
      return true, crc;
    }

    /** Where to start, after checking that the receiver's bytes are this file's first ones. */
    method ChooseStart(a: Message) returns (from: u32)
      requires a.Accept?
      modifies io`disks
      ensures from == StartOffset(tx.size, a.have, a.prefixCrc, ReadFrom(old(io.disks), 0, a.have))
    {
      from := 0;
      if 0 < a.have <= tx.size {
        var ok, crc := ReadBack(a.have);
        if ok && crc == a.prefixCrc {
          from := a.have;
        }
      }
    }

    method StartTx(from: u32) returns (ghost take: nat)
      requires Valid()
      modifies this, outBuf, io
      ensures var o := Queue(old(View()), Message.Start(old(tx.id), from), take);
        Did(if o.queued.None? then o else o.(s := o.s.(tx := o.s.tx.(state := Running, offset := from))))
    {
      var queued;
      queued, take := QueueMessage(Message.Start(tx.id, from));
      if queued {
        tx := tx.(offset := from, state := Running);
      }
    }

    method OnAccept(p: seq<byte>) returns (ghost ans: Answers)
      requires Valid()
      modifies this, outBuf, io
      ensures Did(AspSpec.OnAccept(old(View()), p, ans))
      ensures AcceptGet(p).Some? ==> ans.prefix == ReadFrom(old(io.disks), 0, AcceptGet(p).value.have)
    {
      var parsed := AcceptGet(p);
      ans := Answers(0, None, if parsed.Some? then ReadFrom(io.disks, 0, parsed.value.have) else None, false);
      if parsed.None? {
        Fail();
        return;
      }
      if tx.state != Offered || parsed.value.id != tx.id {
        return;
      }
      var from := ChooseStart(parsed.value);
      ghost var take := StartTx(from);
      ans := ans.(take := take);
    }

    method OnStart(p: seq<byte>)
      requires Valid()
      modifies this, io
      ensures Did(AspSpec.OnStart(old(View()), p))
    {
      var parsed := StartGet(p);
      if parsed.None? {
        Fail();
        return;
      }
      if rx.state != Receiving || parsed.value.id != rx.id {
        return;
      }
      if parsed.value.from == 0 && rx.have > 0 {
        io.Report(Truncated);
        rx := rx.(running := Crc32.INIT);
      }
      rx := rx.(have := parsed.value.from);
    }

    method WriteFailed() returns (ghost take: nat)
      requires Valid()
      modifies this, outBuf, io
      ensures Did(WriteGivenUp(old(View()), take))
    {
      var queued;
      queued, take := QueueMessage(Message.Result(rx.id, WRITE_FAILED));
      rx := rx.(state := NoTransfer);
    }

    method Count(p: seq<byte>)
      requires Valid()
      modifies this
      ensures Did(Still(Counted(old(View()), p)))
    {
      var running := Crc32.Compute(rx.running, p);
      rx := rx.(have := (rx.have + |p|) % 0x1_0000_0000, running := running);
    }

    method OnData(p: seq<byte>) returns (ghost ans: Answers)
      requires Valid()
      modifies this, outBuf, io
      ensures Did(AspSpec.OnData(old(View()), p, ans))
    {
      ans := Answers(0, None, None, false);
      if rx.state != Receiving {
        return;
      }
      var ok := io.WriteFile(p);
      if ok {
        ans := Answers(0, None, None, true);
        Count(p);
      } else {
        ghost var take := WriteFailed();
        ans := Answers(take, None, None, false);
      }
    }

    method OnDone(p: seq<byte>) returns (ghost ans: Answers)
      requires Valid()
      modifies this, outBuf, io
      ensures Did(AspSpec.OnDone(old(View()), p, ans))
    {
      ans := Answers(0, None, None, false);
      var parsed := DoneGet(p);
      if parsed.None? {
        Fail();
        return;
      }
      var id := parsed.value.id;
      if rx.state != Receiving || id != rx.id {
        return;
      }
      var result := RESULT_OK;
      if rx.have != rx.size {
        result := SHORT;
      } else if rx.running != rx.crc {
        result := CRC_MISMATCH;
      }
      var queued;
      ghost var take;
      queued, take := QueueMessage(Message.Result(id, result));
      ans := Answers(take, None, None, false);
      rx := rx.(state := NoTransfer);
      io.Report(TransferDone(true, id, result));
    }

    method OnResult(p: seq<byte>)
      requires Valid()
      modifies this, io
      ensures Did(AspSpec.OnResult(old(View()), p))
    {
      var parsed := IdCodeGet(p);
      if parsed.None? {
        Fail();
        return;
      }
      if tx.state == NoTransfer || parsed.value.0 != tx.id {
        return;
      }
      tx := tx.(state := NoTransfer);
      io.Report(TransferDone(false, parsed.value.0, parsed.value.1));
    }

    method OnStop(p: seq<byte>)
      requires Valid()
      modifies this, io
      ensures Did(AspSpec.OnStop(old(View()), p))
    {
      var parsed := IdCodeGet(p);
      if parsed.None? {
        return;
      }
      var id := parsed.value.0;
      if tx.state != NoTransfer && id == tx.id {
        tx := tx.(state := NoTransfer);
        io.Report(TransferDone(false, id, SHORT));
      } else if rx.state != NoTransfer && id == rx.id {
        rx := rx.(state := NoTransfer);
        io.Report(TransferDone(true, id, SHORT));
      }
    }

    // --- inbound framing ---

    method Dispatch(kind: byte, p: seq<byte>) returns (ghost ans: Answers)
      requires Valid()
      modifies this, outBuf, io
      ensures Did(AspSpec.Dispatch(old(View()), kind, p, ans))
      ensures kind == OFFER ==> ans.decision == old(io.decision)
      ensures kind == ACCEPT && AcceptGet(p).Some? ==> ans.prefix == ReadFrom(old(io.disks), 0, AcceptGet(p).value.have)
    {
      ans := Answers(0, None, None, false);
      if kind == HELLO {
        var h := HelloGet(p);
        if h.Some? {
          peerCaps, peerCall, state := h.value.caps, h.value.call, LinkState.Asp;
        }
      } else if kind == BYE {
        state := Idle;
      } else if kind == TEXT {
        io.Report(TextArrived(p, false));
      } else if kind == TEXT_B {
        var t := TextBGet(p);
        if t.Some? {
          io.Report(TextArrived(t.value.2, false));
        } else {
          io.Report(TextArrived(p, true));
        }
      } else if kind == OFFER {
        ans := OnOffer(p);
      } else if kind == ACCEPT {
        ans := OnAccept(p);
      } else if kind == START {
        OnStart(p);
      } else if kind == DATA {
        ans := OnData(p);
      } else if kind == DONE {
        ans := OnDone(p);
      } else if kind == RESULT {
        OnResult(p);
      } else if kind == REJECT || kind == CANCEL {
        OnStop(p);
      }
    }

    /** Close the gap a message leaves at the front of the buffer. */
    method Drop(consumed: nat)
      requires Valid() && consumed <= inLen
      modifies `inLen, inBuf
      ensures Did(Still(old(View()).(inb := old(View()).inb[consumed..])))
    {
      ghost var inb := View().inb;
      forall i | 0 <= i < inLen - consumed {
        inBuf[i] := inBuf[consumed + i];
      }
      inLen := inLen - consumed;
      assert inBuf[..inLen] == inb[consumed..];
      assert io.accepted + [] == io.accepted && io.effects + [] == io.effects;
    }

    /** Take out the message at the front of the buffer, and hand it on. */
    method TakeOne(kind: byte, payload: seq<byte>, consumed: nat) returns (ghost ans: Answers)
      requires Valid() && FrameGet(View().inb) == Ok(kind, payload, consumed)
      modifies this, inBuf, outBuf, io
      ensures Did(TakeFront(old(View()), ans))
    {
      ans := Dispatch(kind, payload);
      Drop(consumed);
    }

    /** The events `path` account for all that the session and the world have been through. */
    ghost predicate Tracks(start: History, path: seq<Event>, h: History, accepted: seq<byte>, effects: seq<Effect>)
      requires Valid()
      reads this, inBuf, outBuf, io
    {
      && Leads(start, path, h) && View() == h.s
      && io.accepted == accepted + h.sent && io.effects == effects + h.effects
    }

    method BreakOff(ghost start: History, ghost path: seq<Event>, ghost h: History, ghost accepted: seq<byte>, ghost effects: seq<Effect>)
      returns (ghost path': seq<Event>, ghost h': History)
      requires Valid() && Tracks(start, path, h, accepted, effects) && Possible(h.s, Break)
      modifies this, io
      ensures Valid() && Tracks(start, path', h', accepted, effects) && state == Idle
    {
      Fail();
      path', h' := path + [Break], Extend(h, AspSpec.Fail(h.s));
      TrackOn(start, path, h, Break, AspSpec.Fail(h.s), accepted, effects);
    }

    method HandOn(kind: byte, payload: seq<byte>, consumed: nat,
      ghost start: History, ghost path: seq<Event>, ghost h: History, ghost accepted: seq<byte>, ghost effects: seq<Effect>)
      returns (ghost path': seq<Event>, ghost h': History)
      requires Valid() && state != Raw && Tracks(start, path, h, accepted, effects)
      requires FrameGet(View().inb) == Ok(kind, payload, consumed)
      modifies this, inBuf, outBuf, io
      ensures Valid() && Tracks(start, path', h', accepted, effects)
      ensures state != Raw && View().inb == old(View()).inb[consumed..]
      ensures old(state) in {HelloSent, LinkState.Asp} ==> state == Opening.LinkOne(old(state), kind, payload)
    {
      ghost var ans := TakeOne(kind, payload, consumed);
      ghost var o := TakeFront(h.s, ans);
      EndingOrNot(h.s, kind, payload, ans);
      path', h' := path + [Take(ans)], Extend(h, o);
      TrackOn(start, path, h, Take(ans), o, accepted, effects);
    }

    method Fill(bytes: seq<byte>, ghost start: History, ghost path: seq<Event>, ghost h: History,
      ghost accepted: seq<byte>, ghost effects: seq<Effect>)
      returns (ghost path': seq<Event>, ghost h': History)
      requires Valid() && Tracks(start, path, h, accepted, effects) && Possible(h.s, Arrive(bytes))
      modifies `inLen, inBuf
      ensures Valid() && Tracks(start, path', h', accepted, effects)
      ensures View().inb == old(View()).inb + bytes
    {
      Store(bytes);
      ghost var o := Happen(h.s, Arrive(bytes));
      path', h' := path + [Arrive(bytes)], Extend(h, o);
      TrackOn(start, path, h, Arrive(bytes), o, accepted, effects);
    }

    method ShowPlain(text: seq<byte>, ghost start: History, ghost path: seq<Event>, ghost h: History,
      ghost accepted: seq<byte>, ghost effects: seq<Effect>)
      returns (ghost path': seq<Event>, ghost h': History)
      requires Valid() && Tracks(start, path, h, accepted, effects) && Possible(h.s, Plain(text))
      modifies `state, io
      ensures Valid() && Tracks(start, path', h', accepted, effects) && state == Raw
      ensures path' == path + [Plain(text)] && View().inb == old(View()).inb
    {
      state := Raw;
      io.Report(TextArrived(text, true));
      ghost var o := Happen(h.s, Plain(text));
      path', h' := path + [Plain(text)], Extend(h, o);
      TrackOn(start, path, h, Plain(text), o, accepted, effects);
    }

    /** Take out every whole message in the buffer; stop where the session ends. */
    method Drain(ghost start: History, ghost path0: seq<Event>, ghost h0: History, ghost accepted: seq<byte>, ghost effects: seq<Effect>)
      returns (stop: bool, ghost path: seq<Event>, ghost h: History, ghost seen: seq<(byte, seq<byte>)>)
      requires Valid() && state != Raw && Tracks(start, path0, h0, accepted, effects)
      modifies this, inBuf, outBuf, io
      ensures Valid() && Tracks(start, path, h, accepted, effects)
      ensures !stop ==> state != Raw
      ensures old(state) in {HelloSent, LinkState.Asp} ==> Drained(Opening.FromParse(old(state), ParseAll(old(View()).inb)), seen, stop)
    {
      path, h, seen, stop := path0, h0, [], false;
      ghost var whole := ParseAll(View().inb);
      while true
        invariant Valid() && state != Raw && Tracks(start, path, h, accepted, effects)
        invariant old(state) in {HelloSent, LinkState.Asp} ==> Draining(whole, old(state), seen)
        decreases inLen
      {
        ghost var inb := View().inb;
        var f := WireBuffers.FrameRead(inBuf, inLen);
        ParseOn(whole, seen, inb);
        if f.Short? {
          return;
        }
        if f.Malformed? {
          stop := true;
          path, h := BreakOff(start, path, h, accepted, effects);
          return;
        }
        DrainOn(whole, old(state), seen, f.kind, f.payload);
        path, h := HandOn(f.kind, f.payload, f.consumed, start, path, h, accepted, effects);
        seen := seen + [(f.kind, f.payload)];
        if state == Idle {
          stop := true;
          return;
        }
      }
    }

    /** Between two messages: what has been seen, and what the buffer still holds, make up the reference parse. */
    ghost predicate Draining(whole: Parsed, link: LinkState, seen: seq<(byte, seq<byte>)>)
      requires Valid()
      reads this, inBuf, outBuf
    {
      state in {HelloSent, LinkState.Asp} && state == Opening.LinkAfter(link, seen) && StillToParse(whole, seen, View().inb)
    }

    /** How emptying the buffer ended: as the reference parse says. */
    ghost predicate Drained(p: Opening.Heard, seen: seq<(byte, seq<byte>)>, stop: bool)
      requires Valid()
      reads this, inBuf, outBuf
    {
      seen == p.seen && stop == (p.verdict != More) && state == p.link && (!stop ==> View().inb == p.left)
    }

    method RecvPiece(bytes: seq<byte>, ghost start: History, ghost path0: seq<Event>, ghost h0: History,
      ghost accepted: seq<byte>, ghost effects: seq<Effect>)
      returns (stop: bool, ghost path: seq<Event>, ghost h: History, ghost seen: seq<(byte, seq<byte>)>)
      requires Valid() && state != Raw && Tracks(start, path0, h0, accepted, effects) && Possible(h0.s, Arrive(bytes))
      modifies this, inBuf, outBuf, io
      ensures Valid() && Tracks(start, path, h, accepted, effects)
      ensures !stop ==> state != Raw
      ensures old(state) in {HelloSent, LinkState.Asp} ==>
        Drained(Opening.FromParse(old(state), ParseAll(old(View()).inb + bytes)), seen, stop)
    {
      path, h := Fill(bytes, start, path0, h0, accepted, effects);
      stop, path, h, seen := Drain(start, path, h, accepted, effects);
    }

    /** Within a call: what has been seen, and what is still to come, make up what the call shows. */
    ghost predicate Feeding(whole: Opening.Heard, seen: seq<(byte, seq<byte>)>, rest: seq<byte>)
      requires Valid()
      reads this, inBuf, outBuf
    {
      state != Idle && Opening.StillToHear(whole, seen, state, View().inb, rest)
    }

    /** The raw text a call showed, if any, was its last event. */
    static ghost predicate Shown(path: seq<Event>, raw: seq<byte>) {
      raw != [] ==> path != [] && path[|path| - 1] == Plain(raw)
    }

    /** How far a call has got: done, or with `rest` still to feed. */
    ghost predicate SoFar(whole: Opening.Heard, open: bool, seen: seq<(byte, seq<byte>)>, raw: seq<byte>, rest: seq<byte>, done: bool)
      requires Valid()
      reads this, inBuf, outBuf
    {
      && (open ==> if done then Fed(whole, seen, raw) else Feeding(whole, seen, rest))
      && (!done ==> raw == [])
    }

    method FeedRaw(rest: seq<byte>,
      ghost whole: Opening.Heard, ghost seen0: seq<(byte, seq<byte>)>, ghost open: bool,
      ghost start: History, ghost path0: seq<Event>, ghost h0: History, ghost accepted: seq<byte>, ghost effects: seq<Effect>)
      returns (ghost path: seq<Event>, ghost h: History)
      requires Valid() && rest != [] && Tracks(start, path0, h0, accepted, effects)
      requires SoFar(whole, open, seen0, [], rest, false) && Opening.TurnsRaw(state, View().inb, rest)
      modifies `state, io
      ensures Valid() && Tracks(start, path, h, accepted, effects)
      ensures SoFar(whole, open, seen0, rest, [], true) && Shown(path, rest)
    {
      if open {
        Opening.HearRaw(whole, seen0, state, View().inb, rest);
      }
      path, h := ShowPlain(rest, start, path0, h0, accepted, effects);
    }

    method FeedFull(rest: seq<byte>,
      ghost whole: Opening.Heard, ghost seen0: seq<(byte, seq<byte>)>, ghost open: bool,
      ghost start: History, ghost path0: seq<Event>, ghost h0: History, ghost accepted: seq<byte>, ghost effects: seq<Effect>)
      returns (ghost path: seq<Event>, ghost h: History)
      requires Valid() && rest != [] && Tracks(start, path0, h0, accepted, effects)
      requires SoFar(whole, open, seen0, [], rest, false) && !Opening.TurnsRaw(state, View().inb, rest) && inLen == MAX_MESSAGE
      modifies this, io
      ensures Valid() && Tracks(start, path, h, accepted, effects)
      ensures SoFar(whole, open, seen0, [], [], true)
    {
      if open {
        Opening.HearFull(whole, seen0, state, View().inb, rest);
      }
      path, h := BreakOff(start, path0, h0, accepted, effects);
    }

    method FeedPiece(rest: seq<byte>, take: nat,
      ghost whole: Opening.Heard, ghost seen0: seq<(byte, seq<byte>)>, ghost open: bool,
      ghost start: History, ghost path0: seq<Event>, ghost h0: History, ghost accepted: seq<byte>, ghost effects: seq<Effect>)
      returns (stop: bool, ghost path: seq<Event>, ghost h: History, ghost seen: seq<(byte, seq<byte>)>)
      requires Valid() && rest != [] && Tracks(start, path0, h0, accepted, effects)
      requires SoFar(whole, open, seen0, [], rest, false) && !Opening.TurnsRaw(state, View().inb, rest)
      requires 0 < take == Min(|rest|, MAX_MESSAGE - inLen)
      modifies this, inBuf, outBuf, io
      ensures Valid() && Tracks(start, path, h, accepted, effects)
      ensures SoFar(whole, open, seen, [], rest[take..], stop)
    {
      if open {
        Opening.HearPiece(whole, seen0, state, View().inb, rest, take);
      }
      ghost var more, p := [], Opening.FromParse(state, ParseAll(View().inb + rest[..take]));
      stop, path, h, more := RecvPiece(rest[..take], start, path0, h0, accepted, effects);
      seen := seen0 + more;
      if open {
        PieceFed(whole, seen0, p, rest[take..], more, stop);
      }
    }

    /** What a piece showed, where it has left the session. */
    lemma PieceFed(whole: Opening.Heard, seen0: seq<(byte, seq<byte>)>, p: Opening.Heard, rest: seq<byte>,
      more: seq<(byte, seq<byte>)>, stop: bool)
      requires Valid() && Drained(p, more, stop) && Opening.Advances(whole, seen0, p, rest)
      ensures if stop then Fed(whole, seen0 + more, []) else Feeding(whole, seen0 + more, rest)
    {
    }

    /** As much of the rest as the buffer takes, or all of it if it is raw text. */
    method FeedOnce(rest: seq<byte>,
      ghost whole: Opening.Heard, ghost seen0: seq<(byte, seq<byte>)>, ghost open: bool,
      ghost start: History, ghost path0: seq<Event>, ghost h0: History, ghost accepted: seq<byte>, ghost effects: seq<Effect>)
      returns (stop: bool, left: seq<byte>, ghost path: seq<Event>, ghost h: History,
        ghost seen: seq<(byte, seq<byte>)>, ghost raw: seq<byte>)
      requires Valid() && rest != [] && Tracks(start, path0, h0, accepted, effects)
      requires SoFar(whole, open, seen0, [], rest, false)
      modifies this, inBuf, outBuf, io
      ensures Valid() && Tracks(start, path, h, accepted, effects)
      ensures SoFar(whole, open, seen, raw, left, stop) && Shown(path, raw) && |left| < |rest|
    {
      var take := Min(|rest|, MAX_MESSAGE - inLen);
      seen, raw, left, stop := seen0, [], [], true;
      if state == Raw || (state == HelloSent && inLen == 0 && rest[0] != HELLO) {
        path, h := FeedRaw(rest, whole, seen0, open, start, path0, h0, accepted, effects);
        raw := rest;
      } else if take == 0 {
        path, h := FeedFull(rest, whole, seen0, open, start, path0, h0, accepted, effects);
      } else {
        left := rest[take..];
        stop, path, h, seen := FeedPiece(rest, take, whole, seen0, open, start, path0, h0, accepted, effects);
      }
    }

    /** Feed bytes received from the peer. */
    method Recv(data: seq<byte>)
      returns (ghost path: seq<Event>, ghost h: History, ghost seen: seq<(byte, seq<byte>)>, ghost raw: seq<byte>)
      requires Valid()
      modifies this, inBuf, outBuf, io
      ensures Valid() && Tracks(History(old(View()), [], [], []), path, h, old(io.accepted), old(io.effects))
      ensures old(state) != Idle ==> Fed(Opening.Hear(old(state), old(View()).inb, data), seen, raw)
      ensures Shown(path, raw)
    {
      ghost var start, open := History(View(), [], [], []), state != Idle;
      ghost var accepted, effects := io.accepted, io.effects;
      ghost var whole := Opening.Hear(state, View().inb, data);
      path, h, seen := TrackStart(start, accepted, effects, whole);
      raw := [];
      var rest, stop := data, false;
      while rest != [] && !stop
        invariant Valid() && Tracks(start, path, h, accepted, effects)
        invariant SoFar(whole, open, seen, raw, rest, stop) && Shown(path, raw)
        decreases |rest|
      {
        stop, rest, path, h, seen, raw := FeedOnce(rest, whole, seen, open, start, path, h, accepted, effects);
      }
      if open && !stop {
        Opening.NothingMore(whole, seen, state, View().inb);
      }
    }

    /** How a call ended: as `p` says. */
    ghost predicate Fed(p: Opening.Heard, seen: seq<(byte, seq<byte>)>, raw: seq<byte>)
      requires Valid()
      reads this, inBuf, outBuf
    {
      && seen == p.seen && raw == p.raw
      && (if p.verdict == More then state == p.link && View().inb == p.left else state == Idle)
    }

    method Store(bytes: seq<byte>)
      requires Valid() && inLen + |bytes| <= MAX_MESSAGE
      modifies `inLen, inBuf
      ensures Did(Still(old(View()).(inb := old(View()).inb + bytes)))
    {
      ghost var inb := View().inb;
      forall i | 0 <= i < |bytes| {
        inBuf[inLen + i] := bytes[i];
      }
      assert inBuf[inLen..inLen + |bytes|] == bytes;
      inLen := inLen + |bytes|;
      assert inBuf[..inLen] == inb + bytes;
      assert io.accepted + [] == io.accepted && io.effects + [] == io.effects;
    }
  }

  /** A run that has not begun: no events, nothing recorded, everything still to receive. */
  lemma TrackStart(start: History, accepted: seq<byte>, effects: seq<Effect>, whole: Opening.Heard)
    returns (path: seq<Event>, h: History, seen: seq<(byte, seq<byte>)>)
    requires start.sent == [] && start.effects == []
    ensures Leads(start, path, h) && h == start
    ensures accepted + h.sent == accepted && effects + h.effects == effects
    ensures Opening.After(seen, [], whole) == whole && seen == []
  {
    path, h, seen := [], start, [];
    Opening.AfterTwice([], [], [], [], whole);
  }

  /** One more event of a run, and what the world has recorded by then. */
  lemma TrackOn(start: History, path: seq<Event>, h: History, e: Event, o: Outcome, accepted: seq<byte>, effects: seq<Effect>)
    requires Leads(start, path, h) && Possible(h.s, e) && o == Happen(h.s, e)
    ensures Leads(start, path + [e], Extend(h, o))
    ensures accepted + h.sent + o.sent == accepted + Extend(h, o).sent
    ensures effects + h.effects + o.effects == effects + Extend(h, o).effects
  {
    LeadsOn(start, path, h, e);
  }

  lemma EndingOrNot(s: Session, kind: byte, payload: seq<byte>, ans: Answers)
    requires FrameGet(s.inb).Ok? && FrameGet(s.inb).kind == kind && FrameGet(s.inb).payload == payload
    ensures s.link in {HelloSent, LinkState.Asp} ==> TakeFront(s, ans).s.link == Opening.LinkOne(s.link, kind, payload)
    ensures s.link != Raw ==> TakeFront(s, ans).s.link != Raw
  {
    DispatchLink(s, kind, payload, ans);
  }

  /** A message more to drain: the link goes where the reference says. */
  lemma DrainOn(whole: Parsed, link: LinkState, seen: seq<(byte, seq<byte>)>, kind: byte, payload: seq<byte>)
    ensures !EndsSession(kind, payload) ==>
      Opening.LinkAfter(link, seen + [(kind, payload)]) == Opening.LinkOne(Opening.LinkAfter(link, seen), kind, payload)
  {
    if !EndsSession(kind, payload) {
      Opening.LinkOneMore(link, seen, kind, payload);
    }
  }

  function AnswerNow(s: Session, decision: Option<(u32, u32)>, take: nat): Outcome {
    if decision.Some? then Admit(s, decision.value.0, decision.value.1, take) else Still(s)
  }

  function GivenUp(s: Session, take: nat): Outcome {
    var o := Queue(s, Message.Cancel(s.tx.id, REFUSED), take);
    o.(s := o.s.(tx := s.tx.(state := NoTransfer)), effects := [TransferDone(false, s.tx.id, SHORT)])
  }

  function ChunkSent(s: Session, chunk: seq<byte>, take: nat): Outcome
    requires s.tx.offset + |chunk| <= s.tx.size
  {
    var o := Queue(s, Message.Data(chunk), take);
    o.(s := o.s.(tx := s.tx.(offset := s.tx.offset + |chunk|)))
  }

  function WriteGivenUp(s: Session, take: nat): Outcome {
    var o := Queue(s, Message.Result(s.rx.id, WRITE_FAILED), take);
    o.(s := o.s.(rx := s.rx.(state := NoTransfer)))
  }

  function Counted(s: Session, p: seq<byte>): Session {
    s.(rx := s.rx.(have := (s.rx.have + |p|) % 0x1_0000_0000, running := Crc32.Crc(s.rx.running, p)))
  }

  lemma TakeMore(pending: seq<byte>, take: nat, n: nat)
    requires take + n <= |pending|
    ensures pending[..take] + pending[take..][..n] == pending[..take + n]
  {
  }

  lemma JoinTwice(a: seq<byte>, b: seq<byte>, later: Option<seq<byte>>)
    ensures Join(a, Join(b, later)) == Join(a + b, later)
    ensures Join([], later) == later && Join(a, Some([])) == Some(a)
  {
    assert a + [] == a;
    if later.Some? {
      assert a + (b + later.value) == a + b + later.value && [] + later.value == later.value;
    }
  }

  /** `soFar` has been read, with its CRC, and `now` is still to be read from. */
  ghost predicate Reading(whole: Option<seq<byte>>, have: nat, soFar: seq<byte>, now: seq<Disk>, crc: u32) {
    |soFar| <= have && crc == Crc32.Crc(Crc32.INIT, soFar) && whole == Join(soFar, ReadFrom(now, |soFar|, have))
  }

  lemma ReadStarts(disks: seq<Disk>, have: nat)
    ensures Reading(ReadFrom(disks, 0, have), have, [], disks, Crc32.INIT)
  {
    Crc32.CrcOfNothing();
    JoinTwice([], [], ReadFrom(disks, 0, have));
  }

  lemma ReadOn(whole: Option<seq<byte>>, have: nat, soFar: seq<byte>, now: seq<Disk>, crc: u32)
    requires Reading(whole, have, soFar, now, crc) && |soFar| < have
    ensures var got := Given(now, |soFar|, Min(have - |soFar|, CHUNK));
      if got == [] then whole.None?
      else now != [] && Reading(whole, have, soFar + got, now[1..], Crc32.Crc(crc, got))
  {
    var got := Given(now, |soFar|, Min(have - |soFar|, CHUNK));
    if got != [] {
      Crc32.CrcContinues(Crc32.INIT, soFar, got);
      JoinTwice(soFar, got, ReadFrom(now[1..], |soFar| + |got|, have));
    }
  }

  lemma AdmitIsQuiet(s: Session, have: u32, crc: u32, take: nat)
    ensures Admit(s, have, crc, take).effects == []
  {
  }

  lemma OfferFits(id: u16, name: Option<seq<byte>>, contentType: Option<seq<byte>>, size: u32, crc: u32)
    ensures |Payload(OfferMessage(id, name, contentType, size, crc))| <= MAX_PAYLOAD
  {
  }
}
