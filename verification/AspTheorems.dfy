/** What holds over every run of two honest stations. */
module AspTheorems {
  import opened Bytes
  import opened Wire
  import opened AspSpec
  import opened AspNet
  import opened AspSafety
  import opened AspHandling
  import Crc32

  // --- every dispatch is one of the handlers' lawful outcomes ---

  /** Side `a` is about to dispatch `m`. */
  ghost predicate Handling(n: Net, act: Action, m: Message) {
    && act.Handle? && Enabled(n, act) && Legal(m)
    && FrameGet(n.a.inb) == Ok(Kind(m), Payload(m), |Encode(m)|)
  }

  /** What handling `m` may make of the session and of the direction it came from. */
  predicate Lawful(s: Session, m: Message, o: Outcome, c: Channel, c': Channel, disk: seq<byte>, prefix: Option<seq<byte>>) {
    match m
    case Hello(_, caps, call) => o == Still(s.(peerCaps := caps, peerCall := call, link := Asp)) && c' == Pop(c)
    case Text(_) => Quiet(s, o) && o.queued.None? && o.s == s && Told(o.effects) == {} && c' == Pop(c)
    case Offer(_, _, _, _, _) => LawfulOffer(s, m, o, c, c', disk)
    case Accept(_, _, _) => LawfulAccept(s, m, o, prefix) && c' == Pop(c)
    case Start(_, _) => LawfulStart(s, m, o, c, c')
    case Data(_) => LawfulData(s, m, o, c, c')
    case Done(_) => LawfulDone(s, m, o, c, c')
    case Result(id, code) => LawfulEnd(s, o) && Told(o.effects) <= (if code == RESULT_OK then {id} else {}) && c' == Pop(c)
    case _ => LawfulEnd(s, o) && Told(o.effects) == {} && c' == Pop(c)
  }

  predicate LawfulEnd(s: Session, o: Outcome) {
    Quiet(s, o) && GivenUp(s, o.s) && o.queued.None?
  }

  predicate LawfulOffer(s: Session, m: Message, o: Outcome, c: Channel, c': Channel, disk: seq<byte>)
    requires m.Offer?
  {
    && Quiet(s, o) && o.s.tx == s.tx && Told(o.effects) == {}
    && (|| (o.effects == [] && o.s.rx == s.rx && (o.queued.Some? ==> o.queued.value.Reject?) && c' == Pop(c))
        || (Taken(m, o, disk) && c' == TakenUp(c, m.id, disk)))
  }

  predicate Taken(m: Message, o: Outcome, disk: seq<byte>)
    requires m.Offer?
  {
    && |disk| < WORD
    && o.s.rx.state == Receiving && o.s.rx.id == m.id && o.s.rx.size == m.size && o.s.rx.crc == m.crc
    && (o.queued.Some? ==>
        && o.queued.value == Accept(m.id, |disk|, Checksum(disk))
        && o.s.rx.have == |disk| && o.s.rx.running == Checksum(disk))
  }

  predicate LawfulAccept(s: Session, m: Message, o: Outcome, prefix: Option<seq<byte>>)
    requires m.Accept?
  {
    var from := StartOffset(s.tx.size, m.have, m.prefixCrc, prefix);
    && o.plain == [] && o.effects == [] && o.s == s.(pending := o.s.pending, tx := o.s.tx)
    && (o.queued.None? ==> o.s.tx == s.tx)
    && (o.queued.Some? ==>
        && s.tx.state == Offered && m.id == s.tx.id && o.queued.value == Start(m.id, from)
        && o.s.tx == s.tx.(state := Running, offset := from))
  }

  predicate LawfulStart(s: Session, m: Message, o: Outcome, c: Channel, c': Channel)
    requires m.Start?
  {
    && Quiet(s, o) && o.s.tx == s.tx && o.queued.None? && Told(o.effects) == {}
    && if s.rx.state == Receiving && m.id == s.rx.id then
         && o.s.rx == s.rx.(have := m.from, running := o.s.rx.running)
         && c' == Pop(c).(stored := c'.stored, kept := c'.stored)
         && (if m.from == 0 && s.rx.have > 0 then c'.stored == [] && o.s.rx.running == Crc32.INIT
             else c'.stored == c.stored && o.s.rx.running == s.rx.running)
       else o.s.rx == s.rx && o.effects == [] && c' == Pop(c)
  }

  predicate LawfulData(s: Session, m: Message, o: Outcome, c: Channel, c': Channel)
    requires m.Data?
  {
    && Quiet(s, o) && o.s.tx == s.tx && Told(o.effects) == {}
    && (|| (s.rx.state != Receiving && o.s.rx == s.rx && o.effects == [] && o.queued.None? && c' == Pop(c))
        || (&& s.rx.state == Receiving && o.s.rx == s.rx.(state := NoTransfer) && o.effects == []
            && (o.queued.Some? ==> o.queued.value.Result? && o.queued.value.code == WRITE_FAILED)
            && c' == Pop(c).(stored := c'.stored))
        || (&& s.rx.state == Receiving && o.queued.None?
            && o.s.rx == s.rx.(have := (s.rx.have + |m.bytes|) % WORD, running := Crc32.Crc(s.rx.running, m.bytes))
            && c' == Pop(c).(stored := c.stored + m.bytes)))
  }

  predicate LawfulDone(s: Session, m: Message, o: Outcome, c: Channel, c': Channel)
    requires m.Done?
  {
    && Quiet(s, o) && o.s.tx == s.tx && Told(o.effects) == {}
    && if s.rx.state == Receiving && m.id == s.rx.id then
         && o.s.rx == s.rx.(state := NoTransfer)
         && (o.queued.Some? ==> o.queued.value == Result(m.id, Verdict(s.rx)))
         && c' == if Verdict(s.rx) == RESULT_OK then Pop(c).(received := c.received[m.id := Receipt(c.kept, c.stored)]) else Pop(c)
       else o.s.rx == s.rx && o.effects == [] && o.queued.None? && c' == Pop(c)
  }

  lemma HelloIsLawful(c: Channel, s: Session, m: Message, ans: Answers, disk: seq<byte>)
    requires m.Hello? && Legal(m)
    ensures var o := Dispatch(s, Kind(m), Payload(m), ans);
      Lawful(s, m, o, c, Absorb(c, s, Kind(m), Payload(m), o, disk, ans.writeOk), disk, ans.prefix)
  {
    HelloOutcome(s, m, ans);
  }

  lemma TextIsLawful(c: Channel, s: Session, m: Message, ans: Answers, disk: seq<byte>)
    requires m.Text?
    ensures var o := Dispatch(s, Kind(m), Payload(m), ans);
      Lawful(s, m, o, c, Absorb(c, s, Kind(m), Payload(m), o, disk, ans.writeOk), disk, ans.prefix)
  {
  }

  lemma OfferIsLawful(c: Channel, s: Session, m: Message, ans: Answers, disk: seq<byte>)
    requires m.Offer? && Legal(m) && |disk| < WORD
    requires ans.decision.Some? ==> ans.decision.value == (|disk|, Checksum(disk))
    ensures var o := Dispatch(s, Kind(m), Payload(m), ans);
      Lawful(s, m, o, c, Absorb(c, s, Kind(m), Payload(m), o, disk, ans.writeOk), disk, ans.prefix)
  {
    OfferOutcome(s, m, ans);
    TakeOfferShape(s, m, ans);
    AbsorbedOffer(c, s, m, TakeOffer(s, m, ans), disk, ans.writeOk);
  }

  lemma AbsorbedOffer(c: Channel, s: Session, m: Message, o: Outcome, disk: seq<byte>, writeOk: bool)
    requires m.Offer? && (o.effects == [] || o.effects == [Asked(m.id, m.size, m.name)])
    ensures Absorb(c, s, Kind(m), Payload(m), o, disk, writeOk) == if o.effects == [] then Pop(c) else TakenUp(c, m.id, disk)
  {
  }

  lemma AcceptIsLawful(c: Channel, s: Session, m: Message, ans: Answers, disk: seq<byte>)
    requires m.Accept?
    ensures var o := Dispatch(s, Kind(m), Payload(m), ans);
      Lawful(s, m, o, c, Absorb(c, s, Kind(m), Payload(m), o, disk, ans.writeOk), disk, ans.prefix)
  {
    AcceptOutcome(s, m, ans);
  }

  lemma StartIsLawful(c: Channel, s: Session, m: Message, ans: Answers, disk: seq<byte>)
    requires m.Start?
    ensures var o := Dispatch(s, Kind(m), Payload(m), ans);
      Lawful(s, m, o, c, Absorb(c, s, Kind(m), Payload(m), o, disk, ans.writeOk), disk, ans.prefix)
  {
    StartOutcome(s, m, ans);
    SmallRoundTrip(m);
  }

  lemma DataIsLawful(c: Channel, s: Session, m: Message, ans: Answers, disk: seq<byte>)
    requires m.Data?
    ensures var o := Dispatch(s, Kind(m), Payload(m), ans);
      Lawful(s, m, o, c, Absorb(c, s, Kind(m), Payload(m), o, disk, ans.writeOk), disk, ans.prefix)
  {
    DataOutcome(s, m, ans);
  }

  lemma DoneIsLawful(c: Channel, s: Session, m: Message, ans: Answers, disk: seq<byte>)
    requires m.Done?
    ensures var o := Dispatch(s, Kind(m), Payload(m), ans);
      Lawful(s, m, o, c, Absorb(c, s, Kind(m), Payload(m), o, disk, ans.writeOk), disk, ans.prefix)
  {
    DoneOutcome(s, m, ans);
  }

  lemma EndIsLawful(c: Channel, s: Session, m: Message, ans: Answers, disk: seq<byte>)
    requires m.Result? || m.Reject? || m.Cancel?
    ensures var o := Dispatch(s, Kind(m), Payload(m), ans);
      Lawful(s, m, o, c, Absorb(c, s, Kind(m), Payload(m), o, disk, ans.writeOk), disk, ans.prefix)
  {
    if m.Result? {
      ResultOutcome(s, m, ans);
    } else {
      StopOutcome(s, m, ans);
    }
  }

  lemma DispatchIsLawful(c: Channel, s: Session, m: Message, ans: Answers, disk: seq<byte>)
    requires Legal(m) && |disk| < WORD
    requires ans.decision.Some? ==> ans.decision.value == (|disk|, Checksum(disk))
    ensures var o := Dispatch(s, Kind(m), Payload(m), ans);
      Lawful(s, m, o, c, Absorb(c, s, Kind(m), Payload(m), o, disk, ans.writeOk), disk, ans.prefix)
  {
    match m
    case Hello(_, _, _) => HelloIsLawful(c, s, m, ans, disk);
    case Text(_) => TextIsLawful(c, s, m, ans, disk);
    case Offer(_, _, _, _, _) => OfferIsLawful(c, s, m, ans, disk);
    case Accept(_, _, _) => AcceptIsLawful(c, s, m, ans, disk);
    case Start(_, _) => StartIsLawful(c, s, m, ans, disk);
    case Data(_) => DataIsLawful(c, s, m, ans, disk);
    case Done(_) => DoneIsLawful(c, s, m, ans, disk);
    case Result(_, _) => EndIsLawful(c, s, m, ans, disk);
    case Reject(_, _) => EndIsLawful(c, s, m, ans, disk);
    case Cancel(_, _) => EndIsLawful(c, s, m, ans, disk);
  }

  // --- a lawful outcome keeps the invariant ---

  lemma LawfulOfferKeeps(n: Net, m: Message, rest: seq<byte>, o: Outcome, ba': Channel, disk: seq<byte>)
    requires Dispatched(n, m, rest, o) && m.Offer? && LawfulOffer(n.a, m, o, n.ba, ba', disk)
    ensures Inv(Reached(n, rest, o, ba'))
  {
    if Taken(m, o, disk) && ba' == TakenUp(n.ba, m.id, disk) {
      OfferTakenStep(n, m, rest, o, disk);
    } else {
      OfferRefusedStep(n, m, rest, o);
    }
  }

  lemma LawfulDataKeeps(n: Net, m: Message, rest: seq<byte>, o: Outcome, ba': Channel)
    requires Dispatched(n, m, rest, o) && m.Data? && LawfulData(n.a, m, o, n.ba, ba')
    ensures Inv(Reached(n, rest, o, ba'))
  {
    if o.s.rx.state == Receiving {
      DataTakenCore(n, m, rest, o);
      DataTakenStep(n, m, rest, o, n.ba.stored + m.bytes);
    } else {
      OnlyReceiving(n);
      DataPassedStep(n, m, rest, o, ba');
    }
  }

  /** The receiving half of a session is either idle or receiving. */
  lemma OnlyReceiving(n: Net)
    requires Inv(n)
    ensures n.a.rx.state == NoTransfer || n.a.rx.state == Receiving
  {
  }

  lemma LawfulAcceptKeeps(n: Net, m: Message, rest: seq<byte>, o: Outcome, prefix: Option<seq<byte>>)
    requires Dispatched(n, m, rest, o) && m.Accept? && LawfulAccept(n.a, m, o, prefix)
    requires n.a.tx.id in n.ab.files && m.id == n.a.tx.id && prefix.Some? ==>
      m.have <= |n.ab.files[m.id]| && prefix.value == n.ab.files[m.id][..m.have]
    ensures Inv(Reached(n, rest, o, Pop(n.ba)))
  {
    AcceptStep(n, m, rest, o, prefix);
  }

  lemma LawfulKeeps(n: Net, m: Message, rest: seq<byte>, o: Outcome, ba': Channel, disk: seq<byte>, prefix: Option<seq<byte>>)
    requires Dispatched(n, m, rest, o) && Lawful(n.a, m, o, n.ba, ba', disk, prefix)
    requires m.Accept? && n.a.tx.id in n.ab.files && m.id == n.a.tx.id && prefix.Some? ==>
      m.have <= |n.ab.files[m.id]| && prefix.value == n.ab.files[m.id][..m.have]
    ensures Inv(Reached(n, rest, o, ba'))
  {
    match m
    case Offer(_, _, _, _, _) => LawfulOfferKeeps(n, m, rest, o, ba', disk);
    case Accept(_, _, _) => LawfulAcceptKeeps(n, m, rest, o, prefix);
    case Start(_, _) => LawfulStartKeeps(n, m, rest, o, ba');
    case Data(_) => LawfulDataKeeps(n, m, rest, o, ba');
    case Done(_) => LawfulDoneKeeps(n, m, rest, o, ba');
    case _ => GivingUpStep(n, m, rest, o);
  }

  lemma LawfulStartKeeps(n: Net, m: Message, rest: seq<byte>, o: Outcome, ba': Channel)
    requires Dispatched(n, m, rest, o) && m.Start? && LawfulStart(n.a, m, o, n.ba, ba')
    ensures Inv(Reached(n, rest, o, ba'))
  {
    StartIsForUs(n.ba, m, n.a, n.ab);
    if n.a.rx.state == Receiving {
      StartTakenStep(n, m, rest, o, ba');
    } else {
      StartPassedStep(n, m, rest, o);
    }
  }

  lemma LawfulDoneKeeps(n: Net, m: Message, rest: seq<byte>, o: Outcome, ba': Channel)
    requires Dispatched(n, m, rest, o) && m.Done? && LawfulDone(n.a, m, o, n.ba, ba')
    ensures Inv(Reached(n, rest, o, ba'))
  {
    DoneFindsAll(n.ba, m, n.a, n.ab);
    if n.a.rx.state == Receiving {
      DoneTakenStep(n, m, rest, o);
    } else {
      DonePassedStep(n, m, rest, o);
    }
  }

  // --- every step of every run ---

  /** The message a dispatching side is about to handle: the oldest one not handled yet. */
  lemma Oldest(n: Net, act: Action) returns (m: Message)
    requires Inv(n) && act.Handle? && Enabled(n, act)
    ensures Facing(n.ba, m) && Legal(m)
    ensures FrameGet(n.a.inb) == Ok(Kind(m), Payload(m), |Encode(m)|)
    ensures n.a.inb[|Encode(m)|..] + n.ba.wire + n.b.pending == EncodeAll(n.ba.log[n.ba.handled + 1..])
    ensures m.Hello? || n.ba.handled > 0
  {
    Front(n.ba, n.b, n.a);
    m := n.ba.log[n.ba.handled];
  }

  lemma DispatchingIs(n: Net, act: Action, m: Message) returns (o: Outcome, ba': Channel, prefix: Option<seq<byte>>)
    requires Handling(n, act, m)
    ensures Act(n, act) == Reached(n, n.a.inb[|Encode(m)|..], o, ba') && Conserves(n.a, o)
    ensures Lawful(n.a, m, o, n.ba, ba', act.disk, prefix)
    ensures prefix == ReadPrefix(n.ab, n.a, Payload(m), act.readOk)
  {
    var ans := HandleAnswers(n, act);
    o := Dispatch(n.a, Kind(m), Payload(m), ans);
    ba' := Absorb(n.ba, n.a, Kind(m), Payload(m), o, act.disk, act.writeOk);
    prefix := ans.prefix;
    DispatchIsLawful(n.ba, n.a, m, ans, act.disk);
    DispatchConserves(n.a, Kind(m), Payload(m), ans);
  }

  lemma PrefixIsTrue(c: Channel, s: Session, m: Message, readOk: bool)
    requires m.Accept?
    ensures var prefix := ReadPrefix(c, s, Payload(m), readOk);
      s.tx.id in c.files && m.id == s.tx.id && prefix.Some? ==>
        m.have <= |c.files[m.id]| && prefix.value == c.files[m.id][..m.have]
  {
    SmallRoundTrip(m);
  }

  lemma LawfulLink(n: Net, m: Message, o: Outcome, ba': Channel, disk: seq<byte>, prefix: Option<seq<byte>>)
    requires Lawful(n.a, m, o, n.ba, ba', disk, prefix)
    ensures o.s.link == (if m.Hello? then Asp else n.a.link)
  {
  }

  lemma HandleStep(n: Net, act: Action)
    requires Inv(n) && act.Handle? && Enabled(n, act)
    ensures Inv(Act(n, act))
  {
    var m := Oldest(n, act);
    var o, ba', prefix := DispatchingIs(n, act, m);
    if m.Accept? {
      PrefixIsTrue(n.ab, n.a, m, act.readOk);
    }
    LawfulLink(n, m, o, ba', act.disk, prefix);
    LawfulKeeps(n, m, n.a.inb[|Encode(m)|..], o, ba', act.disk, prefix);
  }

  /** What arrives is never malformed, and never outgrows the buffer. */
  lemma NeverBreaks(n: Net)
    requires Inv(n)
    ensures !Enabled(n, Break)
  {
    Front(n.ba, n.b, n.a);
    if FrameGet(n.a.inb).Short? {
      ShortIsBounded(n.a.inb);
    }
  }

  lemma ProposeKeeps(n: Net, act: Action)
    requires Inv(n) && Enabled(n, act) && act.Propose?
    ensures Inv(Act(n, act))
  {
    if CanSendFiles(n.a) {
      ProposeStep(n, act.name, act.contentType, act.file, act.take);
    } else {
      NothingHappens(n);
    }
  }

  lemma UserKeeps(n: Net, act: Action)
    requires Inv(n) && Enabled(n, act) && !act.Deliver? && !act.Handle?
    ensures Inv(Act(n, act))
  {
    match act
    case Say(text, take) => SayStep(n, text, take);
    case Propose(_, _, _, _) => ProposeKeeps(n, act);
    case Allow(take) => AllowStep(n, take);
    case Deny(reason, take) => DenyStep(n, reason, take);
    case Stop(inbound, reason, take) => StopStep(n, inbound, reason, take);
    case Push(take) => PushStep(n, take);
    case Move(credit, amount, take) => MoveStep(n, credit, amount, take);
    case Break => NeverBreaks(n);
  }

  lemma NothingHappens(n: Net)
    requires Inv(n)
    ensures Inv(Alone(n, n.ab, Still(n.a)))
  {
    FlushConserves(n.a, 0);
    NeutralStep(n, Still(n.a));
  }

  lemma ActKeeps(n: Net, act: Action)
    requires Inv(n) && Enabled(n, act)
    ensures Inv(Act(n, act))
  {
    if act.Deliver? {
      DeliverStep(n, act.count);
    } else if act.Handle? {
      HandleStep(n, act);
    } else {
      UserKeeps(n, act);
    }
  }

  lemma StepKeeps(n: Net, first: bool, act: Action)
    requires Inv(n) && Enabled(if first then n else Swap(n), act)
    ensures Inv(Step(n, first, act))
  {
    ActKeeps(if first then n else Swap(n), act);
  }

  /** A side just opened: a HELLO on its way and nothing else. */
  predicate JustOpened(o: Outcome) {
    && o.plain == [] && o.effects == [] && o.queued.Some? && o.queued.value.Hello? && Legal(o.queued.value)
    && o.sent + o.s.pending == Encode(o.queued.value)
    && o.s == Session(HelloSent, [], 0, [], o.s.pending, NO_TX, NO_RX, 1)
  }

  lemma OpenedChannel(call: seq<byte>, take: nat)
    ensures JustOpened(Open(call, take))
  {
  }

  lemma EncodeOne(m: Message)
    ensures EncodeAll([m]) == Encode(m)
  {
    FlatMapAppends(Encode, [], m);
    assert [] + [m] == [m] && [] + Encode(m) == Encode(m);
  }

  lemma OpenedChannelIs(o: Outcome)
    requires JustOpened(o)
    ensures Emit(EMPTY, o) == EMPTY.(log := [o.queued.value], trail := [Nothing, Nothing], wire := o.sent)
  {
    assert [] + [o.queued.value] == [o.queued.value] && [] + o.sent == o.sent && [Nothing] + [Nothing] == [Nothing, Nothing];
  }

  lemma OneFramed(c: Channel, s: Session, r: Session, m: Message)
    requires Legal(m) && c.log == [m] && c.handled == 0 && r.inb == [] && c.wire + s.pending == Encode(m)
    ensures Framed(c, s, r)
  {
    EncodeOne(m);
    assert c.log[0..] == [m];
    assert r.inb + c.wire == c.wire;
  }

  lemma OpenedHalf(o: Outcome, p: Outcome)
    requires JustOpened(o) && JustOpened(p)
    ensures Half(o.s, p.s, Emit(EMPTY, o), Emit(EMPTY, p))
  {
    OpenedChannelIs(o);
    OpenedChannelIs(p);
    OneFramed(Emit(EMPTY, o), o.s, p.s, o.queued.value);
  }

  lemma InitialHolds(callA: seq<byte>, callB: seq<byte>, takeA: nat, takeB: nat)
    ensures Inv(Initial(callA, callB, takeA, takeB))
  {
    OpenedChannel(callA, takeA);
    OpenedChannel(callB, takeB);
    OpenedHalf(Open(callA, takeA), Open(callB, takeB));
    OpenedHalf(Open(callB, takeB), Open(callA, takeA));
  }

  /** A run: which side moves, and how, one move after another. */
  ghost predicate Runs(n: Net, moves: seq<(bool, Action)>, n': Net)
    decreases |moves|
  {
    if moves == [] then n' == n
    else
      && Enabled(if moves[0].0 then n else Swap(n), moves[0].1)
      && Runs(Step(n, moves[0].0, moves[0].1), moves[1..], n')
  }

  /** Two stations of this program, freshly connected, could have got here. */
  ghost predicate Reachable(n: Net) {
    exists callA, callB, takeA, takeB, moves :: Runs(Initial(callA, callB, takeA, takeB), moves, n)
  }

  lemma {:induction false} RunKeeps(n: Net, moves: seq<(bool, Action)>, n': Net)
    requires Inv(n) && Runs(n, moves, n')
    ensures Inv(n')
    decreases |moves|
  {
    if moves != [] {
      StepKeeps(n, moves[0].0, moves[0].1);
      RunKeeps(Step(n, moves[0].0, moves[0].1), moves[1..], n');
    }
  }

  lemma ReachableHolds(n: Net)
    requires Reachable(n)
    ensures Inv(n)
  {
    var callA, callB, takeA, takeB, moves :| Runs(Initial(callA, callB, takeA, takeB), moves, n);
    InitialHolds(callA, callB, takeA, takeB);
    RunKeeps(Initial(callA, callB, takeA, takeB), moves, n);
  }

  // --- the theorems ---

  /**
   * End-to-end integrity, in both directions: a transfer reported OK has the offered length
   * and checksum, ends with the offered file's own bytes, and is the offered file whenever
   * what was kept of an earlier partial was a true prefix of it (nothing kept included).
   * The sender is told OK only of such transfers.
   */
  lemma EndToEndIntegrity(n: Net, id: u16)
    requires Reachable(n)
    ensures id in n.ab.told ==> id in n.ab.received
    ensures id in n.ab.received ==>
      && id in n.ab.files
      && var file, receipt := n.ab.files[id], n.ab.received[id];
      && Faithful(file, receipt)
      && (receipt.kept <= file ==> receipt.bytes == file)
  {
    ReachableHolds(n);
    if id in n.ab.received {
      TruePrefixIsEnough(n.ab.files[id], n.ab.received[id]);
    }
  }

  lemma TruePrefixIsEnough(file: seq<byte>, receipt: Receipt)
    requires Faithful(file, receipt)
    ensures receipt.kept <= file ==> receipt.bytes == file
  {
    if receipt.kept <= file {
      assert receipt.kept == file[..|receipt.kept|];
      assert file == file[..|receipt.kept|] + file[|receipt.kept|..];
    }
  }

  /** The same of the other direction: the two ends are interchangeable. */
  lemma SwapReachable(n: Net)
    requires Reachable(n)
    ensures Inv(Swap(n))
  {
    ReachableHolds(n);
  }

  /** A DONE that finds its transfer still being received is always answered OK. */
  lemma DoneIsAlwaysOk(n: Net, act: Action, id: u16)
    requires Reachable(n) && act.Handle? && Enabled(n, act)
    requires n.a.rx.state == Receiving && n.ba.handled < |n.ba.log| && n.ba.log[n.ba.handled] == Done(id)
    ensures n.a.rx.id == id
    ensures HandleOutcome(n, act).effects == [TransferDone(true, id, RESULT_OK)]
    ensures HandleOutcome(n, act).queued in {None, Some(Result(id, RESULT_OK))}
  {
    ReachableHolds(n);
    var m := Oldest(n, act);
    DoneFindsAll(n.ba, m, n.a, n.ab);
    DoneOutcome(n.a, m, HandleAnswers(n, act));
  }

  /**
   * DATA carries no id and no offset, yet what a receiving side takes in is always the next
   * bytes of the very file it is receiving.
   */
  lemma DataIsNeverMisattributed(n: Net, bytes: seq<byte>)
    requires Reachable(n)
    requires n.a.rx.state == Receiving && n.ba.handled < |n.ba.log| && n.ba.log[n.ba.handled] == Data(bytes)
    ensures n.a.rx.id in n.ba.files
    ensures var file, at := n.ba.files[n.a.rx.id], |n.ba.stored|;
      && n.a.rx.have == at && at + |bytes| <= |file| && bytes == file[at..at + |bytes|]
      && |n.ba.kept| <= at && n.ba.stored == n.ba.kept + file[|n.ba.kept|..at]
  {
    ReceivingSide(n);
    DataIsForUs(n.ba, Data(bytes), n.a, n.ab);
  }

  lemma ReceivingSide(n: Net)
    requires Reachable(n)
    ensures Trailed(n.ba) && RxCore(n.ba, n.a, n.ab)
  {
    ReachableHolds(n);
  }

  /** And it is appended whole, or the write fails and the reception is given up. */
  lemma DataIsStored(n: Net, act: Action, m: Message)
    requires Handling(n, act, m) && m.Data? && n.a.rx.state == Receiving
    ensures act.writeOk ==> Act(n, act).ba.stored == n.ba.stored + m.bytes
    ensures !act.writeOk ==> Act(n, act).a.rx.state == NoTransfer
  {
    DataOutcome(n.a, m, HandleAnswers(n, act));
  }

  lemma NoError(s: Session, m: Message, ans: Answers)
    requires Legal(m)
    ensures ProtocolError !in Dispatch(s, Kind(m), Payload(m), ans).effects
  {
    match m
    case Hello(_, _, _) => HelloRoundTrip(m);
    case Offer(_, _, _, _, _) =>
      OfferOutcome(s, m, ans);
      TakeOfferShape(s, m, ans);
    case Text(_) =>
    case Data(_) =>
    case _ => SmallRoundTrip(m);
  }

  /**
   * Honest peers never misread each other: neither side is ever in raw mode or ended, whatever
   * part of the stream is delivered next would not make it so, what has arrived is always an
   * unfinished message or the oldest one still in flight, and dispatching it never raises a
   * protocol error.
   */
  lemma NeverMisread(n: Net)
    requires Reachable(n)
    ensures n.a.link == HelloSent || n.a.link == Asp
    ensures !Enabled(n, Break) && forall count :: 0 <= count <= |n.ba.wire| ==> !NotAsp(n.a, n.ba.wire[..count])
    ensures n.a.link == HelloSent && n.a.inb != [] ==> n.a.inb[0] == HELLO
    ensures FrameGet(n.a.inb).Short? || (FrameGet(n.a.inb).Ok? && n.ba.handled < |n.ba.log|)
    ensures FrameGet(n.a.inb).Ok? ==>
      var m := n.ba.log[n.ba.handled];
      && FrameGet(n.a.inb) == Ok(Kind(m), Payload(m), |Encode(m)|)
      && Decode(Kind(m), Payload(m)) == Some(m)
      && forall ans :: ProtocolError !in Dispatch(n.a, Kind(m), Payload(m), ans).effects
  {
    ReachableHolds(n);
    NeverBreaks(n);
    forall count | 0 <= count <= |n.ba.wire| ensures !NotAsp(n.a, n.ba.wire[..count]) {
      NeverRaw(n, count);
    }
    Front(n.ba, n.b, n.a);
    if n.a.link == HelloSent && n.a.inb != [] {
      HelloComesFirst(n);
    }
    if FrameGet(n.a.inb).Ok? {
      var m := n.ba.log[n.ba.handled];
      PayloadRoundTrip(m);
      forall ans
        ensures ProtocolError !in Dispatch(n.a, Kind(m), Payload(m), ans).effects
      {
        NoError(n.a, m, ans);
      }
    }
  }

  lemma HelloComesFirst(n: Net)
    requires Inv(n) && n.a.link == HelloSent && n.a.inb != []
    ensures n.a.inb[0] == HELLO
  {
    var ms := n.ba.log[n.ba.handled..];
    assert ms[0].Hello?;
    assert EncodeAll(ms) == Encode(ms[0]) + EncodeAll(ms[1..]);
    assert EncodeAll(ms)[0] == HELLO;
    assert (n.a.inb + n.ba.wire + n.b.pending)[0] == n.a.inb[0];
  }

  /** The payload bytes of the DATA messages among `ms`, end to end. */
  function DataOf(ms: seq<Message>): seq<byte> {
    if ms == [] then []
    else DataOf(ms[..|ms| - 1]) + (if ms[|ms| - 1].Data? then ms[|ms| - 1].bytes else [])
  }

  lemma DataOfOneMore(ms: seq<Message>, i: nat, j: nat)
    requires i < j <= |ms|
    ensures DataOf(ms[i..j]) == DataOf(ms[i..j - 1]) + (if ms[j - 1].Data? then ms[j - 1].bytes else [])
  {
    assert ms[i..j][..|ms[i..j]| - 1] == ms[i..j - 1];
  }

  /** Within a transfer's data, one message back is still within it, or is its START. */
  lemma OneBack(c: Channel, id: u16, i: nat, j: nat)
    requires Trailed(c) && i < j <= |c.log| && c.log[i].Start? && c.log[i].id == id
    requires c.trail[j].Sending? && c.trail[j].id == id
    ensures Follows(c.trail[j - 1], c.log[j - 1], c.files) && c.trail[j] == Next(c.trail[j - 1], c.log[j - 1])
    ensures c.trail[i + 1] == Sending(id, c.log[i].from) && id in c.files && c.log[i].from <= |c.files[id]|
    ensures j > i + 1 ==> c.trail[j - 1].Sending? && c.trail[j - 1].id == id
  {
    assert Follows(c.trail[i], c.log[i], c.files);
    if j > i + 1 {
      assert Rank(c.trail[i + 1]) <= Rank(c.trail[j - 1]) <= Rank(c.trail[j]);
    }
  }

  lemma LongerSlice(file: seq<byte>, from: nat, off: nat, bytes: seq<byte>)
    requires from <= off && off + |bytes| <= |file| && bytes == file[off..off + |bytes|]
    ensures file[from..off] + bytes == file[from..off + |bytes|]
  {
  }

  lemma {:induction false} DataSince(c: Channel, id: u16, i: nat, j: nat)
    requires Trailed(c) && i < j <= |c.log| && c.log[i].Start? && c.log[i].id == id
    requires c.trail[j].Sending? && c.trail[j].id == id
    ensures id in c.files && c.log[i].from <= c.trail[j].off <= |c.files[id]|
    ensures DataOf(c.log[i..j]) == c.files[id][c.log[i].from..c.trail[j].off]
    decreases j
  {
    OneBack(c, id, i, j);
    if j > i + 1 {
      var m, was := c.log[j - 1], c.trail[j - 1];
      DataSince(c, id, i, j - 1);
      if m.Data? {
        LongerSlice(c.files[id], c.log[i].from, was.off, m.bytes);
      }
      DataOfOneMore(c.log, i, j);
    } else {
      DataOfOneMore(c.log, i, j);
      assert c.log[i..i] == [];
    }
  }

  /** Between a transfer's START and its DONE, the DATA sent is exactly the file from START's offset on. */
  lemma DataBetweenStartAndDone(n: Net, i: nat, j: nat)
    requires Reachable(n) && i < j < |n.ab.log|
    requires n.ab.log[i].Start? && n.ab.log[j].Done? && n.ab.log[i].id == n.ab.log[j].id
    ensures n.ab.log[i].id in n.ab.files && n.ab.log[i].from <= |n.ab.files[n.ab.log[i].id]|
    ensures DataOf(n.ab.log[i..j]) == n.ab.files[n.ab.log[i].id][n.ab.log[i].from..]
  {
    ReachableHolds(n);
    DataBetween(n.ab, i, j);
  }

  lemma DataBetween(c: Channel, i: nat, j: nat)
    requires Trailed(c) && i < j < |c.log| && c.log[i].Start? && c.log[j] == Done(c.log[i].id)
    ensures c.log[i].id in c.files && c.log[i].from <= |c.files[c.log[i].id]|
    ensures DataOf(c.log[i..j]) == c.files[c.log[i].id][c.log[i].from..]
  {
    assert Follows(c.trail[j], c.log[j], c.files);
    DataSince(c, c.log[i].id, i, j);
    var file := c.files[c.log[i].id];
    assert file[c.log[i].from..|file|] == file[c.log[i].from..];
  }

  /** A transfer under way never reads past its end. */
  lemma OffsetWithinSize(n: Net)
    requires Reachable(n) && n.a.tx.state != NoTransfer
    ensures n.a.tx.offset <= n.a.tx.size
    ensures n.a.tx.id in n.ab.files && n.a.tx.size == |n.ab.files[n.a.tx.id]|
  {
    ReachableHolds(n);
  }
}
