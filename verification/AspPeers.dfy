/** What two stations know of each other once their HELLOs are through. */
module AspPeers {
  import opened Bytes
  import opened Wire
  import opened AspSpec
  import opened AspNet
  import opened AspHandling
  import opened AspTheorems
  import Crc32
  import SafeNames

  function Greeting(call: seq<byte>): Message {
    Hello(VERSION, CAP_FILES + CAP_RESUME, Clip(CString(call), MAX_CALL - 1))
  }

  /** A step that learns nothing about the peer and says nothing more about itself. */
  predicate Discreet(s: Session, o: Outcome) {
    o.s.peerCaps == s.peerCaps && o.s.peerCall == s.peerCall && (o.queued.Some? ==> !o.queued.value.Hello?)
  }

  lemma AdmitIsDiscreet(s: Session, have: u32, crc: u32, take: nat)
    ensures Discreet(s, Admit(s, have, crc, take))
  {
  }

  lemma TakeOfferIsDiscreet(s: Session, offer: Message, ans: Answers)
    requires offer.Offer?
    ensures Discreet(s, TakeOffer(s, offer, ans))
  {
    match SafeNames.SafeName(offer.name, MAX_NAME + 1)
    case None =>
    case Some(name) =>
      if ans.decision.Some? {
        var s' := s.(rx := Inbound(Receiving, offer.id, offer.size, 0, offer.crc, Crc32.INIT, name));
        AdmitIsDiscreet(s', ans.decision.value.0, ans.decision.value.1, ans.take);
      }
  }

  lemma OfferIsDiscreet(s: Session, p: seq<byte>, ans: Answers)
    ensures Discreet(s, OnOffer(s, p, ans))
  {
    if OfferGet(p).Some? {
      TakeOfferIsDiscreet(s, OfferGet(p).value, ans);
    }
  }

  lemma AcceptIsDiscreet(s: Session, p: seq<byte>, ans: Answers)
    ensures Discreet(s, OnAccept(s, p, ans))
  {
  }

  lemma DataIsDiscreet(s: Session, p: seq<byte>, ans: Answers)
    ensures Discreet(s, OnData(s, p, ans)) && Discreet(s, OnDone(s, p, ans))
  {
  }

  lemma OthersAreDiscreet(s: Session, p: seq<byte>)
    ensures Discreet(s, OnStart(s, p)) && Discreet(s, OnResult(s, p)) && Discreet(s, OnStop(s, p)) && Discreet(s, OnTextB(s, p))
  {
  }

  lemma DispatchIsDiscreet(s: Session, kind: byte, p: seq<byte>, ans: Answers)
    requires kind != HELLO
    ensures Discreet(s, Dispatch(s, kind, p, ans))
  {
    if kind == OFFER {
      OfferIsDiscreet(s, p, ans);
    } else if kind == ACCEPT {
      AcceptIsDiscreet(s, p, ans);
    } else if kind == DATA || kind == DONE {
      DataIsDiscreet(s, p, ans);
    } else {
      OthersAreDiscreet(s, p);
    }
  }

  lemma UserIsDiscreet(n: Net, act: Action)
    requires Enabled(n, act) && !act.Deliver? && !act.Handle?
    ensures Discreet(n.a, UserOutcome(n, act))
  {
  }

  /** One greeting, first, and known to the other side as soon as it is dispatched. */
  ghost predicate Introduced(c: Channel, greeting: Message, r: Session) {
    && |c.trail| > 0 && c.handled <= |c.log| && 0 < |c.log| && c.log[0] == greeting && greeting.Hello?
    && (forall k :: 0 < k < |c.log| ==> !c.log[k].Hello?)
    && (c.handled > 0 ==> r.peerCaps == greeting.caps && r.peerCall == greeting.call)
  }

  lemma EmitKeeps(c: Channel, greeting: Message, r: Session, s: Session, o: Outcome)
    requires Introduced(c, greeting, r) && Discreet(s, o)
    ensures Introduced(Emit(c, o), greeting, r)
  {
  }

  ghost predicate Acquainted(n: Net, ofA: Message, ofB: Message) {
    Introduced(n.ab, ofA, n.b) && Introduced(n.ba, ofB, n.a)
  }

  lemma UserKeepsPeers(n: Net, act: Action, ofA: Message, ofB: Message)
    requires Enabled(n, act) && !act.Deliver? && !act.Handle? && Acquainted(n, ofA, ofB)
    ensures Acquainted(Act(n, act), ofA, ofB)
  {
    var o := UserOutcome(n, act);
    var ab := if act.Propose? && CanSendFiles(n.a) then Offering(n, act.file) else n.ab;
    UserIsDiscreet(n, act);
    EmitKeeps(ab, ofA, n.b, n.a, o);
  }

  lemma HelloIsHeard(s: Session, m: Message, ans: Answers)
    requires m.Hello? && Legal(m)
    ensures var o := Dispatch(s, HELLO, Payload(m), ans);
      o.s.peerCaps == m.caps && o.s.peerCall == m.call && o.queued.None?
  {
    HelloRoundTrip(m);
  }

  /** What an outcome tells of the peer: its greeting's contents, or nothing new. */
  predicate Learns(s: Session, m: Message, o: Outcome) {
    && (o.queued.Some? ==> !o.queued.value.Hello?)
    && o.s.peerCaps == (if m.Hello? then m.caps else s.peerCaps)
    && o.s.peerCall == (if m.Hello? then m.call else s.peerCall)
  }

  lemma DispatchLearns(s: Session, m: Message, ans: Answers)
    requires Legal(m)
    ensures Learns(s, m, Dispatch(s, Kind(m), Payload(m), ans))
  {
    if m.Hello? {
      HelloIsHeard(s, m, ans);
    } else {
      DispatchIsDiscreet(s, Kind(m), Payload(m), ans);
    }
  }

  lemma OutcomeLearns(n: Net, act: Action, m: Message)
    requires Handling(n, act, m)
    ensures Learns(n.a, m, HandleOutcome(n, act))
  {
    DispatchLearns(n.a, m, HandleAnswers(n, act));
  }

  lemma AbsorbMovesOn(c: Channel, s: Session, kind: byte, p: seq<byte>, o: Outcome, disk: seq<byte>, writeOk: bool)
    ensures var c' := Absorb(c, s, kind, p, o, disk, writeOk);
      c'.log == c.log && c'.trail == c.trail && c'.handled == c.handled + 1
  {
  }

  /** What dispatching a message does to the two stations and the two directions. */
  lemma Handled(n: Net, act: Action, m: Message)
    requires Handling(n, act, m)
    ensures var n', o := Act(n, act), HandleOutcome(n, act);
      && n'.b == n.b && n'.ab == Emit(n.ab, o) && n'.a.peerCaps == o.s.peerCaps && n'.a.peerCall == o.s.peerCall
      && n'.ba.log == n.ba.log && n'.ba.trail == n.ba.trail && n'.ba.handled == n.ba.handled + 1
  {
    AbsorbMovesOn(n.ba, n.a, Kind(m), Payload(m), HandleOutcome(n, act), act.disk, act.writeOk);
  }

  lemma KeptAfter(n: Net, n': Net, o: Outcome, m: Message, ofA: Message, ofB: Message)
    requires Acquainted(n, ofA, ofB) && Learns(n.a, m, o) && n.ba.handled < |n.ba.log| && n.ba.log[n.ba.handled] == m
    requires n'.b == n.b && n'.ab == Emit(n.ab, o) && n'.a.peerCaps == o.s.peerCaps && n'.a.peerCall == o.s.peerCall
    requires n'.ba.log == n.ba.log && n'.ba.trail == n.ba.trail && n'.ba.handled == n.ba.handled + 1
    ensures Acquainted(n', ofA, ofB)
  {
    EmitKeeps(n.ab, ofA, n.b, o.s, o);
  }

  lemma HandleKeepsPeers(n: Net, act: Action, m: Message, ofA: Message, ofB: Message)
    requires Handling(n, act, m) && n.ba.handled < |n.ba.log| && n.ba.log[n.ba.handled] == m && Acquainted(n, ofA, ofB)
    ensures Acquainted(Act(n, act), ofA, ofB)
  {
    Handled(n, act, m);
    OutcomeLearns(n, act, m);
    KeptAfter(n, Act(n, act), HandleOutcome(n, act), m, ofA, ofB);
  }

  lemma OldestOf(n: Net, act: Action) returns (m: Message)
    requires Inv(n) && act.Handle? && Enabled(n, act)
    ensures Handling(n, act, m) && n.ba.handled < |n.ba.log| && n.ba.log[n.ba.handled] == m
  {
    m := Oldest(n, act);
  }

  lemma ActKeepsPeers(n: Net, act: Action, ofA: Message, ofB: Message)
    requires Inv(n) && Enabled(n, act) && Acquainted(n, ofA, ofB)
    ensures Acquainted(Act(n, act), ofA, ofB)
  {
    if act.Handle? {
      var oldest := OldestOf(n, act);
      HandleKeepsPeers(n, act, oldest, ofA, ofB);
    } else if !act.Deliver? {
      UserKeepsPeers(n, act, ofA, ofB);
    }
  }

  lemma StepKeepsPeers(n: Net, first: bool, act: Action, ofA: Message, ofB: Message)
    requires Inv(n) && Enabled(if first then n else Swap(n), act) && Acquainted(n, ofA, ofB)
    ensures Acquainted(Step(n, first, act), ofA, ofB)
  {
    if first {
      ActKeepsPeers(n, act, ofA, ofB);
    } else {
      ActKeepsPeers(Swap(n), act, ofB, ofA);
    }
  }

  lemma {:induction false} RunKeepsPeers(n: Net, moves: seq<(bool, Action)>, n': Net, ofA: Message, ofB: Message)
    requires Inv(n) && Runs(n, moves, n') && Acquainted(n, ofA, ofB)
    ensures Inv(n') && Acquainted(n', ofA, ofB)
    decreases |moves|
  {
    if moves != [] {
      StepKeeps(n, moves[0].0, moves[0].1);
      StepKeepsPeers(n, moves[0].0, moves[0].1, ofA, ofB);
      RunKeepsPeers(Step(n, moves[0].0, moves[0].1), moves[1..], n', ofA, ofB);
    }
  }

  lemma OpenedPeers(callA: seq<byte>, callB: seq<byte>, takeA: nat, takeB: nat)
    ensures Acquainted(Initial(callA, callB, takeA, takeB), Greeting(callA), Greeting(callB))
  {
  }

  lemma HelloThrough(n: Net)
    requires Inv(n)
    ensures n.a.link == Asp <==> n.ba.handled > 0
    ensures n.b.link == Asp <==> n.ab.handled > 0
  {
  }

  /**
   * Over every run of two stations: a side that has left the HELLO state knows the other's
   * callsign and capabilities as they were announced, and so may send files exactly when its
   * one outbound slot is free.
   */
  lemma PeersKnowEachOther(callA: seq<byte>, callB: seq<byte>, takeA: nat, takeB: nat, moves: seq<(bool, Action)>, n: Net)
    requires Runs(Initial(callA, callB, takeA, takeB), moves, n)
    ensures n.a.link == Asp ==> n.a.peerCall == Clip(CString(callB), MAX_CALL - 1)
    ensures n.b.link == Asp ==> n.b.peerCall == Clip(CString(callA), MAX_CALL - 1)
    ensures CanSendFiles(n.a) <==> n.a.link == Asp && n.a.tx.state == NoTransfer
    ensures CanSendFiles(n.b) <==> n.b.link == Asp && n.b.tx.state == NoTransfer
  {
    InitialHolds(callA, callB, takeA, takeB);
    OpenedPeers(callA, callB, takeA, takeB);
    RunKeepsPeers(Initial(callA, callB, takeA, takeB), moves, n, Greeting(callA), Greeting(callB));
    HelloThrough(n);
  }
}
