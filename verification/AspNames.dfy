/** The name a file is received under, whatever the peer calls it. */
module AspNames {
  import opened Bytes
  import opened Wire
  import opened AspSpec
  import opened AspRuns
  import opened SafeNames

  /** Fit to be created: no path, nothing a file system minds, and room for it. */
  predicate Creatable(name: seq<byte>) {
    Harmless(name) && |name| <= MAX_NAME
  }

  lemma OfferedName(p: seq<byte>, m: Message)
    requires OfferGet(p) == Some(m)
    ensures m.Offer? && |m.name| <= MAX_NAME
  {
  }

  /**
   * A station receiving nothing takes up a well-formed offer exactly if something is left of the
   * name, and then under a name fit to be created: the offered one, if that was. Otherwise it
   * says so, if it can, and asks nobody.
   */
  lemma OfferTakenUnder(s: Session, p: seq<byte>, m: Message, ans: Answers)
    requires s.rx.state == NoTransfer && OfferGet(p) == Some(m) && m.Offer?
    ensures var o := Dispatch(s, OFFER, p, ans);
      && (o.s.rx.state == Receiving <==> SafeName(m.name, MAX_NAME + 1).Some?)
      && (o.s.rx.state == Receiving ==>
          && o.s.rx.name == SafeName(m.name, MAX_NAME + 1).value && Creatable(o.s.rx.name)
          && o.s.rx.id == m.id && o.s.rx.size == m.size && o.s.rx.crc == m.crc
          && o.effects == [Asked(m.id, m.size, m.name)])
      && (Harmless(m.name) && !ReservedDevice(m.name) ==> o.s.rx.state == Receiving && o.s.rx.name == m.name)
      && (o.s.rx.state != Receiving ==>
          o.effects == [] && o.s.rx == s.rx && (s.pending == [] ==> o.queued == Some(Reject(m.id, BAD_NAME))))
  {
    OfferedName(p, m);
    if SafeName(m.name, MAX_NAME + 1).Some? {
      SafeNameIsHarmless(m.name, MAX_NAME + 1);
    }
    if Harmless(m.name) && !ReservedDevice(m.name) {
      HarmlessIsKept(m.name, MAX_NAME + 1);
    }
    TakenUnder(s, m, ans);
  }

  lemma TakenUnder(s: Session, m: Message, ans: Answers)
    requires s.rx.state == NoTransfer && m.Offer?
    ensures var o, name := TakeOffer(s, m, ans), SafeName(m.name, MAX_NAME + 1);
      if name.Some? then
        && o.s.rx.state == Receiving && o.s.rx.name == name.value && o.effects == [Asked(m.id, m.size, m.name)]
        && o.s.rx.id == m.id && o.s.rx.size == m.size && o.s.rx.crc == m.crc
      else o.s.rx == s.rx && o.effects == [] && (s.pending == [] ==> o.queued == Some(Reject(m.id, BAD_NAME)))
  {
  }

  /** "../../x" is received as "x", and "CON" as "CON_". */
  lemma NamesFromOutside(s: Session, id: u16, size: u32, crc: u32, ans: Answers)
    requires s.rx.state == NoTransfer
    ensures var up: seq<byte> := [0x2e, 0x2e, 0x2f, 0x2e, 0x2e, 0x2f, 0x78];
      TakeOffer(s, Offer(id, size, crc, up, []), ans).s.rx.name == [0x78]
    ensures var con: seq<byte> := [0x43, 0x4f, 0x4e];
      TakeOffer(s, Offer(id, size, crc, con, []), ans).s.rx.name == con + [UNDERSCORE]
  {
    var up: seq<byte>, con: seq<byte> := [0x2e, 0x2e, 0x2f, 0x2e, 0x2e, 0x2f, 0x78], [0x43, 0x4f, 0x4e];
    LastComponent(up);
    PlainDevice();
    TakenUnder(s, Offer(id, size, crc, up, []), ans);
    TakenUnder(s, Offer(id, size, crc, con, []), ans);
  }

  lemma LastComponent(up: seq<byte>)
    requires up == [0x2e, 0x2e, 0x2f, 0x2e, 0x2e, 0x2f, 0x78]
    ensures SafeName(up, MAX_NAME + 1) == Some([0x78])
  {
    var x: seq<byte> := [0x78];
    assert 0 !in up;
    assert up[..6][5] == 0x2f && BaseName(up) == [] + x;
    CleanNameKept(x);
    assert Clip(x, MAX_NAME) == x && TrimFront(x) == x && TrimBack(x) == x;
    assert x[1..] == [] && Stem(x) == x;
  }

  lemma PlainDevice()
    ensures SafeName([0x43, 0x4f, 0x4e], MAX_NAME + 1) == Some([0x43, 0x4f, 0x4e] + [UNDERSCORE])
  {
    var con: seq<byte> := [0x43, 0x4f, 0x4e];
    HarmlessIsReduced(con, MAX_NAME + 1);
    StemOfCon(con);
    assert SameIgnoringCase(Stem(con), RESERVED[0]);
  }

  lemma StemOfCon(con: seq<byte>)
    requires con == [0x43, 0x4f, 0x4e]
    ensures Stem(con) == con
  {
    StemOfMore([0x43, 0x4f], 0x4e);
    assert con == [0x43, 0x4f] + [0x4e];
  }

  // --- over every run ---

  predicate NameSafe(s: Session) {
    s.rx.state == Receiving ==> Creatable(s.rx.name)
  }

  lemma OfferKeepsName(s: Session, p: seq<byte>, ans: Answers)
    requires NameSafe(s)
    ensures NameSafe(AspSpec.OnOffer(s, p, ans).s)
  {
    match OfferGet(p)
    case None =>
    case Some(m) =>
      if s.rx.state == NoTransfer {
        TakenUnder(s, m, ans);
        if SafeName(m.name, MAX_NAME + 1).Some? {
          SafeNameIsHarmless(m.name, MAX_NAME + 1);
        }
      }
  }

  lemma OthersKeepName(s: Session, kind: byte, p: seq<byte>, ans: Answers)
    requires NameSafe(s) && kind != OFFER
    ensures NameSafe(Dispatch(s, kind, p, ans).s)
  {
  }

  lemma EventKeepsName(s: Session, e: Event)
    requires NameSafe(s) && Possible(s, e)
    ensures NameSafe(Happen(s, e).s)
  {
    if e.Take? {
      var f := FrameGet(s.inb);
      if f.kind == OFFER {
        OfferKeepsName(s, f.payload, e.ans);
      } else {
        OthersKeepName(s, f.kind, f.payload, e.ans);
      }
    }
  }

  /** Against any peer and over any run, nothing is ever received under a name that is not fit to be created. */
  lemma {:induction false} ReceivedUnderSafeName(myCall: seq<byte>, take: nat, queued: seq<byte>, sent: seq<byte>, es: seq<Event>, h: History)
    requires Leads(History(Open(myCall, take).s, queued, sent, []), es, h)
    ensures h.s.rx.state == Receiving ==> Creatable(h.s.rx.name)
    decreases |es|
  {
    if es != [] {
      var last, start := |es| - 1, History(Open(myCall, take).s, queued, sent, []);
      var mid :| Leads(start, es[..last], mid) && Possible(mid.s, es[last]) && h == Extend(mid, Happen(mid.s, es[last]));
      ReceivedUnderSafeName(myCall, take, queued, sent, es[..last], mid);
      EventKeepsName(mid.s, es[last]);
    }
  }
}
