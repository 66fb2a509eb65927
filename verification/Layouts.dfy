/**
 * What is where in every message and record, as the protocol's tables give it: offsets,
 * widths and type numbers, written out here without the writers' own helpers.
 */
module Layouts {
  import opened Bytes
  import opened Wire
  import Telemetry

  /** What a run of bytes is worth, lowest byte first. */
  function Little(s: seq<byte>): nat {
    if s == [] then 0 else s[0] as int + 0x100 * Little(s[1..])
  }

  ghost predicate Holds(s: seq<byte>, at: nat, width: nat, v: nat) {
    at + width <= |s| && Little(s[at..at + width]) == v
  }

  /** Two's complement, in two bytes. */
  function Unsigned(v: Telemetry.i16): u16 {
    if v < 0 then v as int + 0x1_0000 else v
  }

  ghost predicate HoldsSigned(s: seq<byte>, at: nat, v: Telemetry.i16) {
    Holds(s, at, 2, Unsigned(v))
  }

  /** A one-byte count and that many bytes. */
  ghost predicate Counted(s: seq<byte>, at: nat, t: seq<byte>) {
    at + 1 + |t| <= |s| && s[at] == |t| && s[at + 1..at + 1 + |t|] == t
  }

  lemma LittleOfTwo(s: seq<byte>)
    requires |s| == 2
    ensures Little(s) == s[0] as int + 0x100 * (s[1] as int)
  {
    assert Little(s[1..]) == s[1] as int + 0x100 * Little(s[1..][1..]);
  }

  lemma LittleOfFour(s: seq<byte>)
    requires |s| == 4
    ensures Little(s) == s[0] as int + 0x100 * (s[1] as int) + 0x1_0000 * (s[2] as int) + 0x100_0000 * (s[3] as int)
  {
    var t := s[1..];
    LittleOfTwo(t[1..]);
    assert Little(t) == t[0] as int + 0x100 * Little(t[1..]);
  }

  lemma PutU16Holds(a: seq<byte>, v: u16, b: seq<byte>)
    ensures Holds(a + PutU16(v) + b, |a|, 2, v)
  {
    assert (a + PutU16(v) + b)[|a|..|a| + 2] == PutU16(v);
    LittleOfTwo(PutU16(v));
  }

  lemma FourBytes(v: u32)
    ensures Little(PutU32(v)) == v
  {
    LittleOfFour(PutU32(v));
    U32RoundTrip(v, []);
    assert PutU32(v) + [] == PutU32(v);
  }

  lemma PutU32Holds(a: seq<byte>, v: u32, b: seq<byte>)
    ensures Holds(a + PutU32(v) + b, |a|, 4, v)
  {
    assert (a + PutU32(v) + b)[|a|..|a| + 4] == PutU32(v);
    FourBytes(v);
  }

  lemma PutStrIsCounted(a: seq<byte>, t: seq<byte>, max: nat, b: seq<byte>)
    requires max < 0x100
    ensures Counted(a + PutStr(t, max) + b, |a|, Clip(t, max))
  {
    var s := a + PutStr(t, max) + b;
    assert s[|a| + 1..|a| + 1 + |Clip(t, max)|] == Clip(t, max);
  }

  // --- the application protocol: sections 3, 5 and 6 of its specification ---

  function TypeNumber(m: Message): byte {
    match m
    case Hello(_, _, _) => 0x01
    case Text(_) => 0x10
    case Offer(_, _, _, _, _) => 0x20
    case Accept(_, _, _) => 0x21
    case Reject(_, _) => 0x22
    case Start(_, _) => 0x23
    case Data(_) => 0x24
    case Done(_) => 0x25
    case Result(_, _) => 0x26
    case Cancel(_, _) => 0x27
  }

  ghost predicate IdAndCode(p: seq<byte>, id: u16, code: byte) {
    |p| == 3 && Holds(p, 0, 2, id) && p[2] == code
  }

  ghost predicate OfferLaidOut(p: seq<byte>, m: Message)
    requires m.Offer?
  {
    && |p| == 12 + |m.name| + |m.contentType|
    && Holds(p, 0, 2, m.id) && Holds(p, 2, 4, m.size) && Holds(p, 6, 4, m.crc)
    && Counted(p, 10, m.name) && Counted(p, 11 + |m.name|, m.contentType)
  }

  /** A message's payload, byte for byte. */
  ghost predicate LaidOut(p: seq<byte>, m: Message) {
    match m
    case Hello(version, caps, call) =>
      && |p| == 11 + |call| && p[..5] == [0x41, 0x53, 0x50, 0x2f, 0x31]
      && p[5] == version && Holds(p, 6, 4, caps) && Counted(p, 10, call)
    case Text(text) => p == text
    case Offer(_, _, _, _, _) => OfferLaidOut(p, m)
    case Accept(id, have, prefixCrc) =>
      |p| == 10 && Holds(p, 0, 2, id) && Holds(p, 2, 4, have) && Holds(p, 6, 4, prefixCrc)
    case Reject(id, code) => IdAndCode(p, id, code)
    case Start(id, from) => |p| == 6 && Holds(p, 0, 2, id) && Holds(p, 2, 4, from)
    case Data(bytes) => p == bytes
    case Done(id) => |p| == 2 && Holds(p, 0, 2, id)
    case Result(id, code) => IdAndCode(p, id, code)
    case Cancel(id, code) => IdAndCode(p, id, code)
  }

  lemma OfferNumbers(p: seq<byte>, m: Message, rest: seq<byte>)
    requires m.Offer? && p == PutU16(m.id) + PutU32(m.size) + PutU32(m.crc) + rest
    ensures Holds(p, 0, 2, m.id) && Holds(p, 2, 4, m.size) && Holds(p, 6, 4, m.crc)
  {
    var a, b, c := PutU16(m.id), PutU32(m.size), PutU32(m.crc);
    PutU32Holds(a + b, m.crc, rest);
    assert p == a + b + (c + rest);
    PutU32Holds(a, m.size, c + rest);
    assert p == [] + a + (b + c + rest);
    PutU16Holds([], m.id, b + c + rest);
  }

  lemma OfferStrings(p: seq<byte>, m: Message, head: seq<byte>)
    requires m.Offer? && Legal(m) && |head| == 10
    requires p == head + PutStr(m.name, MAX_NAME) + PutStr(m.contentType, MAX_CONTENT_TYPE)
    ensures Counted(p, 10, m.name) && Counted(p, 11 + |m.name|, m.contentType)
  {
    var name, kind := PutStr(m.name, MAX_NAME), PutStr(m.contentType, MAX_CONTENT_TYPE);
    PutStrIsCounted(head, m.name, MAX_NAME, kind);
    assert p == (head + name) + kind + [];
    PutStrIsCounted(head + name, m.contentType, MAX_CONTENT_TYPE, []);
  }

  lemma OfferLayout(m: Message)
    requires m.Offer? && Legal(m)
    ensures OfferLaidOut(Payload(m), m)
  {
    var head := PutU16(m.id) + PutU32(m.size) + PutU32(m.crc);
    var name, kind := PutStr(m.name, MAX_NAME), PutStr(m.contentType, MAX_CONTENT_TYPE);
    assert Payload(m) == head + (name + kind);
    OfferNumbers(Payload(m), m, name + kind);
    OfferStrings(Payload(m), m, head);
  }

  lemma HelloLayout(m: Message)
    requires m.Hello? && Legal(m)
    ensures LaidOut(Payload(m), m)
  {
    var p, call := Payload(m), PutStr(m.call, MAX_CALL - 1);
    assert p == (MAGIC + [m.version]) + PutU32(m.caps) + call;
    PutU32Holds(MAGIC + [m.version], m.caps, call);
    assert p == (MAGIC + [m.version] + PutU32(m.caps)) + call + [];
    PutStrIsCounted(MAGIC + [m.version] + PutU32(m.caps), m.call, MAX_CALL - 1, []);
    assert p[..5] == MAGIC;
  }

  lemma IdAndCodeLayout(id: u16, code: byte)
    ensures IdAndCode(PutU16(id) + [code], id, code)
  {
    assert PutU16(id) + [code] == [] + PutU16(id) + [code];
    PutU16Holds([], id, [code]);
  }

  lemma SmallLayout(m: Message)
    requires !m.Hello? && !m.Offer?
    ensures LaidOut(Payload(m), m)
  {
    match m
    case Accept(id, have, prefixCrc) =>
      var a, b, c := PutU16(id), PutU32(have), PutU32(prefixCrc);
      assert Payload(m) == [] + a + (b + c) == a + b + c == (a + b) + c + [];
      PutU16Holds([], id, b + c);
      PutU32Holds(a, have, c);
      PutU32Holds(a + b, prefixCrc, []);
    case Start(id, from) =>
      assert Payload(m) == [] + PutU16(id) + PutU32(from) == PutU16(id) + PutU32(from) + [];
      PutU16Holds([], id, PutU32(from));
      PutU32Holds(PutU16(id), from, []);
    case Done(id) =>
      assert Payload(m) == [] + PutU16(id) + [];
      PutU16Holds([], id, []);
    case Reject(id, code) => IdAndCodeLayout(id, code);
    case Result(id, code) => IdAndCodeLayout(id, code);
    case Cancel(id, code) => IdAndCodeLayout(id, code);
    case _ =>
  }

  lemma PayloadIsLaidOut(m: Message)
    requires Legal(m)
    ensures LaidOut(Payload(m), m) && |Payload(m)| <= MAX_PAYLOAD && Kind(m) == TypeNumber(m)
  {
    PayloadRoundTrip(m);
    if m.Hello? {
      HelloLayout(m);
    } else if m.Offer? {
      OfferLayout(m);
    } else {
      SmallLayout(m);
    }
  }

  /** A number, the payload's length in seven-bit groups, the payload. */
  ghost predicate FramedAs(s: seq<byte>, number: byte, p: seq<byte>) {
    |p| < 0x4000 && s == (if |p| < 0x80 then [number, |p|] else [number, 0x80 + |p| % 0x80, |p| / 0x80]) + p
  }

  lemma FrameIsFramed(number: byte, p: seq<byte>)
    requires |p| < 0x4000
    ensures FramedAs(Frame(number, p), number, p)
  {
    var n := |p|;
    if n >= 0x80 {
      assert Leb(n / 0x80) == [n / 0x80];
      assert Leb(n) == [0x80 + n % 0x80, n / 0x80];
    }
  }

  /** Every message, byte for byte. */
  lemma MessageLayout(m: Message)
    requires Legal(m)
    ensures FramedAs(Encode(m), TypeNumber(m), Payload(m)) && LaidOut(Payload(m), m)
  {
    PayloadIsLaidOut(m);
    FrameIsFramed(Kind(m), Payload(m));
  }

  /** The broadcast form: the callsign, two bytes of id, the text. */
  lemma BroadcastLayout(call: seq<byte>, id: u16, text: seq<byte>)
    ensures var p, n := TextBPut(call, id, text), Min(|call|, 31);
      && |p| == 3 + n + |text| && Counted(p, 0, call[..n])
      && Holds(p, 1 + n, 2, id) && p[3 + n..] == text
  {
    var p, c := TextBPut(call, id, text), PutStr(call, MAX_CALL - 1);
    assert p == [] + c + (PutU16(id) + text) == c + PutU16(id) + text;
    PutStrIsCounted([], call, MAX_CALL - 1, PutU16(id) + text);
    PutU16Holds(c, id, text);
  }

  // --- the telemetry stream ---

  /** The stream's hello: "ATLM", version 1, 206 bins from the 25th, two spare bytes, the bin's width. */
  lemma TelemetryHelloLayout()
    ensures Telemetry.Hello() == [0x41, 0x54, 0x4c, 0x4d, 1, 0, 206, 0, 25, 0, 0, 0, 0x06, 0x81, 0x3b, 0x41]
  {
  }

  lemma PutI16Holds(a: seq<byte>, v: Telemetry.i16, b: seq<byte>)
    ensures HoldsSigned(a + Telemetry.PutI16(v) + b, |a|, v)
  {
    PutU16Holds(a, Unsigned(v), b);
  }

  lemma {:induction false} WordHolds(vs: seq<Telemetry.i16>, i: nat)
    requires i < |vs|
    ensures HoldsSigned(FlatMap(Telemetry.PutI16, vs), 2 * i, vs[i])
  {
    var more, w := FlatMap(Telemetry.PutI16, vs[1..]), Telemetry.PutI16(vs[0]);
    assert FlatMap(Telemetry.PutI16, vs) == w + more;
    if i == 0 {
      assert w + more == [] + w + more;
      PutI16Holds([], vs[0], more);
    } else {
      WordHolds(vs[1..], i - 1);
      assert (w + more)[2 * i..2 * i + 2] == more[2 * (i - 1)..2 * (i - 1) + 2];
    }
  }

  lemma {:induction false} LongHolds(vs: seq<u32>, i: nat)
    requires i < |vs|
    ensures Holds(FlatMap(PutU32, vs), 4 * i, 4, vs[i])
  {
    var more, w := FlatMap(PutU32, vs[1..]), PutU32(vs[0]);
    assert FlatMap(PutU32, vs) == w + more;
    if i == 0 {
      assert w + more == [] + w + more;
      PutU32Holds([], vs[0], more);
    } else {
      LongHolds(vs[1..], i - 1);
      assert (w + more)[4 * i..4 * i + 4] == more[4 * (i - 1)..4 * (i - 1) + 4];
    }
  }

  lemma HeldInside(a: seq<byte>, s: seq<byte>, b: seq<byte>, at: nat, v: nat)
    requires Holds(s, at, 2, v)
    ensures Holds(a + s + b, |a| + at, 2, v)
  {
    assert (a + s + b)[|a| + at..|a| + at + 2] == s[at..at + 2];
  }

  ghost predicate HoldsList(s: seq<byte>, at: nat, vs: seq<Telemetry.i16>) {
    forall i: nat :: i < |vs| ==> HoldsSigned(s, at + 2 * i, vs[i])
  }

  lemma ListHolds(vs: seq<Telemetry.i16>)
    ensures HoldsList(FlatMap(Telemetry.PutI16, vs), 0, vs)
  {
    forall i: nat | i < |vs|
      ensures HoldsSigned(FlatMap(Telemetry.PutI16, vs), 0 + 2 * i, vs[i])
    {
      WordHolds(vs, i);
    }
  }

  lemma ListHeldInside(a: seq<byte>, s: seq<byte>, b: seq<byte>, vs: seq<Telemetry.i16>)
    requires HoldsList(s, 0, vs)
    ensures HoldsList(a + s + b, |a|, vs)
  {
    forall i: nat | i < |vs|
      ensures HoldsSigned(a + s + b, |a| + 2 * i, vs[i])
    {
      assert HoldsSigned(s, 0 + 2 * i, vs[i]);
      HeldInside(a, s, b, 2 * i, Unsigned(vs[i]));
    }
  }

  ghost predicate SnapshotLaidOut(p: seq<byte>, r: Telemetry.Record, n: nat)
    requires r.Constellation? && r.phase.Some? && r.points.Some? && n <= |r.phase.value| && n <= |r.points.value|
  {
    && |p| == 6 + 4 * n && p[0] == r.frameType && p[1] == r.modulation && Holds(p, 2, 2, n) && HoldsSigned(p, 4, r.threshold)
    && HoldsList(p, 6, r.phase.value[..n]) && HoldsList(p, 6 + 2 * n, r.points.value[..n])
  }

  /** A record's payload, byte for byte. */
  ghost predicate RecordLaidOut(p: seq<byte>, r: Telemetry.Record)
    requires Telemetry.Wellformed(r) && Telemetry.Complete(r)
  {
    match r
    case Spectrum(mag) => |p| == 824 && forall i: nat :: i < 206 ==> Holds(p, 4 * i, 4, mag.value[i])
    case Constellation(_, _, _, phase, _) => SnapshotLaidOut(p, r, Min(|phase.value|, 2048))
    case Audio(rms, peak) => |p| == 8 && Holds(p, 0, 4, rms) && Holds(p, 4, 4, peak)
    case Status(state, mode, busy, ptt, sn, quality, bandwidth, bufferLen) =>
      && |p| == 14 && p[0] == state && p[1] == mode && p[2] == (if busy then 1 else 0) && p[3] == (if ptt then 1 else 0)
      && HoldsSigned(p, 4, sn) && HoldsSigned(p, 6, quality) && HoldsSigned(p, 8, bandwidth) && Holds(p, 10, 4, bufferLen)
    case FrameSeen(atHigh, atLow, frameType, dir, quality, sn) =>
      && |p| == 14 && Holds(p, 0, 4, atHigh) && Holds(p, 4, 4, atLow) && p[8] == frameType && p[9] == dir
      && HoldsSigned(p, 10, quality) && HoldsSigned(p, 12, sn)
  }

  function RecordNumber(r: Telemetry.Record): byte {
    match r
    case Spectrum(_) => 1
    case Constellation(_, _, _, _, _) => 2
    case Audio(_, _) => 3
    case Status(_, _, _, _, _, _, _, _) => 4
    case FrameSeen(_, _, _, _, _, _) => 5
  }

  lemma StatusLayout(r: Telemetry.Record)
    requires r.Status?
    ensures RecordLaidOut(Telemetry.Payload(r), r)
  {
    var a := [r.state, r.mode, Telemetry.PutBool(r.busy), Telemetry.PutBool(r.ptt)];
    var b, c, d := Telemetry.PutI16(r.sn), Telemetry.PutI16(r.quality), Telemetry.PutI16(r.bandwidth);
    var e, p := PutU32(r.bufferLen), Telemetry.Payload(r);
    assert p == a + b + (c + d + e) == (a + b) + c + (d + e) == (a + b + c) + d + e == (a + b + c + d) + e + [];
    PutI16Holds(a, r.sn, c + d + e);
    PutI16Holds(a + b, r.quality, d + e);
    PutI16Holds(a + b + c, r.bandwidth, e);
    PutU32Holds(a + b + c + d, r.bufferLen, []);
  }

  lemma FrameLayout(r: Telemetry.Record)
    requires r.FrameSeen?
    ensures RecordLaidOut(Telemetry.Payload(r), r)
  {
    var a, b, c := PutU32(r.atHigh), PutU32(r.atLow), [r.frameType, r.dir];
    var d, e, p := Telemetry.PutI16(r.quality), Telemetry.PutI16(r.sn), Telemetry.Payload(r);
    assert p == [] + a + (b + c + d + e) == a + b + (c + d + e) == (a + b + c) + d + e == (a + b + c + d) + e + [];
    PutU32Holds([], r.atHigh, b + c + d + e);
    PutU32Holds(a, r.atLow, c + d + e);
    PutI16Holds(a + b + c, r.quality, e);
    PutI16Holds(a + b + c + d, r.sn, []);
  }

  lemma SnapshotHead(p: seq<byte>, r: Telemetry.Record, n: u16, rest: seq<byte>)
    requires r.Constellation? && p == Telemetry.ConstellationHead(r, n) + rest
    ensures p[0] == r.frameType && p[1] == r.modulation && Holds(p, 2, 2, n) && HoldsSigned(p, 4, r.threshold)
  {
    var kind, count, threshold := [r.frameType, r.modulation], PutU16(n), Telemetry.PutI16(r.threshold);
    assert p == kind + count + (threshold + rest);
    PutU16Holds(kind, n, threshold + rest);
    assert p == (kind + count) + threshold + rest;
    PutI16Holds(kind + count, r.threshold, rest);
  }

  lemma TwoLists(head: seq<byte>, a: seq<byte>, b: seq<byte>, phase: seq<Telemetry.i16>, points: seq<Telemetry.i16>)
    requires HoldsList(a, 0, phase) && HoldsList(b, 0, points)
    ensures HoldsList(head + a + b, |head|, phase) && HoldsList(head + a + b, |head| + |a|, points)
  {
    ListHeldInside(head, a, b, phase);
    ListHeldInside(head + a, b, [], points);
    assert head + a + b == (head + a) + b + [];
  }

  lemma List(vs: seq<Telemetry.i16>) returns (s: seq<byte>)
    ensures s == FlatMap(Telemetry.PutI16, vs) && |s| == 2 * |vs| && HoldsList(s, 0, vs)
  {
    s := FlatMap(Telemetry.PutI16, vs);
    Telemetry.WordsLength(vs);
    ListHolds(vs);
  }

  lemma SnapshotLayout(r: Telemetry.Record)
    requires r.Constellation? && Telemetry.Wellformed(r) && Telemetry.Complete(r)
    ensures SnapshotLaidOut(Telemetry.Payload(r), r, Min(|r.phase.value|, 2048))
  {
    var c, p := Telemetry.Carried(r), Telemetry.Payload(r);
    var n := |c.phase.value|;
    var head := Telemetry.ConstellationHead(r, n);
    var phase := List(c.phase.value);
    var points := List(c.points.value);
    assert p == head + phase + points == head + (phase + points);
    SnapshotHead(p, r, n, phase + points);
    TwoLists(head, phase, points, c.phase.value, c.points.value);
  }

  lemma PayloadLayout(r: Telemetry.Record)
    requires Telemetry.Wellformed(r) && Telemetry.Complete(r)
    ensures RecordLaidOut(Telemetry.Payload(r), r)
  {
    match r
    case Spectrum(mag) =>
      Telemetry.LongsLength(mag.value);
      forall i: nat | i < 206
        ensures Holds(Telemetry.Payload(r), 4 * i, 4, mag.value[i])
      {
        LongHolds(mag.value, i);
      }
    case Constellation(_, _, _, _, _) => SnapshotLayout(r);
    case Audio(rms, peak) =>
      var p := Telemetry.Payload(r);
      assert p == [] + PutU32(rms) + PutU32(peak) == PutU32(rms) + PutU32(peak) + [];
      PutU32Holds([], rms, PutU32(peak));
      PutU32Holds(PutU32(rms), peak, []);
    case Status(_, _, _, _, _, _, _, _) => StatusLayout(r);
    case FrameSeen(_, _, _, _, _, _) => FrameLayout(r);
  }

  /** Every record, byte for byte, and exactly which fit: its number, its payload's length in two bytes, its payload. */
  lemma RecordLayout(r: Telemetry.Record, cap: nat)
    requires Telemetry.Wellformed(r)
    ensures var s := Telemetry.Encode(r, cap);
      if Telemetry.Complete(r) && 3 + |Telemetry.Payload(r)| <= cap
      then
        && |s| == 3 + |Telemetry.Payload(r)| && s[0] == RecordNumber(r)
        && Holds(s, 1, 2, |s| - 3) && RecordLaidOut(s[3..], r)
      else s == []
  {
    if Telemetry.Complete(r) && 3 + |Telemetry.Payload(r)| <= cap {
      var p := Telemetry.Payload(r);
      Telemetry.PayloadFits(r);
      assert Telemetry.Encode(r, cap)[3..] == p;
      PutU16Holds([Telemetry.KindOf(r)], |p|, p);
      PayloadLayout(r);
    }
  }
}
