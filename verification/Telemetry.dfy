/** The telemetry stream: records behind a three-byte header, those of unknown kind skipped by length. */
module Telemetry {
  import opened Bytes

  const MAGIC: u32 := 0x4D4C_5441
  const VERSION: u16 := 1
  const HELLO_LEN := 16
  const HEADER := 3
  const MAX_POINTS := 2048
  const MAG_BINS := 206
  const FIRST_BIN: u16 := 25
  const BIN_HZ: u32 := 0x413B_8106  // the bits of 11.719 in single precision

  type i16 = x: int | -0x8000 <= x < 0x8000

  /** Floats are carried as their 32-bit patterns. A missing array is None. */
  datatype Record =
    | Spectrum(mag: Option<seq<u32>>)
    | Constellation(frameType: byte, modulation: byte, threshold: i16, phase: Option<seq<i16>>, points: Option<seq<i16>>)
    | Audio(rms: u32, peak: u32)
    | Status(state: byte, mode: byte, busy: bool, ptt: bool, sn: i16, quality: i16, bandwidth: i16, bufferLen: u32)
    | FrameSeen(atHigh: u32, atLow: u32, frameType: byte, dir: byte, quality: i16, sn: i16)

  function PutI16(v: i16): (s: seq<byte>)
    ensures |s| == 2
  {
    PutU16(if v < 0 then v + 0x1_0000 else v)
  }

  function GetI16(s: seq<byte>): i16
    requires |s| >= 2
  {
    if GetU16(s) >= 0x8000 then GetU16(s) - 0x1_0000 else GetU16(s)
  }

  function PutBool(b: bool): byte {
    if b then 1 else 0
  }

  // --- payloads ---

  function KindOf(r: Record): byte {
    match r
    case Spectrum(_) => 1
    case Constellation(_, _, _, _, _) => 2
    case Audio(_, _) => 3
    case Status(_, _, _, _, _, _, _, _) => 4
    case FrameSeen(_, _, _, _, _, _) => 5
  }

  /** What the caller must supply: a whole spectrum row, and as many magnitudes as phases. */
  predicate Wellformed(r: Record) {
    && (r.Spectrum? && r.mag.Some? ==> |r.mag.value| == MAG_BINS)
    && (r.Constellation? && r.phase.Some? && r.points.Some? ==>
      |r.phase.value| == |r.points.value| < 0x1_0000)
  }

  /** The arrays a record needs are there. */
  predicate Complete(r: Record) {
    && (r.Spectrum? ==> r.mag.Some?)
    && (r.Constellation? ==> r.phase.Some? && r.points.Some?)
  }

  /** What survives the wire: all of it, but for the points past the most a snapshot carries. */
  function Carried(r: Record): Record
    requires Wellformed(r)
  {
    if r.Constellation? && r.phase.Some? && r.points.Some? then
      var n := Min(|r.phase.value|, MAX_POINTS);
      r.(phase := Some(r.phase.value[..n]), points := Some(r.points.value[..n]))
    else r
  }

  function Payload(r: Record): seq<byte>
    requires Wellformed(r) && Complete(r)
  {
    match Carried(r)
    case Spectrum(mag) => FlatMap(PutU32, mag.value)
    case Constellation(frameType, modulation, threshold, phase, points) =>
      [frameType, modulation] + PutU16(|phase.value|) + PutI16(threshold)
      + FlatMap(PutI16, phase.value) + FlatMap(PutI16, points.value)
    case Audio(rms, peak) => PutU32(rms) + PutU32(peak)
    case Status(state, mode, busy, ptt, sn, quality, bandwidth, bufferLen) =>
      [state, mode, PutBool(busy), PutBool(ptt)] + PutI16(sn) + PutI16(quality) + PutI16(bandwidth) + PutU32(bufferLen)
    case FrameSeen(atHigh, atLow, frameType, dir, quality, sn) =>
      PutU32(atHigh) + PutU32(atLow) + [frameType, dir] + PutI16(quality) + PutI16(sn)
  }

  lemma {:induction false} WordsLength(vs: seq<i16>)
    ensures |FlatMap(PutI16, vs)| == 2 * |vs|
  {
    if vs != [] {
      WordsLength(vs[1..]);
    }
  }

  lemma {:induction false} LongsLength(vs: seq<u32>)
    ensures |FlatMap(PutU32, vs)| == 4 * |vs|
  {
    if vs != [] {
      LongsLength(vs[1..]);
    }
  }

  function GetWords(s: seq<byte>, n: nat): (vs: seq<i16>)
    requires |s| >= 2 * n
    ensures |vs| == n
  {
    if n == 0 then [] else [GetI16(s)] + GetWords(s[2..], n - 1)
  }

  function GetLongs(s: seq<byte>, n: nat): (vs: seq<u32>)
    requires |s| >= 4 * n
    ensures |vs| == n
  {
    if n == 0 then [] else [GetU32(s)] + GetLongs(s[4..], n - 1)
  }

  lemma I16RoundTrip(v: i16, rest: seq<byte>)
    ensures GetI16(PutI16(v) + rest) == v
  {
    U16RoundTrip(if v < 0 then v + 0x1_0000 else v, rest);
  }

  lemma {:induction false} WordsRoundTrip(vs: seq<i16>, rest: seq<byte>)
    ensures |FlatMap(PutI16, vs) + rest| >= 2 * |vs| && GetWords(FlatMap(PutI16, vs) + rest, |vs|) == vs
  {
    WordsLength(vs);
    if vs != [] {
      var more := FlatMap(PutI16, vs[1..]) + rest;
      I16RoundTrip(vs[0], more);
      assert FlatMap(PutI16, vs) + rest == PutI16(vs[0]) + more;
      assert (PutI16(vs[0]) + more)[2..] == more;
      WordsRoundTrip(vs[1..], rest);
    }
  }

  lemma {:induction false} LongsRoundTrip(vs: seq<u32>, rest: seq<byte>)
    ensures |FlatMap(PutU32, vs) + rest| >= 4 * |vs| && GetLongs(FlatMap(PutU32, vs) + rest, |vs|) == vs
  {
    LongsLength(vs);
    if vs != [] {
      var more := FlatMap(PutU32, vs[1..]) + rest;
      U32RoundTrip(vs[0], more);
      assert FlatMap(PutU32, vs) + rest == PutU32(vs[0]) + more;
      assert (PutU32(vs[0]) + more)[4..] == more;
      LongsRoundTrip(vs[1..], rest);
    }
  }

  /** The record a payload of a known kind holds, if its length is right. */
  function Body(kind: byte, b: seq<byte>): Option<Record> {
    if kind == 1 then
      if |b| != MAG_BINS * 4 then None else Some(Spectrum(Some(GetLongs(b, MAG_BINS))))
    else if kind == 2 then
      if |b| < 6 then None
      else
        var n: nat := GetU16(b[2..]);
        if n > MAX_POINTS || |b| != 6 + n * 4 then None
        else Some(Constellation(b[0], b[1], GetI16(b[4..]), Some(GetWords(b[6..], n)), Some(GetWords(b[6 + 2 * n..], n))))
    else if kind == 3 then
      if |b| != 8 then None else Some(Audio(GetU32(b), GetU32(b[4..])))
    else if kind == 4 then
      if |b| != 14 then None
      else Some(Status(b[0], b[1], b[2] != 0, b[3] != 0, GetI16(b[4..]), GetI16(b[6..]), GetI16(b[8..]), GetU32(b[10..])))
    else if kind == 5 then
      if |b| != 14 then None
      else Some(FrameSeen(GetU32(b), GetU32(b[4..]), b[8], b[9], GetI16(b[10..]), GetI16(b[12..])))
    else None
  }

  // --- records ---

  /** The whole record, or nothing when it lacks an array or does not fit. */
  function Encode(r: Record, cap: nat): (s: seq<byte>)
    requires Wellformed(r)
  {
    if !Complete(r) || HEADER + |Payload(r)| > cap then []
    else
      PayloadFits(r);
      [KindOf(r)] + PutU16(|Payload(r)|) + Payload(r)
  }

  lemma PayloadFits(r: Record)
    requires Wellformed(r) && Complete(r)
    ensures |Payload(r)| <= 6 + 4 * MAX_POINTS
  {
    match Carried(r)
    case Spectrum(mag) => LongsLength(mag.value);
    case Constellation(_, _, _, phase, points) =>
      WordsLength(phase.value);
      WordsLength(points.value);
    case _ =>
  }

  datatype Verdict = Short | Skip(consumed: nat) | Got(record: Record, consumed: nat)

  /** One record from the front of a stream. */
  function Parse(s: seq<byte>): (v: Verdict)
    ensures !v.Short? ==> HEADER <= v.consumed <= |s|
  {
    if |s| < HEADER then Short
    else
      var total := HEADER + GetU16(s[1..]);
      if |s| < total then Short
      else match Body(s[0], s[HEADER..total])
        case None => Skip(total)
        case Some(r) => Got(r, total)
  }

  lemma AudioBody(r: Record)
    requires r.Audio?
    ensures Body(3, Payload(r)) == Some(r)
  {
    var b := Payload(r);
    U32RoundTrip(r.rms, PutU32(r.peak));
    U32RoundTrip(r.peak, []);
    assert b[4..] == PutU32(r.peak) == PutU32(r.peak) + [];
  }

  lemma StatusBody(r: Record)
    requires r.Status?
    ensures Body(4, Payload(r)) == Some(r)
  {
    var b := Payload(r);
    var tail := PutI16(r.quality) + PutI16(r.bandwidth) + PutU32(r.bufferLen);
    assert b[4..] == PutI16(r.sn) + tail;
    assert b[6..] == PutI16(r.quality) + (PutI16(r.bandwidth) + PutU32(r.bufferLen));
    assert b[8..] == PutI16(r.bandwidth) + PutU32(r.bufferLen);
    assert b[10..] == PutU32(r.bufferLen) + [];
    I16RoundTrip(r.sn, tail);
    I16RoundTrip(r.quality, PutI16(r.bandwidth) + PutU32(r.bufferLen));
    I16RoundTrip(r.bandwidth, PutU32(r.bufferLen));
    U32RoundTrip(r.bufferLen, []);
  }

  lemma FrameBody(r: Record)
    requires r.FrameSeen?
    ensures Body(5, Payload(r)) == Some(r)
  {
    var b := Payload(r);
    var tail := [r.frameType, r.dir] + PutI16(r.quality) + PutI16(r.sn);
    assert b == PutU32(r.atHigh) + (PutU32(r.atLow) + tail);
    assert b[4..] == PutU32(r.atLow) + tail && b[8..] == tail;
    assert b[10..] == PutI16(r.quality) + PutI16(r.sn);
    assert b[12..] == PutI16(r.sn) + [];
    U32RoundTrip(r.atHigh, PutU32(r.atLow) + tail);
    U32RoundTrip(r.atLow, tail);
    I16RoundTrip(r.quality, PutI16(r.sn));
    I16RoundTrip(r.sn, []);
    assert b[8] == tail[0] && b[9] == tail[1];
  }

  lemma SpectrumBody(r: Record)
    requires r.Spectrum? && Wellformed(r) && Complete(r)
    ensures Body(1, Payload(r)) == Some(r)
  {
    LongsLength(r.mag.value);
    LongsRoundTrip(r.mag.value, []);
    assert Payload(r) + [] == Payload(r);
  }

  function ConstellationHead(c: Record, n: u16): seq<byte>
    requires c.Constellation?
  {
    [c.frameType, c.modulation] + PutU16(n) + PutI16(c.threshold)
  }

  lemma HeadRead(c: Record, n: u16, rest: seq<byte>)
    requires c.Constellation?
    ensures var b := ConstellationHead(c, n) + rest;
      b[0] == c.frameType && b[1] == c.modulation && GetU16(b[2..]) == n && GetI16(b[4..]) == c.threshold && b[6..] == rest
  {
    var b := ConstellationHead(c, n) + rest;
    assert b[2..] == PutU16(n) + (PutI16(c.threshold) + rest);
    assert b[4..] == PutI16(c.threshold) + rest;
    U16RoundTrip(n, PutI16(c.threshold) + rest);
    I16RoundTrip(c.threshold, rest);
  }

  lemma ConstellationBody(r: Record)
    requires r.Constellation? && Wellformed(r) && Complete(r)
    ensures Body(2, Payload(r)) == Some(Carried(r))
  {
    var c, b := Carried(r), Payload(r);
    var n := |c.phase.value|;
    var phase, points := FlatMap(PutI16, c.phase.value), FlatMap(PutI16, c.points.value);
    WordsLength(c.phase.value);
    WordsLength(c.points.value);
    assert b == ConstellationHead(c, n) + (phase + points);
    HeadRead(c, n, phase + points);
    assert b[6 + 2 * n..] == b[6..][2 * n..] == points == points + [];
    WordsRoundTrip(c.phase.value, points);
    WordsRoundTrip(c.points.value, []);
  }

  lemma BodyRoundTrip(r: Record)
    requires Wellformed(r) && Complete(r)
    ensures Body(KindOf(r), Payload(r)) == Some(Carried(r))
  {
    match r
    case Spectrum(_) => SpectrumBody(r);
    case Constellation(_, _, _, _, _) => ConstellationBody(r);
    case Audio(_, _) => AudioBody(r);
    case Status(_, _, _, _, _, _, _, _) => StatusBody(r);
    case FrameSeen(_, _, _, _, _, _) => FrameBody(r);
  }

  /** A header and its payload, whatever the kind. */
  function Raw(kind: byte, payload: seq<byte>): (s: seq<byte>)
    requires |payload| < 0x1_0000
    ensures |s| == HEADER + |payload|
  {
    [kind] + PutU16(|payload|) + payload
  }

  /** A whole record is read by its own length, and whatever follows it is not looked at. */
  lemma RawIsRead(kind: byte, payload: seq<byte>, rest: seq<byte>)
    requires |payload| < 0x1_0000
    ensures Parse(Raw(kind, payload) + rest) ==
      match Body(kind, payload) case None => Skip(HEADER + |payload|) case Some(r) => Got(r, HEADER + |payload|)
  {
    var s := Raw(kind, payload) + rest;
    assert s[1..] == PutU16(|payload|) + (payload + rest);
    U16RoundTrip(|payload|, payload + rest);
    assert s[HEADER..HEADER + |payload|] == payload;
  }

  /** Any record that could be encoded reads back as itself. */
  lemma RecordRoundTrip(r: Record, cap: nat, rest: seq<byte>)
    requires Wellformed(r) && Encode(r, cap) != []
    ensures Parse(Encode(r, cap) + rest) == Got(Carried(r), |Encode(r, cap)|)
  {
    PayloadFits(r);
    BodyRoundTrip(r);
    RawIsRead(KindOf(r), Payload(r), rest);
  }

  /** A verdict on a whole record stands whatever arrives after it. */
  lemma VerdictStands(s: seq<byte>, more: seq<byte>)
    requires !Parse(s).Short?
    ensures Parse(s + more) == Parse(s)
  {
    var total := HEADER + GetU16(s[1..]);
    assert (s + more)[1..] == s[1..] + more;
    assert (s + more)[HEADER..total] == s[HEADER..total];
  }

  // --- streams ---

  /** A record for this reader, or any whole record it cannot make out: of a kind or a length it does not know. */
  datatype Item = Known(r: Record) | Foreign(kind: byte, payload: seq<byte>)

  predicate Sendable(x: Item) {
    match x
    case Known(r) => Wellformed(r) && Complete(r)
    case Foreign(kind, payload) => |payload| < 0x1_0000 && Body(kind, payload).None?
  }

  type Sent = x: Item | Sendable(x) witness Foreign(0, [])

  function ItemBytes(x: Sent): seq<byte> {
    match x
    case Known(r) => Encode(r, HEADER + |Payload(r)|)
    case Foreign(kind, payload) => Raw(kind, payload)
  }

  /** The records meant for this reader. */
  function Meant(xs: seq<Sent>): seq<Record> {
    if xs == [] then []
    else (if xs[0].Known? then [Carried(xs[0].r)] else []) + Meant(xs[1..])
  }

  /** Reading on and on: the records found, and what is left over. */
  function ReadAll(s: seq<byte>): (seq<Record>, seq<byte>)
    decreases |s|
  {
    match Parse(s)
    case Short => ([], s)
    case Skip(consumed) => ReadAll(s[consumed..])
    case Got(r, consumed) =>
      var later := ReadAll(s[consumed..]);
      ([r] + later.0, later.1)
  }

  /** `s` then `more`, read in two goes and at once. */
  predicate Splits(s: seq<byte>, more: seq<byte>) {
    var first := ReadAll(s);
    var second := ReadAll(first.1 + more);
    ReadAll(s + more) == (first.0 + second.0, second.1)
  }

  lemma ShortSplits(s: seq<byte>, more: seq<byte>)
    requires Parse(s).Short?
    ensures Splits(s, more)
  {
    assert [] + ReadAll(s + more).0 == ReadAll(s + more).0;
  }

  /** One record, read or passed over, makes no difference. */
  lemma OneMoreSplits(s: seq<byte>, more: seq<byte>)
    requires !Parse(s).Short? && Parse(s + more) == Parse(s) && Splits(s[Parse(s).consumed..], more)
    requires (s + more)[Parse(s).consumed..] == s[Parse(s).consumed..] + more
    ensures Splits(s, more)
  {
    if Parse(s).Got? {
      var first := ReadAll(s[Parse(s).consumed..]);
      var second := ReadAll(first.1 + more);
      assert [Parse(s).record] + (first.0 + second.0) == [Parse(s).record] + first.0 + second.0;
    }
  }

  /** Reading in two goes is reading at once, wherever the cut falls. */
  lemma {:induction false} ReadingSplits(s: seq<byte>, more: seq<byte>)
    ensures Splits(s, more)
    decreases |s|
  {
    if Parse(s).Short? {
      ShortSplits(s, more);
    } else {
      VerdictStands(s, more);
      var n := Parse(s).consumed;
      ReadingSplits(s[n..], more);
      assert (s + more)[n..] == s[n..] + more;
      OneMoreSplits(s, more);
    }
  }

  /**
   * Records interleaved with whole records of unknown kinds: the reader gets the same records,
   * in order, and nothing is left over.
   */
  lemma {:induction false} StreamRoundTrip(xs: seq<Sent>)
    ensures ReadAll(FlatMap(ItemBytes, xs)) == (Meant(xs), [])
  {
    if xs != [] {
      var x, rest := xs[0], FlatMap(ItemBytes, xs[1..]);
      StreamRoundTrip(xs[1..]);
      if x.Known? {
        PayloadFits(x.r);
        RecordRoundTrip(x.r, HEADER + |Payload(x.r)|, rest);
      } else {
        RawIsRead(x.kind, x.payload, rest);
      }
      var s := ItemBytes(x) + rest;
      assert FlatMap(ItemBytes, xs) == s && [] + Meant(xs[1..]) == Meant(xs[1..]);
      assert s[|ItemBytes(x)|..] == rest;
      assert Parse(s) == if x.Known? then Got(Carried(x.r), |ItemBytes(x)|) else Skip(|ItemBytes(x)|);
    }
  }

  // --- the hello ---

  function Hello(): (s: seq<byte>)
    ensures |s| == HELLO_LEN
  {
    PutU32(MAGIC) + PutU16(VERSION) + PutU16(MAG_BINS) + PutU16(FIRST_BIN) + PutU16(0) + PutU32(BIN_HZ)
  }

  /** Bin count, first bin and bin width, from a hello of this version. */
  function HelloParse(s: seq<byte>): Option<(u16, u16, u32)> {
    if |s| < HELLO_LEN || GetU32(s) != MAGIC || GetU16(s[4..]) != VERSION then None
    else Some((GetU16(s[6..]), GetU16(s[8..]), GetU32(s[12..])))
  }

  lemma HelloRoundTrip(rest: seq<byte>)
    ensures HelloParse(Hello() + rest) == Some((MAG_BINS, FIRST_BIN, BIN_HZ))
  {
    var s := Hello() + rest;
    var a, b, c, d := PutU16(MAG_BINS), PutU16(FIRST_BIN), PutU16(0), PutU32(BIN_HZ) + rest;
    assert s == PutU32(MAGIC) + (PutU16(VERSION) + (a + (b + (c + d))));
    assert s[4..] == PutU16(VERSION) + (a + (b + (c + d)));
    assert s[6..] == a + (b + (c + d)) && s[8..] == b + (c + d) && s[12..] == d;
    U32RoundTrip(MAGIC, PutU16(VERSION) + (a + (b + (c + d))));
    U16RoundTrip(VERSION, a + (b + (c + d)));
    U16RoundTrip(MAG_BINS, b + (c + d));
    U16RoundTrip(FIRST_BIN, c + d);
    U32RoundTrip(BIN_HZ, rest);
  }
}
