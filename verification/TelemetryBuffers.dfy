/** The telemetry codec over buffers: cursors and loops, against the functions of `Telemetry`. */
module TelemetryBuffers {
  import opened Bytes
  import opened Telemetry
  import WireBuffers

  method PutSigned(w: WireBuffers.Writer, v: i16)
    requires w.Valid() && w.p + 2 <= w.buf.Length
    modifies w, w.buf
    ensures w.Valid() && w.Written() == old(w.Written()) + PutI16(v) && w.p == old(w.p) + 2
  {
    w.PutWord16(if v < 0 then v + 0x1_0000 else v);
  }

  method PutWords(w: WireBuffers.Writer, vs: seq<i16>)
    requires w.Valid() && w.p + 2 * |vs| <= w.buf.Length
    modifies w, w.buf
    ensures w.Valid() && w.Written() == old(w.Written()) + FlatMap(PutI16, vs)
    ensures w.p == old(w.p) + 2 * |vs|
  {
    var i := 0;
    assert vs[..0] == [];
    while i < |vs|
      invariant 0 <= i <= |vs| && w.Valid() && w.p == old(w.p) + 2 * i
      invariant w.Written() == old(w.Written()) + FlatMap(PutI16, vs[..i])
    {
      FlatMapAppends(PutI16, vs[..i], vs[i]);
      assert vs[..i + 1] == vs[..i] + [vs[i]];
      PutSigned(w, vs[i]);
      i := i + 1;
    }
    assert vs[..i] == vs;
  }

  method PutLongs(w: WireBuffers.Writer, vs: seq<u32>)
    requires w.Valid() && w.p + 4 * |vs| <= w.buf.Length
    modifies w, w.buf
    ensures w.Valid() && w.Written() == old(w.Written()) + FlatMap(PutU32, vs)
    ensures w.p == old(w.p) + 4 * |vs|
  {
    var i := 0;
    assert vs[..0] == [];
    while i < |vs|
      invariant 0 <= i <= |vs| && w.Valid() && w.p == old(w.p) + 4 * i
      invariant w.Written() == old(w.Written()) + FlatMap(PutU32, vs[..i])
    {
      FlatMapAppends(PutU32, vs[..i], vs[i]);
      assert vs[..i + 1] == vs[..i] + [vs[i]];
      w.PutWord32(vs[i]);
      i := i + 1;
    }
    assert vs[..i] == vs;
  }

  method GetWordsInto(buf: array<byte>, at: nat, n: nat, dst: array<i16>)
    requires at + 2 * n <= buf.Length && n <= dst.Length
    modifies dst
    ensures dst[..n] == GetWords(buf[at..at + 2 * n], n)
  {
    var i := 0;
    ghost var all := GetWords(buf[at..at + 2 * n], n);
    while i < n
      invariant 0 <= i <= n && dst[..i] == all[..i]
      invariant all[i..] == GetWords(buf[at + 2 * i..at + 2 * n], n - i)
    {
      ghost var done := dst[..i];
      assert buf[at + 2 * i..at + 2 * n][2..] == buf[at + 2 * (i + 1)..at + 2 * n];
      var v := (buf[at + 2 * i] as int) + 0x100 * (buf[at + 2 * i + 1] as int);
      dst[i] := if v >= 0x8000 then v - 0x1_0000 else v;
      assert dst[..i + 1] == done + [dst[i]] && all[i] == all[i..][0] && all[i + 1..] == all[i..][1..];
      i := i + 1;
    }
  }

  method GetLongsInto(buf: array<byte>, at: nat, n: nat, dst: array<u32>)
    requires at + 4 * n <= buf.Length && n <= dst.Length
    modifies dst
    ensures dst[..n] == GetLongs(buf[at..at + 4 * n], n)
  {
    var i := 0;
    ghost var all := GetLongs(buf[at..at + 4 * n], n);
    while i < n
      invariant 0 <= i <= n && dst[..i] == all[..i]
      invariant all[i..] == GetLongs(buf[at + 4 * i..at + 4 * n], n - i)
    {
      ghost var done := dst[..i];
      assert buf[at + 4 * i..at + 4 * n][4..] == buf[at + 4 * (i + 1)..at + 4 * n];
      dst[i] := GetU32(buf[at + 4 * i..at + 4 * i + 4]);
      assert GetU32(buf[at + 4 * i..at + 4 * i + 4]) == GetU32(buf[at + 4 * i..at + 4 * n]);
      assert dst[..i + 1] == done + [dst[i]] && all[i] == all[i..][0] && all[i + 1..] == all[i..][1..];
      i := i + 1;
    }
  }

  /** The payload of a complete record, behind the place its header will take. */
  method PutPayload(w: WireBuffers.Writer, r: Record)
    requires Wellformed(r) && Complete(r) && w.Valid() && w.p + |Payload(r)| <= w.buf.Length
    modifies w, w.buf
    ensures w.Valid() && w.Written() == old(w.Written()) + Payload(r)
  {
    match r {
      case Spectrum(mag) =>
        LongsLength(mag.value);
        PutLongs(w, mag.value);
      case Constellation(_, _, _, _, _) => PutConstellation(w, r);
      case Audio(rms, peak) =>
        w.PutWord32(rms);
        w.PutWord32(peak);
      case Status(_, _, _, _, _, _, _, _) => PutStatus(w, r);
      case FrameSeen(_, _, _, _, _, _) => PutFrame(w, r);
    }
  }

  method PutConstellation(w: WireBuffers.Writer, r: Record)
    requires Wellformed(r) && Complete(r) && r.Constellation? && w.Valid() && w.p + |Payload(r)| <= w.buf.Length
    modifies w, w.buf
    ensures w.Valid() && w.Written() == old(w.Written()) + Payload(r)
  {
    var n := Min(|r.phase.value|, MAX_POINTS);
    WordsLength(r.phase.value[..n]);
    WordsLength(r.points.value[..n]);
    PutHead(w, r, n);
    PutWords(w, r.phase.value[..n]);
    PutWords(w, r.points.value[..n]);
    ConstellationParts(r, n, old(w.Written()));
  }

  lemma ConstellationParts(r: Record, n: nat, before: seq<byte>)
    requires Wellformed(r) && Complete(r) && r.Constellation? && n == Min(|r.phase.value|, MAX_POINTS)
    ensures before + ConstellationHead(r, n) + FlatMap(PutI16, r.phase.value[..n]) + FlatMap(PutI16, r.points.value[..n])
      == before + Payload(r)
  {
  }

  method PutHead(w: WireBuffers.Writer, r: Record, n: u16)
    requires r.Constellation? && w.Valid() && w.p + 6 <= w.buf.Length
    modifies w, w.buf
    ensures w.Valid() && w.Written() == old(w.Written()) + ConstellationHead(r, n) && w.p == old(w.p) + 6
  {
    w.PutBytes([r.frameType, r.modulation]);
    w.PutWord16(n);
    PutSigned(w, r.threshold);
  }

  method PutStatus(w: WireBuffers.Writer, r: Record)
    requires r.Status? && w.Valid() && w.p + |Payload(r)| <= w.buf.Length
    modifies w, w.buf
    ensures w.Valid() && w.Written() == old(w.Written()) + Payload(r)
  {
    w.PutBytes([r.state, r.mode, PutBool(r.busy), PutBool(r.ptt)]);
    PutSigned(w, r.sn);
    PutSigned(w, r.quality);
    PutSigned(w, r.bandwidth);
    w.PutWord32(r.bufferLen);
  }

  method PutFrame(w: WireBuffers.Writer, r: Record)
    requires r.FrameSeen? && w.Valid() && w.p + |Payload(r)| <= w.buf.Length
    modifies w, w.buf
    ensures w.Valid() && w.Written() == old(w.Written()) + Payload(r)
  {
    w.PutWord32(r.atHigh);
    w.PutWord32(r.atLow);
    w.PutBytes([r.frameType, r.dir]);
    PutSigned(w, r.quality);
    PutSigned(w, r.sn);
  }

  /** How long a record will be, header included. */
  function Need(r: Record): nat
    requires Wellformed(r) && Complete(r)
  {
    HEADER + match Carried(r)
      case Spectrum(_) => 4 * MAG_BINS
      case Constellation(_, _, _, phase, _) => 6 + 4 * |phase.value|
      case Audio(_, _) => 8
      case Status(_, _, _, _, _, _, _, _) => 14
      case FrameSeen(_, _, _, _, _, _) => 14
  }

  lemma NeedIsLength(r: Record)
    requires Wellformed(r) && Complete(r)
    ensures Need(r) == HEADER + |Payload(r)|
  {
    match Carried(r)
    case Spectrum(mag) => LongsLength(mag.value);
    case Constellation(_, _, _, phase, points) =>
      WordsLength(phase.value);
      WordsLength(points.value);
    case _ =>
  }

  /** Serialise one record: the payload first, and the header once its length is known. */
  method EncodeInto(r: Record, out: array<byte>, cap: nat) returns (n: nat)
    requires Wellformed(r) && cap <= out.Length
    modifies out
    ensures n == |Encode(r, cap)| && (n > 0 ==> out[..n] == Encode(r, cap))
  {
    if !Complete(r) {
      return 0;
    }
    NeedIsLength(r);
    PayloadFits(r);
    if cap < Need(r) {
      return 0;
    }
    var w := new WireBuffers.Writer(out);
    w.PutBytes([0, 0, 0]);
    PutPayload(w, r);
    n := w.p;
    assert out[..n] == [0, 0, 0] + Payload(r);
    assert out[HEADER..n] == Payload(r);
    Head(out, n, KindOf(r));
  }

  /** Fill in the header of a record of `n` bytes. */
  method Head(out: array<byte>, n: nat, kind: byte)
    requires HEADER <= n <= out.Length && n - HEADER < 0x1_0000
    modifies out
    ensures out[..n] == Raw(kind, old(out[HEADER..n]))
  {
    ghost var payload := out[HEADER..n];
    out[0] := kind;
    out[1] := (n - HEADER) % 0x100;
    out[2] := (n - HEADER) / 0x100;
    assert out[HEADER..n] == payload;
    assert out[..n] == [out[0], out[1], out[2]] + out[HEADER..n];
  }

  /** Parse one record, its arrays going into the caller's. */
  method ParseFrom(buf: array<byte>, avail: nat, mag: array<u32>, phase: array<i16>, points: array<i16>) returns (v: Verdict)
    requires avail <= buf.Length && phase != points
    requires mag.Length == MAG_BINS && phase.Length == points.Length == MAX_POINTS
    modifies mag, phase, points
    ensures v == Parse(buf[..avail])
  {
    ghost var s := buf[..avail];
    if avail < HEADER {
      return Short;
    }
    var kind := buf[0];
    var size := (buf[1] as int) + 0x100 * (buf[2] as int);
    var total := HEADER + size;
    if avail < total {
      return Short;
    }
    ghost var b := s[HEADER..total];
    if kind == 1 {
      if size != MAG_BINS * 4 {
        return Skip(total);
      }
      GetLongsInto(buf, HEADER, MAG_BINS, mag);
      assert buf[HEADER..HEADER + 4 * MAG_BINS] == b && mag[..MAG_BINS] == mag[..];
      return Got(Spectrum(Some(mag[..])), total);
    }
    if kind == 2 {
      assert buf[HEADER..HEADER + size] == b;
      v := ParseConstellation(buf, size, phase, points);
      return;
    }
    assert buf[HEADER..total] == b;
    var body := Body(kind, buf[HEADER..total]);
    return if body.None? then Skip(total) else Got(body.value, total);
  }

  method ParseConstellation(buf: array<byte>, size: nat, phase: array<i16>, points: array<i16>) returns (v: Verdict)
    requires HEADER + size <= buf.Length && phase != points && phase.Length == points.Length == MAX_POINTS
    modifies phase, points
    ensures v == match Body(2, buf[HEADER..HEADER + size])
      case None => Skip(HEADER + size) case Some(r) => Got(r, HEADER + size)
  {
    if size < 6 {
      return Skip(HEADER + size);
    }
    var n: nat := (buf[HEADER + 2] as int) + 0x100 * (buf[HEADER + 3] as int);
    if n > MAX_POINTS || size != 6 + n * 4 {
      return Skip(HEADER + size);
    }
    PointsInto(buf, n, phase, points);
    var threshold := GetI16(buf[HEADER + 4..HEADER + 6]);
    v := Got(Constellation(buf[HEADER], buf[HEADER + 1], threshold, Some(phase[..n]), Some(points[..n])), HEADER + size);
  }

  /** The two runs of words after a constellation's head. */
  method PointsInto(buf: array<byte>, n: nat, phase: array<i16>, points: array<i16>)
    requires HEADER + 6 + 4 * n <= buf.Length && phase != points && n <= phase.Length == points.Length
    modifies phase, points
    ensures var b := buf[HEADER..HEADER + 6 + 4 * n];
      phase[..n] == GetWords(b[6..], n) && points[..n] == GetWords(b[6 + 2 * n..], n)
  {
    ghost var b := buf[HEADER..HEADER + 6 + 4 * n];
    GetWordsInto(buf, HEADER + 6, n, phase);
    GetWordsInto(buf, HEADER + 6 + 2 * n, n, points);
    WordsLookNoFurther(b[6..], n);
    Within(buf[..], HEADER, 6 + 4 * n, 6, 2 * n);
    Within(buf[..], HEADER, 6 + 4 * n, 6 + 2 * n, 2 * n);
  }

  lemma Within(s: seq<byte>, at: nat, len: nat, from: nat, n: nat)
    requires at + len <= |s| && from + n <= len
    ensures s[at..at + len][from..][..n] == s[at + from..at + from + n]
    ensures from + n == len ==> s[at..at + len][from..] == s[at + from..at + from + n]
  {
  }

  lemma {:induction false} WordsLookNoFurther(s: seq<byte>, n: nat)
    requires |s| >= 2 * n
    ensures GetWords(s, n) == GetWords(s[..2 * n], n)
  {
    if n > 0 {
      WordsLookNoFurther(s[2..], n - 1);
      assert s[2..][..2 * (n - 1)] == s[..2 * n][2..];
    }
  }
}
