/** The encoders and decoders at work on fixed buffers, through a moving cursor. */
module WireBuffers {
  import opened Bytes
  import opened Wire

  /** Write `v` at `at`, in at most `cap` bytes; nothing is reported written if it does not fit. */
  method VarintPut(out: array<byte>, at: nat, cap: nat, v: u32) returns (n: nat)
    requires at + cap <= out.Length
    modifies out
    ensures n == if |Leb(v)| <= Min(cap, VARINT_MAX) then |Leb(v)| else 0
    ensures n > 0 ==> out[at..at + n] == Leb(v)
    ensures forall i :: 0 <= i < out.Length && !(at <= i < at + cap) ==> out[i] == old(out[i])
  {
    n := 0;
    var left: nat := v;
    while true
      invariant n <= Min(cap, VARINT_MAX)
      invariant out[at..at + n] + Leb(left) == Leb(v)
      invariant forall i :: 0 <= i < out.Length && !(at <= i < at + cap) ==> out[i] == old(out[i])
      decreases cap - n
    {
      if n >= cap || n >= VARINT_MAX {
        n := 0;
        return;
      }
      var b := left % 0x80;
      var more := left / 0x80;
      ghost var before := out[at..at + n];
      out[at + n] := if more != 0 then b + 0x80 else b;
      assert out[at..at + n + 1] == before + [out[at + n]];
      n := n + 1;
      if more == 0 {
        assert Leb(left) == [left];
        return;
      }
      assert Leb(left) == [out[at + n - 1]] + Leb(more);
      left := more;
    }
  }

  function Power128(i: nat): nat {
    if i == 0 then 1 else 0x80 * Power128(i - 1)
  }

  lemma {:induction false} LebValueAppends(s: seq<byte>, b: byte)
    ensures LebValue(s + [b]) == LebValue(s) + (b % 0x80) * Power128(|s|)
  {
    if s == [] {
      assert (s + [b])[1..] == [];
    } else {
      assert (s + [b])[1..] == s[1..] + [b];
      LebValueAppends(s[1..], b);
      var low: nat, power: nat := b % 0x80, Power128(|s| - 1);
      assert 0x80 * (low * power) == low * (0x80 * power);
    }
  }

  /** The reader's loop: seven bits at a time until a byte without its high bit, four at most. */
  method VarintRead(buf: array<byte>, at: nat, end: nat) returns (r: Option<(nat, nat)>)
    requires at <= end <= buf.Length
    ensures r == VarintGet(buf[at..end], VARINT_MAX)
  {
    var acc: nat, scale: nat, i: nat := 0, 1, 0;
    ghost var s := buf[at..end];
    while i < end - at && i < VARINT_MAX
      invariant i <= |s| && i <= VARINT_MAX && scale == Power128(i)
      invariant acc == LebValue(s[..i])
      invariant forall j :: 0 <= j < i ==> s[j] >= 0x80
    {
      LebValueAppends(s[..i], s[i]);
      assert s[..i + 1] == s[..i] + [s[i]];
      acc := acc + (buf[at + i] % 0x80) * scale;
      if buf[at + i] < 0x80 {
        VarintMeaning(s, VARINT_MAX, acc, i + 1);
        return Some((acc, i + 1));
      }
      scale := scale * 0x80;
      i := i + 1;
    }
    match VarintGet(s, VARINT_MAX) {
      case None =>
      case Some(p) => VarintMeaning(s, VARINT_MAX, p.0, p.1);
    }
    return None;
  }

  /** Write one whole message into `out`, or report nothing written. */
  method FramePut(out: array<byte>, kind: byte, payload: seq<byte>) returns (n: nat)
    modifies out
    ensures n == if |payload| <= MAX_PAYLOAD && |Frame(kind, payload)| <= out.Length then |Frame(kind, payload)| else 0
    ensures n > 0 ==> out[..n] == Frame(kind, payload)
  {
    if |payload| > MAX_PAYLOAD {
      return 0;
    }
    FrameLength(kind, payload);
    if out.Length < 1 {
      return 0;
    }
    out[0] := kind;
    var k := VarintPut(out, 1, out.Length - 1, |payload|);
    if k == 0 || out.Length < 1 + k + |payload| {
      return 0;
    }
    ghost var head := out[..1 + k];
    assert head == [kind] + Leb(|payload|);
    forall i | 0 <= i < |payload| {
      out[1 + k + i] := payload[i];
    }
    n := 1 + k + |payload|;
    assert out[..1 + k] == head;
    assert out[1 + k..n] == payload;
    assert out[..n] == out[..1 + k] + out[1 + k..n];
  }

  /** Read one message from the first `avail` bytes of `buf`. */
  method FrameRead(buf: array<byte>, avail: nat) returns (r: FrameResult)
    requires avail <= buf.Length
    ensures r == FrameGet(buf[..avail])
  {
    ghost var s := buf[..avail];
    if avail < 1 {
      return Short;
    }
    if buf[0] == 0 {
      return Malformed;
    }
    assert s[1..] == buf[1..avail];
    var v := VarintRead(buf, 1, avail);
    if v.None? {
      return if avail - 1 < VARINT_MAX then Short else Malformed;
    }
    if v.value.0 > MAX_PAYLOAD {
      return Malformed;
    }
    var total := 1 + v.value.1 + v.value.0;
    if avail < total {
      return Short;
    }
    VarintUsed(s[1..], VARINT_MAX);
    assert s[1 + v.value.1..total] == buf[1 + v.value.1..total];
    return Ok(buf[0], buf[1 + v.value.1..total], total);
  }

  /** A cursor moving through a buffer of `cap` bytes. */
  class Writer {
    const buf: array<byte>
    var p: nat

    ghost predicate Valid()
      reads this
    {
      p <= buf.Length
    }

    ghost function Written(): seq<byte>
      requires Valid()
      reads this, buf
    {
      buf[..p]
    }

    constructor (buf: array<byte>)
      ensures Valid() && this.buf == buf && Written() == []
    {
      this.buf, p := buf, 0;
    }

    method PutByte(b: byte)
      requires Valid() && p < buf.Length
      modifies this, buf
      ensures Valid() && Written() == old(Written()) + [b]
    {
      ghost var before := Written();
      buf[p] := b;
      p := p + 1;
      assert Written() == before + [b];
    }

    method PutBytes(s: seq<byte>)
      requires Valid() && p + |s| <= buf.Length
      modifies this, buf
      ensures Valid() && Written() == old(Written()) + s
    {
      ghost var before := Written();
      forall i | 0 <= i < |s| {
        buf[p + i] := s[i];
      }
      assert buf[p..p + |s|] == s;
      p := p + |s|;
      assert Written() == before + s;
    }

    method PutWord16(v: u16)
      requires Valid() && p + 2 <= buf.Length
      modifies this, buf
      ensures Valid() && Written() == old(Written()) + PutU16(v)
    {
      PutByte(v % 0x100);
      PutByte(v / 0x100);
    }

    method PutWord32(v: u32)
      requires Valid() && p + 4 <= buf.Length
      modifies this, buf
      ensures Valid() && Written() == old(Written()) + PutU32(v)
    {
      PutByte(v % 0x100);
      PutByte(v / 0x100 % 0x100);
      PutByte(v / 0x1_0000 % 0x100);
      PutByte(v / 0x100_0000 % 0x100);
    }

    /** A length-prefixed string; false, and nothing written, if it does not fit. */
    method PutString(s: seq<byte>, max: nat) returns (ok: bool)
      requires Valid() && max < 0x100
      modifies this, buf
      ensures Valid() && ok == (old(p) + 1 + Min(|s|, max) <= buf.Length)
      ensures Written() == if ok then old(Written()) + PutStr(s, max) else old(Written())
    {
      var n := Min(|s|, max);
      if p + 1 + n > buf.Length {
        return false;
      }
      PutByte(n);
      PutBytes(s[..n]);
      return true;
    }
  }

  method HelloPut(out: array<byte>, m: Message) returns (n: nat)
    requires m.Hello?
    modifies out
    ensures n == if |Payload(m)| <= out.Length then |Payload(m)| else 0
    ensures n > 0 ==> out[..n] == Payload(m)
  {
    if out.Length < |MAGIC| + 6 {
      return 0;
    }
    var w := new Writer(out);
    w.PutBytes(MAGIC);
    w.PutByte(m.version);
    w.PutWord32(m.caps);
    var ok := w.PutString(m.call, MAX_CALL - 1);
    if !ok {
      return 0;
    }
    assert w.Written() == Payload(m);
    return w.p;
  }

  method OfferPut(out: array<byte>, m: Message) returns (n: nat)
    requires m.Offer?
    modifies out
    ensures n == if |Payload(m)| <= out.Length then |Payload(m)| else 0
    ensures n > 0 ==> out[..n] == Payload(m)
  {
    if out.Length < 10 {
      return 0;
    }
    var w := OfferHead(out, m);
    var ok := w.PutString(m.name, MAX_NAME);
    if !ok {
      return 0;
    }
    ok := w.PutString(m.contentType, MAX_CONTENT_TYPE);
    if !ok {
      return 0;
    }
    return w.p;
  }

  method OfferHead(out: array<byte>, m: Message) returns (w: Writer)
    requires m.Offer? && out.Length >= 10
    modifies out
    ensures fresh(w) && w.Valid() && w.buf == out
    ensures w.Written() == PutU16(m.id) + PutU32(m.size) + PutU32(m.crc)
  {
    w := new Writer(out);
    w.PutWord16(m.id);
    w.PutWord32(m.size);
    w.PutWord32(m.crc);
  }

  method AcceptPut(out: array<byte>, m: Message) returns (n: nat)
    requires m.Accept?
    modifies out
    ensures n == if |Payload(m)| <= out.Length then |Payload(m)| else 0
    ensures n > 0 ==> out[..n] == Payload(m)
  {
    if out.Length < 10 {
      return 0;
    }
    var w := new Writer(out);
    w.PutWord16(m.id);
    w.PutWord32(m.have);
    w.PutWord32(m.prefixCrc);
    return w.p;
  }

  method IdCodePut(out: array<byte>, m: Message) returns (n: nat)
    requires m.Reject? || m.Result? || m.Cancel?
    modifies out
    ensures n == if |Payload(m)| <= out.Length then |Payload(m)| else 0
    ensures n > 0 ==> out[..n] == Payload(m)
  {
    if out.Length < 3 {
      return 0;
    }
    var w := new Writer(out);
    w.PutWord16(m.id);
    w.PutByte(m.code);
    return w.p;
  }

  method StartPut(out: array<byte>, m: Message) returns (n: nat)
    requires m.Start?
    modifies out
    ensures n == if |Payload(m)| <= out.Length then |Payload(m)| else 0
    ensures n > 0 ==> out[..n] == Payload(m)
  {
    if out.Length < 6 {
      return 0;
    }
    var w := new Writer(out);
    w.PutWord16(m.id);
    w.PutWord32(m.from);
    return w.p;
  }

  method TextBPutInto(out: array<byte>, call: seq<byte>, msgId: u16, text: seq<byte>) returns (n: nat)
    modifies out
    ensures n == if |TextBPut(call, msgId, text)| <= out.Length then |TextBPut(call, msgId, text)| else 0
    ensures n > 0 ==> out[..n] == TextBPut(call, msgId, text)
  {
    var w := new Writer(out);
    var ok := w.PutString(call, MAX_CALL - 1);
    if !ok || w.p + 2 + |text| > out.Length {
      return 0;
    }
    w.PutWord16(msgId);
    w.PutBytes(text);
    assert w.Written() == TextBPut(call, msgId, text);
    return w.p;
  }
}
