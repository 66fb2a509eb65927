/** ASP/1 on the wire: varints, frames and the payload of every message. */
module Wire {
  import opened Bytes

  const MAX_PAYLOAD := 4096
  const MAX_MESSAGE := 1 + 4 + MAX_PAYLOAD
  const VARINT_MAX := 4
  const MAX_NAME := 255
  const MAX_CALL := 32
  const MAX_CONTENT_TYPE := 63
  const MAGIC: seq<byte> := [0x41, 0x53, 0x50, 0x2f, 0x31]  // "ASP/1"
  const VERSION: byte := 1
  const CAP_FILES: u32 := 1
  const CAP_RESUME: u32 := 2

  // --- varints: unsigned LEB128, section 7.6 of DWARF 5, capped at four bytes ---

  /** The canonical LEB128 form of `v`, however long. */
  function Leb(v: nat): (s: seq<byte>)
    ensures |s| >= 1
  {
    if v < 0x80 then [v] else [v % 0x80 + 0x80] + Leb(v / 0x80)
  }

  /** What a run of LEB128 bytes stands for: seven bits a byte, low group first. */
  function LebValue(s: seq<byte>): nat {
    if s == [] then 0 else s[0] % 0x80 + 0x80 * LebValue(s[1..])
  }

  /** Read a varint of at most `limit` bytes: its value and its length. */
  function VarintGet(s: seq<byte>, limit: nat): Option<(nat, nat)>
    decreases limit
  {
    if limit == 0 || s == [] then None
    else if s[0] < 0x80 then Some((s[0] as nat, 1))
    else match VarintGet(s[1..], limit - 1)
      case None => None
      case Some(p) => Some(((s[0] - 0x80) as int + 0x80 * p.0, p.1 + 1))
  }

  /** The position of the byte that ends a varint. */
  ghost predicate EndsVarint(s: seq<byte>, n: nat) {
    1 <= n <= |s| && s[n - 1] < 0x80 && forall i :: 0 <= i < n - 1 ==> s[i] >= 0x80
  }

  /** The reader accepts exactly the LEB128 runs of at most `limit` bytes, with their value. */
  lemma {:induction false} VarintMeaning(s: seq<byte>, limit: nat, v: nat, n: nat)
    ensures VarintGet(s, limit) == Some((v, n)) <==> n <= limit && EndsVarint(s, n) && v == LebValue(s[..n])
    decreases limit
  {
    if limit > 0 && s != [] {
      if s[0] < 0x80 {
        if EndsVarint(s, n) {
          assert n == 1;
        }
        assert LebValue(s[..1]) == s[0] + 0x80 * LebValue(s[..1][1..]);
      } else if n > 0 {
        var t := s[1..];
        if n <= |s| {
          assert s[..n][1..] == t[..n - 1];
        }
        if EndsVarint(t, n - 1) {
          assert forall i :: 0 <= i < n - 1 ==> s[i] >= 0x80 by {
            forall i | 0 <= i < n - 1
              ensures s[i] >= 0x80
            {
              if i > 0 { assert s[i] == t[i - 1]; }
            }
          }
        }
        if EndsVarint(s, n) {
          assert n > 1;
          assert forall i :: 0 <= i < n - 2 ==> t[i] == s[i + 1];
          assert EndsVarint(t, n - 1);
        }
        if n <= |s| && n >= 1 {
          var q := LebValue(t[..n - 1]);
          VarintMeaning(t, limit - 1, q, n - 1);
        }
        match VarintGet(t, limit - 1)
        case None =>
        case Some(p) =>
          VarintMeaning(t, limit - 1, p.0, p.1);
      }
    }
  }

  /** Bytes a varint of value `v` takes. */
  lemma LebLength(v: nat)
    ensures v < 0x80 ==> |Leb(v)| == 1
    ensures 0x80 <= v < 0x4000 ==> |Leb(v)| == 2
  {
  }

  /** What was written is read back, whatever follows, as long as it is short enough. */
  lemma {:induction false} LebRoundTrip(v: nat, rest: seq<byte>, limit: nat)
    requires |Leb(v)| <= limit
    ensures VarintGet(Leb(v) + rest, limit) == Some((v, |Leb(v)|))
    decreases limit
  {
    if v >= 0x80 {
      LebRoundTrip(v / 0x80, rest, limit - 1);
      assert (Leb(v) + rest)[1..] == Leb(v / 0x80) + rest;
    }
  }

  /** A varint that has been read is not read differently once more bytes arrive. */
  lemma {:induction false} VarintStable(s: seq<byte>, t: seq<byte>, limit: nat)
    requires VarintGet(s, limit).Some?
    ensures VarintGet(s + t, limit) == VarintGet(s, limit)
    ensures VarintGet(s, limit).value.1 <= |s|
    decreases limit
  {
    if s[0] >= 0x80 {
      VarintStable(s[1..], t, limit - 1);
      assert (s + t)[1..] == s[1..] + t;
    }
  }

  /** Enough bytes to refuse a varint are enough for good. */
  lemma {:induction false} VarintRefusalStable(s: seq<byte>, t: seq<byte>, limit: nat)
    requires VarintGet(s, limit).None? && |s| >= limit
    ensures VarintGet(s + t, limit).None?
    decreases limit
  {
    if limit > 0 {
      VarintRefusalStable(s[1..], t, limit - 1);
      assert (s + t)[1..] == s[1..] + t;
    }
  }

  lemma {:induction false} VarintUsed(s: seq<byte>, limit: nat)
    requires VarintGet(s, limit).Some?
    ensures 1 <= VarintGet(s, limit).value.1 <= limit
    decreases limit
  {
    if s[0] >= 0x80 {
      VarintUsed(s[1..], limit - 1);
    }
  }

  // --- frames ---

  datatype FrameResult =
    | Ok(kind: byte, payload: seq<byte>, consumed: nat)
    | Short
    | Malformed

  /** One message on the wire: its type, its length, its payload. */
  function Frame(kind: byte, payload: seq<byte>): (s: seq<byte>)
    ensures |s| >= 2 + |payload| && s[0] == kind
  {
    [kind] + Leb(|payload|) + payload
  }

  /** Read one message from the front of `s`. */
  function FrameGet(s: seq<byte>): (r: FrameResult)
    ensures r.Ok? ==> 2 <= r.consumed <= |s| && r.consumed <= MAX_MESSAGE && |r.payload| <= MAX_PAYLOAD
  {
    if |s| < 1 then Short
    else if s[0] == 0 then Malformed
    else match VarintGet(s[1..], VARINT_MAX)
      case None => if |s| - 1 < VARINT_MAX then Short else Malformed
      case Some(p) =>
        VarintUsed(s[1..], VARINT_MAX);
        var total := 1 + p.1 + p.0;
        if p.0 > MAX_PAYLOAD then Malformed
        else if |s| < total then Short
        else Ok(s[0], s[1 + p.1..total], total)
  }

  lemma FrameLength(kind: byte, payload: seq<byte>)
    requires |payload| <= MAX_PAYLOAD
    ensures |Frame(kind, payload)| == 1 + |Leb(|payload|)| + |payload|
    ensures |Leb(|payload|)| <= 2 && |Frame(kind, payload)| <= MAX_MESSAGE
  {
    LebLength(|payload|);
  }

  /** Every legal message reads back from the front of any stream it starts. */
  lemma FrameRoundTrip(kind: byte, payload: seq<byte>, rest: seq<byte>)
    requires kind != 0 && |payload| <= MAX_PAYLOAD
    ensures FrameGet(Frame(kind, payload) + rest) == Ok(kind, payload, |Frame(kind, payload)|)
  {
    var s := Frame(kind, payload) + rest;
    FrameLength(kind, payload);
    LebRoundTrip(|payload|, payload + rest, VARINT_MAX);
    assert s[1..] == Leb(|payload|) + (payload + rest);
  }

  /** A verdict, once reached, does not depend on the bytes that follow. */
  lemma FrameVerdictStable(s: seq<byte>, t: seq<byte>)
    requires !FrameGet(s).Short?
    ensures FrameGet(s + t) == FrameGet(s)
  {
    assert (s + t)[1..] == s[1..] + t;
    match VarintGet(s[1..], VARINT_MAX)
    case None =>
      if s[0] != 0 {
        VarintRefusalStable(s[1..], t, VARINT_MAX);
      }
    case Some(p) =>
      VarintStable(s[1..], t, VARINT_MAX);
      var total := 1 + p.1 + p.0;
      if total <= |s| {
        assert (s + t)[1 + p.1..total] == s[1 + p.1..total];
      }
  }

  /** An unfinished message always fits the receive buffer with room to spare. */
  lemma ShortIsBounded(s: seq<byte>)
    requires FrameGet(s).Short?
    ensures |s| < MAX_MESSAGE
  {
    if |s| >= 1 && VarintGet(s[1..], VARINT_MAX).Some? {
      VarintUsed(s[1..], VARINT_MAX);
    }
  }

  /** Before its last byte arrives, a message is unfinished and nothing worse. */
  lemma PartOfFrameIsShort(kind: byte, payload: seq<byte>, k: nat)
    requires kind != 0 && |payload| <= MAX_PAYLOAD && k < |Frame(kind, payload)|
    ensures FrameGet(Frame(kind, payload)[..k]).Short?
  {
    var f := Frame(kind, payload);
    if !FrameGet(f[..k]).Short? {
      FrameVerdictStable(f[..k], f[k..]);
      assert f[..k] + f[k..] == f == f + [];
      FrameRoundTrip(kind, payload, []);
    }
  }

  // --- payload pieces ---

  function PutStr(s: seq<byte>, max: nat): seq<byte>
    requires max < 0x100
  {
    [Min(|s|, max)] + Clip(s, max)
  }

  /** A length-prefixed string, as a C reader of the copy sees it, and what follows it. */
  function GetStr(s: seq<byte>, cap: nat): Option<(seq<byte>, seq<byte>)> {
    if s == [] then None
    else
      var n: nat := s[0];
      if |s| - 1 < n || n >= cap then None else Some((CString(s[1..1 + n]), s[1 + n..]))
  }

  lemma StrRoundTrip(s: seq<byte>, max: nat, rest: seq<byte>)
    requires max < 0x100 && 0 !in s
    ensures GetStr(PutStr(s, max) + rest, max + 1) == Some((Clip(s, max), rest))
  {
    var t := PutStr(s, max) + rest;
    var n := Min(|s|, max);
    assert t[1..1 + n] == Clip(s, max) && t[1 + n..] == rest;
  }

  // --- messages ---

  datatype Message =
    | Hello(version: byte, caps: u32, call: seq<byte>)
    | Text(text: seq<byte>)
    | Offer(id: u16, size: u32, crc: u32, name: seq<byte>, contentType: seq<byte>)
    | Accept(id: u16, have: u32, prefixCrc: u32)
    | Reject(id: u16, code: byte)
    | Start(id: u16, from: u32)
    | Data(bytes: seq<byte>)
    | Done(id: u16)
    | Result(id: u16, code: byte)
    | Cancel(id: u16, code: byte)

  const HELLO: byte := 0x01
  const BYE: byte := 0x02
  const TEXT: byte := 0x10
  const TEXT_B: byte := 0x11
  const OFFER: byte := 0x20
  const ACCEPT: byte := 0x21
  const REJECT: byte := 0x22
  const START: byte := 0x23
  const DATA: byte := 0x24
  const DONE: byte := 0x25
  const RESULT: byte := 0x26
  const CANCEL: byte := 0x27

  function Kind(m: Message): (k: byte)
    ensures k != 0
  {
    match m
    case Hello(_, _, _) => HELLO
    case Text(_) => TEXT
    case Offer(_, _, _, _, _) => OFFER
    case Accept(_, _, _) => ACCEPT
    case Reject(_, _) => REJECT
    case Start(_, _) => START
    case Data(_) => DATA
    case Done(_) => DONE
    case Result(_, _) => RESULT
    case Cancel(_, _) => CANCEL
  }

  function Payload(m: Message): seq<byte> {
    match m
    case Hello(version, caps, call) => MAGIC + [version] + PutU32(caps) + PutStr(call, MAX_CALL - 1)
    case Text(text) => text
    case Offer(id, size, crc, name, contentType) =>
      PutU16(id) + PutU32(size) + PutU32(crc) + PutStr(name, MAX_NAME) + PutStr(contentType, MAX_CONTENT_TYPE)
    case Accept(id, have, prefixCrc) => PutU16(id) + PutU32(have) + PutU32(prefixCrc)
    case Reject(id, code) => PutU16(id) + [code]
    case Start(id, from) => PutU16(id) + PutU32(from)
    case Data(bytes) => bytes
    case Done(id) => PutU16(id)
    case Result(id, code) => PutU16(id) + [code]
    case Cancel(id, code) => PutU16(id) + [code]
  }

  /** What the senders in this program ever put in a message. */
  predicate Legal(m: Message) {
    match m
    case Hello(_, _, call) => |call| < MAX_CALL && 0 !in call
    case Offer(_, _, _, name, contentType) =>
      |name| <= MAX_NAME && 0 !in name && |contentType| <= MAX_CONTENT_TYPE && 0 !in contentType
    case Text(text) => |text| <= MAX_PAYLOAD
    case Data(bytes) => 0 < |bytes| <= MAX_PAYLOAD
    case _ => true
  }

  function HelloGet(p: seq<byte>): Option<Message> {
    if |p| < |MAGIC| + 6 || p[..|MAGIC|] != MAGIC then None
    else match GetStr(p[10..], MAX_CALL)
      case None => None
      case Some(s) => Some(Hello(p[5], GetU32(p[6..]), s.0))
  }

  function OfferGet(p: seq<byte>): Option<Message> {
    if |p| < 10 then None
    else match GetStr(p[10..], MAX_NAME + 1)
      case None => None
      case Some(name) =>
        match GetStr(name.1, MAX_CONTENT_TYPE + 1)
        case None => None
        case Some(kind) => Some(Offer(GetU16(p), GetU32(p[2..]), GetU32(p[6..]), name.0, kind.0))
  }

  function AcceptGet(p: seq<byte>): Option<Message> {
    if |p| < 10 then None else Some(Accept(GetU16(p), GetU32(p[2..]), GetU32(p[6..])))
  }

  /** REJECT, RESULT and CANCEL share a shape: an id, then a one-byte code. */
  function IdCodeGet(p: seq<byte>): Option<(u16, byte)> {
    if |p| < 3 then None else Some((GetU16(p), p[2]))
  }

  function StartGet(p: seq<byte>): Option<Message> {
    if |p| < 6 then None else Some(Start(GetU16(p), GetU32(p[2..])))
  }

  function DoneGet(p: seq<byte>): Option<Message> {
    if |p| < 2 then None else Some(Done(GetU16(p)))
  }

  /** The FEC broadcast form: callsign, message id, text. */
  function TextBPut(call: seq<byte>, msgId: u16, text: seq<byte>): seq<byte> {
    PutStr(call, MAX_CALL - 1) + PutU16(msgId) + text
  }

  function TextBGet(p: seq<byte>): Option<(seq<byte>, u16, seq<byte>)> {
    match GetStr(p, MAX_CALL)
    case None => None
    case Some(s) =>
      if |s.1| < 2 || |s.1| - 2 > MAX_PAYLOAD then None else Some((s.0, GetU16(s.1), s.1[2..]))
  }

  /** The message a payload of a known type carries, when it carries one. */
  function Decode(kind: byte, p: seq<byte>): Option<Message> {
    if kind == HELLO then HelloGet(p)
    else if kind == TEXT then Some(Text(p))
    else if kind == OFFER then OfferGet(p)
    else if kind == ACCEPT then AcceptGet(p)
    else if kind == START then StartGet(p)
    else if kind == DATA then Some(Data(p))
    else if kind == DONE then DoneGet(p)
    else if kind == REJECT || kind == RESULT || kind == CANCEL then
      match IdCodeGet(p)
      case None => None
      case Some(ic) =>
        Some(if kind == REJECT then Reject(ic.0, ic.1) else if kind == RESULT then Result(ic.0, ic.1) else Cancel(ic.0, ic.1))
    else None
  }

  lemma TextBRoundTrip(call: seq<byte>, msgId: u16, text: seq<byte>)
    requires 0 !in call && |text| <= MAX_PAYLOAD
    ensures TextBGet(TextBPut(call, msgId, text)) == Some((Clip(call, MAX_CALL - 1), msgId, text))
  {
    var p := TextBPut(call, msgId, text);
    assert p == PutStr(call, MAX_CALL - 1) + (PutU16(msgId) + text);
    StrRoundTrip(call, MAX_CALL - 1, PutU16(msgId) + text);
    U16RoundTrip(msgId, text);
    assert (PutU16(msgId) + text)[2..] == text;
  }

  lemma IdFirst(id: u16, rest: seq<byte>)
    ensures GetU16(PutU16(id) + rest) == id && (PutU16(id) + rest)[2..] == rest
  {
    U16RoundTrip(id, rest);
  }

  lemma WordFirst(v: u32, rest: seq<byte>)
    ensures GetU32(PutU32(v) + rest) == v && (PutU32(v) + rest)[4..] == rest
  {
    U32RoundTrip(v, rest);
  }

  lemma HelloRoundTrip(m: Message)
    requires m.Hello? && Legal(m)
    ensures HelloGet(Payload(m)) == Some(m)
  {
    var p := Payload(m);
    var s := PutStr(m.call, MAX_CALL - 1);
    assert p[..|MAGIC|] == MAGIC && p[5] == m.version;
    assert p[6..] == PutU32(m.caps) + s;
    WordFirst(m.caps, s);
    assert p[10..] == p[6..][4..] == s == s + [];
    assert Clip(m.call, MAX_CALL - 1) == m.call;
    StrRoundTrip(m.call, MAX_CALL - 1, []);
  }

  lemma OfferRoundTrip(m: Message)
    requires m.Offer? && Legal(m)
    ensures OfferGet(Payload(m)) == Some(m)
  {
    var p := Payload(m);
    var name, kind := PutStr(m.name, MAX_NAME), PutStr(m.contentType, MAX_CONTENT_TYPE);
    assert p == PutU16(m.id) + (PutU32(m.size) + (PutU32(m.crc) + (name + kind)));
    IdFirst(m.id, PutU32(m.size) + (PutU32(m.crc) + (name + kind)));
    WordFirst(m.size, PutU32(m.crc) + (name + kind));
    WordFirst(m.crc, name + kind);
    assert p[6..] == p[2..][4..] && p[10..] == p[6..][4..];
    assert Clip(m.name, MAX_NAME) == m.name && Clip(m.contentType, MAX_CONTENT_TYPE) == m.contentType;
    StrRoundTrip(m.name, MAX_NAME, kind);
    assert kind == kind + [];
    StrRoundTrip(m.contentType, MAX_CONTENT_TYPE, []);
  }

  lemma SmallRoundTrip(m: Message)
    requires !m.Hello? && !m.Offer?
    ensures Decode(Kind(m), Payload(m)) == Some(m)
  {
    match m
    case Accept(id, have, prefixCrc) =>
      var p := Payload(m);
      assert p == PutU16(id) + (PutU32(have) + PutU32(prefixCrc));
      IdFirst(id, PutU32(have) + PutU32(prefixCrc));
      WordFirst(have, PutU32(prefixCrc));
      assert PutU32(prefixCrc) == PutU32(prefixCrc) + [];
      U32RoundTrip(prefixCrc, []);
      assert p[6..] == p[2..][4..];
    case Start(id, from) =>
      IdFirst(id, PutU32(from));
      assert PutU32(from) == PutU32(from) + [];
      U32RoundTrip(from, []);
    case Done(id) =>
      assert PutU16(id) == PutU16(id) + [];
      U16RoundTrip(id, []);
    case Reject(id, code) => U16RoundTrip(id, [code]);
    case Result(id, code) => U16RoundTrip(id, [code]);
    case Cancel(id, code) => U16RoundTrip(id, [code]);
    case Text(_) =>
    case Data(_) =>
  }

  /** Every payload these stations queue parses back to the message that was meant. */
  lemma PayloadRoundTrip(m: Message)
    requires Legal(m)
    ensures Decode(Kind(m), Payload(m)) == Some(m) && |Payload(m)| <= MAX_PAYLOAD
  {
    if m.Hello? {
      HelloRoundTrip(m);
    } else if m.Offer? {
      OfferRoundTrip(m);
    } else {
      SmallRoundTrip(m);
    }
  }

  function Encode(m: Message): (s: seq<byte>)
    ensures |s| >= 2
  {
    Frame(Kind(m), Payload(m))
  }

  /** A HELLO's length takes one byte, so the magic is always at offset two. */
  predicate LooksLikeHello(s: seq<byte>) {
    |s| >= 2 + |MAGIC| && s[0] == HELLO && s[2..2 + |MAGIC|] == MAGIC
  }

  lemma HelloLooksLikeHello(m: Message, rest: seq<byte>)
    requires m.Hello? && Legal(m)
    ensures LooksLikeHello(Encode(m) + rest)
  {
    LebLength(|Payload(m)|);
    var s := Encode(m) + rest;
    assert s == [HELLO] + Leb(|Payload(m)|) + (Payload(m) + rest);
    assert s[2..] == Payload(m) + rest;
    assert s[2..2 + |MAGIC|] == Payload(m)[..|MAGIC|] == MAGIC;
  }

  // --- streams of messages ---

  function EncodeAll(ms: seq<Message>): seq<byte> {
    FlatMap(Encode, ms)
  }

  /**
   * Reading the front of a stream of legal messages, from any part of it that has arrived:
   * either the first message is there whole and is read as itself, or it is unfinished.
   */
  lemma StreamFront(ms: seq<Message>, arrived: seq<byte>, rest: seq<byte>)
    requires forall m :: m in ms ==> Legal(m)
    requires arrived + rest == EncodeAll(ms)
    ensures FrameGet(arrived).Short? || FrameGet(arrived).Ok?
    ensures FrameGet(arrived).Ok? ==>
      && ms != []
      && FrameGet(arrived) == Ok(Kind(ms[0]), Payload(ms[0]), |Encode(ms[0])|)
      && arrived[|Encode(ms[0])|..] + rest == EncodeAll(ms[1..])
  {
    if arrived != [] {
      var m := ms[0];
      var f, later := Encode(m), EncodeAll(ms[1..]);
      PayloadRoundTrip(m);
      if |arrived| < |f| {
        assert arrived == (arrived + rest)[..|arrived|] == (f + later)[..|arrived|] == f[..|arrived|];
        PartOfFrameIsShort(Kind(m), Payload(m), |arrived|);
      } else {
        var extra := arrived[|f|..];
        assert arrived[..|f|] == (arrived + rest)[..|f|] == (f + later)[..|f|] == f;
        assert arrived == f + extra;
        FrameRoundTrip(Kind(m), Payload(m), extra);
        assert extra + rest == (arrived + rest)[|f|..] == (f + later)[|f|..] == later;
      }
    }
  }
}
