/**
 * Inbound framing: how a stream cut into arbitrary chunks becomes a sequence of
 * dispatched messages. `ParseAll` is the reference (the whole stream in one piece);
 * `Receive` is what one call of the session does with one chunk.
 */
module Reassembly {
  import opened Bytes
  import opened Wire

  datatype Verdict = More | Ended | Broken | Overrun

  datatype Parsed = Parsed(seen: seq<(byte, seq<byte>)>, left: seq<byte>, verdict: Verdict)

  /** The messages that end a session, whatever state its transfers are in. */
  predicate EndsSession(kind: byte, payload: seq<byte>) {
    || kind == BYE
    || (kind == OFFER && OfferGet(payload).None?)
    || (kind == ACCEPT && AcceptGet(payload).None?)
    || (kind == START && StartGet(payload).None?)
    || (kind == DONE && DoneGet(payload).None?)
    || (kind == RESULT && IdCodeGet(payload).None?)
  }

  function Prepend(seen: seq<(byte, seq<byte>)>, p: Parsed): Parsed {
    p.(seen := seen + p.seen)
  }

  /** Read every whole message at the front of `s`, up to the first that ends the session. */
  function ParseAll(s: seq<byte>): (p: Parsed)
    ensures p.verdict != Overrun
    ensures p.verdict == More ==> FrameGet(p.left).Short? && |p.left| <= |s|
    decreases |s|
  {
    match FrameGet(s)
    case Short => Parsed([], s, More)
    case Malformed => Parsed([], s, Broken)
    case Ok(kind, payload, consumed) =>
      if EndsSession(kind, payload) then Parsed([(kind, payload)], s[consumed..], Ended)
      else Prepend([(kind, payload)], ParseAll(s[consumed..]))
  }

  /** One call with one chunk: fill the fixed buffer, take out what is whole, and go on. */
  function Receive(buf: seq<byte>, data: seq<byte>): Parsed
    decreases |data|
  {
    var take := Min(|data|, if |buf| <= MAX_MESSAGE then MAX_MESSAGE - |buf| else 0);
    if data == [] then Parsed([], buf, More)
    else if take == 0 then Parsed([], buf, Overrun)
    else
      var p := ParseAll(buf + data[..take]);
      if p.verdict != More then p else Prepend(p.seen, Receive(p.left, data[take..]))
  }

  /** Successive calls, stopping at the first that does not leave the session open. */
  function ReceiveAll(buf: seq<byte>, chunks: seq<seq<byte>>): Parsed
    decreases |chunks|
  {
    if chunks == [] then Parsed([], buf, More)
    else
      var p := Receive(buf, chunks[0]);
      if p.verdict != More then p else Prepend(p.seen, ReceiveAll(p.left, chunks[1..]))
  }

  function Flatten(chunks: seq<seq<byte>>): seq<byte> {
    if chunks == [] then [] else chunks[0] + Flatten(chunks[1..])
  }

  /** `s` then `t`, parsed in two goes and at once. */
  predicate Splits(s: seq<byte>, t: seq<byte>) {
    var p, q := ParseAll(s), ParseAll(s + t);
    if p.verdict == More then q == Prepend(p.seen, ParseAll(p.left + t)) else q.seen == p.seen && q.verdict == p.verdict
  }

  /** One message more makes no difference. */
  lemma OneMoreSplits(s: seq<byte>, t: seq<byte>)
    requires FrameGet(s).Ok? && FrameGet(s + t) == FrameGet(s) && (s + t)[FrameGet(s).consumed..] == s[FrameGet(s).consumed..] + t
    requires EndsSession(FrameGet(s).kind, FrameGet(s).payload) || Splits(s[FrameGet(s).consumed..], t)
    ensures Splits(s, t)
  {
    var f := FrameGet(s);
    if !EndsSession(f.kind, f.payload) {
      var p := ParseAll(s[f.consumed..]);
      PrependTwice([(f.kind, f.payload)], p.seen, ParseAll(p.left + t));
    }
  }

  lemma PrependTwice(seen: seq<(byte, seq<byte>)>, more: seq<(byte, seq<byte>)>, p: Parsed)
    ensures Prepend(seen, Prepend(more, p)) == Prepend(seen + more, p)
    ensures Prepend([], p) == p
  {
    assert seen + (more + p.seen) == seen + more + p.seen;
  }

  /** Parsing in two goes is parsing at once. */
  lemma {:induction false} ParseSplits(s: seq<byte>, t: seq<byte>)
    ensures Splits(s, t)
    decreases |s|
  {
    match FrameGet(s)
    case Short => PrependTwice([], [], ParseAll(s + t));
    case Malformed => FrameVerdictStable(s, t);
    case Ok(kind, payload, consumed) =>
      FrameVerdictStable(s, t);
      assert (s + t)[consumed..] == s[consumed..] + t;
      if !EndsSession(kind, payload) {
        ParseSplits(s[consumed..], t);
      }
      OneMoreSplits(s, t);
  }

  /** One chunk: the fixed-size buffer never overruns, and refilling it changes nothing. */
  lemma {:induction false} ReceiveIsParse(buf: seq<byte>, data: seq<byte>)
    requires FrameGet(buf).Short?
    ensures Receive(buf, data).seen == ParseAll(buf + data).seen
    ensures Receive(buf, data).verdict == ParseAll(buf + data).verdict
    ensures Receive(buf, data).verdict == More ==> Receive(buf, data).left == ParseAll(buf + data).left
    decreases |data|
  {
    ShortIsBounded(buf);
    if data == [] {
      assert buf + data == buf;
    } else {
      var take := Min(|data|, MAX_MESSAGE - |buf|);
      var s, t := buf + data[..take], data[take..];
      assert s + t == buf + data;
      ParseSplits(s, t);
      if ParseAll(s).verdict == More {
        ReceiveIsParse(ParseAll(s).left, t);
      }
    }
  }

  /**
   * However the stream is cut, the messages dispatched, up to and including the first that
   * ends the session, are those of the whole stream read in one piece.
   */
  lemma {:induction false} ChunkingIsInvisible(buf: seq<byte>, chunks: seq<seq<byte>>)
    requires FrameGet(buf).Short?
    ensures ReceiveAll(buf, chunks).seen == ParseAll(buf + Flatten(chunks)).seen
    ensures ReceiveAll(buf, chunks).verdict == ParseAll(buf + Flatten(chunks)).verdict
    ensures ReceiveAll(buf, chunks).verdict == More ==> ReceiveAll(buf, chunks).left == ParseAll(buf + Flatten(chunks)).left
    decreases |chunks|
  {
    if chunks == [] {
      assert buf + Flatten(chunks) == buf;
    } else {
      var s, t := buf + chunks[0], Flatten(chunks[1..]);
      assert s + t == buf + Flatten(chunks);
      ReceiveIsParse(buf, chunks[0]);
      ParseSplits(s, t);
      if Receive(buf, chunks[0]).verdict == More {
        ChunkingIsInvisible(Receive(buf, chunks[0]).left, chunks[1..]);
      }
    }
  }

  /** Between calls the buffer holds an unfinished message, shorter than the longest one. */
  lemma BufferStaysPartial(buf: seq<byte>, chunks: seq<seq<byte>>)
    requires FrameGet(buf).Short?
    ensures ReceiveAll(buf, chunks).verdict != Overrun
    ensures ReceiveAll(buf, chunks).verdict == More ==>
      FrameGet(ReceiveAll(buf, chunks).left).Short? && |ReceiveAll(buf, chunks).left| < MAX_MESSAGE
  {
    ChunkingIsInvisible(buf, chunks);
    if ReceiveAll(buf, chunks).verdict == More {
      ShortIsBounded(ReceiveAll(buf, chunks).left);
    }
  }

  /** `whole` is what `seen` already shows, and then the parse of what is in the buffer. */
  ghost predicate StillToParse(whole: Parsed, seen: seq<(byte, seq<byte>)>, inb: seq<byte>) {
    whole == Prepend(seen, ParseAll(inb))
  }

  lemma ParseOn(whole: Parsed, seen: seq<(byte, seq<byte>)>, inb: seq<byte>)
    ensures StillToParse(whole, seen, inb) ==>
      match FrameGet(inb)
      case Short => whole == Parsed(seen, inb, More)
      case Malformed => whole.seen == seen && whole.verdict == Broken
      case Ok(kind, payload, consumed) =>
        var now := seen + [(kind, payload)];
        if EndsSession(kind, payload) then whole.seen == now && whole.verdict == Ended
        else StillToParse(whole, now, inb[consumed..])
  {
    if FrameGet(inb).Ok? {
      var f, p := FrameGet(inb), ParseAll(inb[FrameGet(inb).consumed..]);
      assert seen + ([(f.kind, f.payload)] + p.seen) == seen + [(f.kind, f.payload)] + p.seen;
    }
  }

  function Pairs(ms: seq<Message>): seq<(byte, seq<byte>)> {
    if ms == [] then [] else [(Kind(ms[0]), Payload(ms[0]))] + Pairs(ms[1..])
  }

  /** What a station of this program sends never ends its peer's session. */
  lemma LegalKeepsSession(m: Message)
    requires Legal(m)
    ensures !EndsSession(Kind(m), Payload(m))
  {
    PayloadRoundTrip(m);
  }

  /** Legal messages, concatenated, parse back to the same list. */
  lemma {:induction false} ParseOfEncoded(ms: seq<Message>)
    requires forall m :: m in ms ==> Legal(m)
    ensures ParseAll(EncodeAll(ms)) == Parsed(Pairs(ms), [], More)
  {
    if ms != [] {
      var m := ms[0];
      PayloadRoundTrip(m);
      LegalKeepsSession(m);
      FrameRoundTrip(Kind(m), Payload(m), EncodeAll(ms[1..]));
      assert EncodeAll(ms)[|Encode(m)|..] == EncodeAll(ms[1..]);
      ParseOfEncoded(ms[1..]);
    }
  }
}
