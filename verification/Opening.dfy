/**
 * How a session opens: whether the peer speaks ASP at all is decided on the bytes that come
 * first, and this is where the cut of the stream can show. `Hear` is one call of the session
 * with one chunk, from the HELLO on; `Reference` reads the whole stream a message at a time.
 */
module Opening {
  import opened Bytes
  import opened Wire
  import opened AspSpec
  import opened Reassembly

  /** What a stream came to: the messages dispatched, the raw text shown, and where the session is. */
  datatype Heard = Heard(seen: seq<(byte, seq<byte>)>, raw: seq<byte>, link: LinkState, left: seq<byte>, verdict: Verdict)

  function After(seen: seq<(byte, seq<byte>)>, raw: seq<byte>, h: Heard): Heard {
    h.(seen := seen + h.seen, raw := raw + h.raw)
  }

  /** A HELLO that makes sense; any other leaves the session waiting for one. */
  predicate Opens(kind: byte, payload: seq<byte>) {
    kind == HELLO && HelloGet(payload).Some?
  }

  /** The link once these messages have been dispatched, none of them ending the session. */
  function LinkAfter(link: LinkState, seen: seq<(byte, seq<byte>)>): LinkState
    decreases |seen|
  {
    if seen == [] then link
    else LinkAfter(if link == HelloSent && Opens(seen[0].0, seen[0].1) then LinkState.Asp else link, seen[1..])
  }

  function FromParse(link: LinkState, p: Parsed): Heard {
    Heard(p.seen, [], if p.verdict == More then LinkAfter(link, p.seen) else Idle, p.left, p.verdict)
  }

  /** The first byte of a message decides; it is looked at only while nothing is held. */
  predicate TurnsRaw(link: LinkState, buf: seq<byte>, data: seq<byte>) {
    data != [] && (link == Raw || (link == HelloSent && buf == [] && data[0] != HELLO))
  }

  /** One call with one chunk. */
  function Hear(link: LinkState, buf: seq<byte>, data: seq<byte>): Heard
    decreases |data|
  {
    var take := Min(|data|, if |buf| <= MAX_MESSAGE then MAX_MESSAGE - |buf| else 0);
    if data == [] then Heard([], [], link, buf, More)
    else if TurnsRaw(link, buf, data) then Heard([], data, Raw, buf, More)
    else if take == 0 then Heard([], [], Idle, buf, Overrun)
    else
      var p := FromParse(link, ParseAll(buf + data[..take]));
      if p.verdict != More then p else After(p.seen, [], Hear(p.link, p.left, data[take..]))
  }

  /** Successive calls, up to the first that ends the session. */
  function HearAll(link: LinkState, buf: seq<byte>, chunks: seq<seq<byte>>): Heard
    decreases |chunks|
  {
    if chunks == [] then Heard([], [], link, buf, More)
    else
      var h := Hear(link, buf, chunks[0]);
      if h.verdict != More then h else After(h.seen, h.raw, HearAll(h.link, h.left, chunks[1..]))
  }

  /** The whole stream a message at a time: raw from the first that is no HELLO, unless one has made sense. */
  function Reference(s: seq<byte>): Heard
    decreases |s|
  {
    if s == [] then Heard([], [], HelloSent, [], More)
    else if s[0] != HELLO then Heard([], s, Raw, [], More)
    else match FrameGet(s)
      case Short => Heard([], [], HelloSent, s, More)
      case Malformed => Heard([], [], Idle, s, Broken)
      case Ok(kind, payload, consumed) =>
        if Opens(kind, payload) then FromParse(HelloSent, ParseAll(s))
        else After([(kind, payload)], [], Reference(s[consumed..]))
  }

  /**
   * One or more HELLO messages, none of which makes sense, and then a byte that is no HELLO's,
   * the last of them leaving room for that byte in the buffer.
   */
  predicate Ambiguous(s: seq<byte>)
    decreases |s|
  {
    var f := FrameGet(s);
    && f.Ok? && f.kind == HELLO && !Opens(f.kind, f.payload) && f.consumed < |s|
    && if s[f.consumed] != HELLO then f.consumed < MAX_MESSAGE else Ambiguous(s[f.consumed..])
  }

  /** The same messages, the same text, and the same session after them. */
  predicate Same(a: Heard, b: Heard) {
    a.seen == b.seen && a.raw == b.raw && a.link == b.link && a.verdict == b.verdict && (a.verdict == More ==> a.left == b.left)
  }

  lemma {:induction false} OpenStays(link: LinkState, seen: seq<(byte, seq<byte>)>)
    requires link != HelloSent
    ensures LinkAfter(link, seen) == link
    decreases |seen|
  {
    if seen != [] {
      OpenStays(link, seen[1..]);
    }
  }

  lemma {:induction false} LinkOn(link: LinkState, a: seq<(byte, seq<byte>)>, b: seq<(byte, seq<byte>)>)
    ensures LinkAfter(link, a + b) == LinkAfter(LinkAfter(link, a), b)
    decreases |a|
  {
    if a == [] {
      assert a + b == b;
    } else {
      assert (a + b)[1..] == a[1..] + b;
      LinkOn(if link == HelloSent && Opens(a[0].0, a[0].1) then LinkState.Asp else link, a[1..], b);
    }
  }

  lemma AfterTwice(seen: seq<(byte, seq<byte>)>, raw: seq<byte>, more: seq<(byte, seq<byte>)>, text: seq<byte>, h: Heard)
    ensures After(seen, raw, After(more, text, h)) == After(seen + more, raw + text, h)
    ensures After([], [], h) == h
  {
    assert seen + (more + h.seen) == seen + more + h.seen && raw + (text + h.raw) == raw + text + h.raw;
    assert [] + h.seen == h.seen && [] + h.raw == h.raw;
  }

  /** In a session that is open a call is what `Receive` makes of it. */
  lemma {:induction false} HearIsReceive(buf: seq<byte>, data: seq<byte>)
    ensures var h, r := Hear(LinkState.Asp, buf, data), Receive(buf, data);
      h == Heard(r.seen, [], if r.verdict == More then LinkState.Asp else Idle, r.left, r.verdict)
    decreases |data|
  {
    var take := Min(|data|, if |buf| <= MAX_MESSAGE then MAX_MESSAGE - |buf| else 0);
    if data != [] && take > 0 {
      var p := ParseAll(buf + data[..take]);
      OpenStays(LinkState.Asp, p.seen);
      if p.verdict == More {
        HearIsReceive(p.left, data[take..]);
      }
    }
  }

  // --- what one call does, as it goes ---

  /** The link after one more message. */
  function LinkOne(link: LinkState, kind: byte, payload: seq<byte>): LinkState {
    if EndsSession(kind, payload) then Idle else if link == HelloSent && Opens(kind, payload) then LinkState.Asp else link
  }

  lemma LinkOneMore(link: LinkState, seen: seq<(byte, seq<byte>)>, kind: byte, payload: seq<byte>)
    requires !EndsSession(kind, payload)
    ensures LinkAfter(link, seen + [(kind, payload)]) == LinkOne(LinkAfter(link, seen), kind, payload)
  {
    LinkOn(link, seen, [(kind, payload)]);
    assert [(kind, payload)][1..] == [];
  }

  /** `whole` is what `seen` already shows, and then what hearing `rest` shows. */
  ghost predicate StillToHear(whole: Heard, seen: seq<(byte, seq<byte>)>, link: LinkState, inb: seq<byte>, rest: seq<byte>) {
    whole == After(seen, [], Hear(link, inb, rest))
  }

  lemma HearRaw(whole: Heard, seen: seq<(byte, seq<byte>)>, link: LinkState, inb: seq<byte>, rest: seq<byte>)
    requires StillToHear(whole, seen, link, inb, rest) && TurnsRaw(link, inb, rest)
    ensures whole == Heard(seen, rest, Raw, inb, More)
  {
    assert seen + [] == seen && [] + rest == rest;
  }

  lemma HearFull(whole: Heard, seen: seq<(byte, seq<byte>)>, link: LinkState, inb: seq<byte>, rest: seq<byte>)
    requires StillToHear(whole, seen, link, inb, rest) && rest != [] && !TurnsRaw(link, inb, rest) && |inb| == MAX_MESSAGE
    ensures whole.seen == seen && whole.raw == [] && whole.verdict == Overrun
  {
    assert seen + [] == seen;
  }

  /** `whole` after one more piece, `p` being what the buffer showed of it. */
  ghost predicate Advances(whole: Heard, seen: seq<(byte, seq<byte>)>, p: Heard, rest: seq<byte>) {
    if p.verdict == More then StillToHear(whole, seen + p.seen, p.link, p.left, rest) && p.link != Idle
    else p.link == Idle && whole.seen == seen + p.seen && whole.raw == [] && whole.verdict == p.verdict
  }

  lemma HearPiece(whole: Heard, seen: seq<(byte, seq<byte>)>, link: LinkState, inb: seq<byte>, rest: seq<byte>, take: nat)
    requires StillToHear(whole, seen, link, inb, rest) && rest != [] && !TurnsRaw(link, inb, rest) && link != Idle
    requires |inb| <= MAX_MESSAGE && 0 < take == Min(|rest|, MAX_MESSAGE - |inb|)
    ensures Advances(whole, seen, FromParse(link, ParseAll(inb + rest[..take])), rest[take..])
  {
    var p := FromParse(link, ParseAll(inb + rest[..take]));
    if p.verdict == More {
      NeverIdle(link, p.seen);
      AfterTwice(seen, [], p.seen, [], Hear(p.link, p.left, rest[take..]));
    }
  }

  lemma {:induction false} NeverIdle(link: LinkState, seen: seq<(byte, seq<byte>)>)
    requires link != Idle
    ensures LinkAfter(link, seen) != Idle
    decreases |seen|
  {
    if seen != [] {
      NeverIdle(if link == HelloSent && Opens(seen[0].0, seen[0].1) then LinkState.Asp else link, seen[1..]);
    }
  }

  lemma NothingMore(whole: Heard, seen: seq<(byte, seq<byte>)>, link: LinkState, inb: seq<byte>)
    requires StillToHear(whole, seen, link, inb, [])
    ensures whole == Heard(seen, [], link, inb, More)
  {
    assert seen + [] == seen;
  }

  // --- a stream that is not ambiguous ---

  /** Where a session can be between calls. */
  predicate Between(link: LinkState, buf: seq<byte>) {
    && link != Idle && FrameGet(buf).Short?
    && (link == Raw ==> buf == []) && (link == HelloSent && buf != [] ==> buf[0] == HELLO)
  }

  /** What is left of the stream, from between two calls. */
  function Rest(link: LinkState, buf: seq<byte>, t: seq<byte>): Heard {
    match link
    case HelloSent => Reference(buf + t)
    case Raw => Heard([], t, Raw, buf, More)
    case _ => FromParse(link, ParseAll(buf + t))
  }

  predicate Clear(link: LinkState, buf: seq<byte>, t: seq<byte>) {
    link == HelloSent ==> !Ambiguous(buf + t)
  }

  /** `h` accounts for the front of a stream that as a whole comes to `whole`, `rest` of it still to come. */
  predicate Begins(whole: Heard, h: Heard, rest: seq<byte>) {
    if h.verdict == More then
      && Between(h.link, h.left) && Clear(h.link, h.left, rest)
      && whole == After(h.seen, h.raw, Rest(h.link, h.left, rest))
    else Same(whole, h)
  }

  /** An open session: `ParseSplits`. */
  lemma OpenPiece(x: seq<byte>, u: seq<byte>)
    ensures Begins(FromParse(LinkState.Asp, ParseAll(x + u)), FromParse(LinkState.Asp, ParseAll(x)), u)
  {
    var p := ParseAll(x);
    ParseSplits(x, u);
    OpenStays(LinkState.Asp, p.seen);
    if p.verdict == More {
      LinkOn(LinkState.Asp, p.seen, ParseAll(p.left + u).seen);
    }
  }

  /** The piece that holds the HELLO that makes sense. */
  lemma OpeningPiece(x: seq<byte>, u: seq<byte>)
    requires FrameGet(x).Ok? && Opens(FrameGet(x).kind, FrameGet(x).payload)
    ensures Begins(FromParse(HelloSent, ParseAll(x + u)), FromParse(HelloSent, ParseAll(x)), u)
  {
    var p := ParseAll(x);
    ParseSplits(x, u);
    OpenStays(LinkState.Asp, p.seen[1..]);
    if p.verdict == More {
      LinkOn(HelloSent, p.seen, ParseAll(p.left + u).seen);
      OpenStays(LinkState.Asp, ParseAll(p.left + u).seen);
    }
  }

  /** A HELLO that makes no sense, at the front of a piece or of the stream. */
  lemma OneUnheard(x: seq<byte>)
    requires FrameGet(x).Ok? && FrameGet(x).kind == HELLO && !Opens(FrameGet(x).kind, FrameGet(x).payload)
    ensures x != [] && x[0] == HELLO
    ensures var f := FrameGet(x);
      && FromParse(HelloSent, ParseAll(x)) == After([(f.kind, f.payload)], [], FromParse(HelloSent, ParseAll(x[f.consumed..])))
      && Reference(x) == After([(f.kind, f.payload)], [], Reference(x[f.consumed..]))
  {
    var f := FrameGet(x);
    var later := ParseAll(x[f.consumed..]).seen;
    assert ([(f.kind, f.payload)] + later)[1..] == later;
    assert [] + FromParse(HelloSent, ParseAll(x[f.consumed..])).raw == [];
  }

  lemma OneMoreBegins(m: (byte, seq<byte>), whole: Heard, h: Heard, rest: seq<byte>)
    requires Begins(whole, h, rest)
    ensures Begins(After([m], [], whole), After([m], [], h), rest)
  {
    if h.verdict == More {
      AfterTwice([m], [], h.seen, h.raw, Rest(h.link, h.left, rest));
    }
  }

  /** With nothing held, everything is still to come. */
  lemma NothingBegins(u: seq<byte>)
    requires !Ambiguous(u)
    ensures Begins(Reference(u), FromParse(HelloSent, ParseAll([])), u)
  {
    AfterTwice([], [], [], [], Reference(u));
    assert [] + u == u;
  }

  lemma PartBegins(x: seq<byte>, u: seq<byte>)
    requires x != [] && x[0] == HELLO && FrameGet(x).Short? && !Ambiguous(x + u)
    ensures Begins(Reference(x + u), FromParse(HelloSent, ParseAll(x)), u)
  {
    AfterTwice([], [], [], [], Reference(x + u));
  }

  predicate Unheard(x: seq<byte>) {
    FrameGet(x).Ok? && FrameGet(x).kind == HELLO && !Opens(FrameGet(x).kind, FrameGet(x).payload)
  }

  lemma NotAmbiguous(s: seq<byte>)
    requires s == [] || s[0] != HELLO
    ensures !Ambiguous(s)
  {
  }

  /** After a HELLO that makes no sense comes another, or nothing, or there was no room for more in the buffer. */
  lemma AfterUnheard(s: seq<byte>)
    requires Unheard(s) && !Ambiguous(s)
    ensures var n := FrameGet(s).consumed;
      !Ambiguous(s[n..]) && (n < |s| && n < MAX_MESSAGE ==> s[n] == HELLO)
  {
    var n := FrameGet(s).consumed;
    if n == |s| || s[n] != HELLO {
      NotAmbiguous(s[n..]);
    }
  }

  lemma StillClear(x: seq<byte>, u: seq<byte>)
    requires Unheard(x) && |x| <= MAX_MESSAGE && !Ambiguous(x + u)
    ensures var y := x[FrameGet(x).consumed..];
      && FrameGet(x + u) == FrameGet(x) && (x + u)[FrameGet(x).consumed..] == y + u
      && !Ambiguous(y + u) && (y != [] ==> y[0] == HELLO)
  {
    var n := FrameGet(x).consumed;
    FrameVerdictStable(x, u);
    AfterUnheard(x + u);
    assert (x + u)[n..] == x[n..] + u;
    if n < |x| {
      assert (x + u)[n] == x[n] == x[n..][0];
    }
  }

  lemma UnheardBegins(x: seq<byte>, u: seq<byte>)
    requires Unheard(x) && FrameGet(x + u) == FrameGet(x)
    requires var y := x[FrameGet(x).consumed..];
      (x + u)[FrameGet(x).consumed..] == y + u && Begins(Reference(y + u), FromParse(HelloSent, ParseAll(y)), u)
    ensures Begins(Reference(x + u), FromParse(HelloSent, ParseAll(x)), u)
  {
    var f := FrameGet(x);
    var y := x[f.consumed..];
    OneUnheard(x);
    OneUnheard(x + u);
    OneMoreBegins((f.kind, f.payload), Reference(y + u), FromParse(HelloSent, ParseAll(y)), u);
  }

  lemma PlainEnds(x: seq<byte>, u: seq<byte>)
    requires x != [] && x[0] == HELLO && !FrameGet(x).Short? && !Unheard(x)
    ensures Begins(Reference(x + u), FromParse(HelloSent, ParseAll(x)), u)
  {
    FrameVerdictStable(x, u);
    if FrameGet(x).Ok? {
      OpeningPiece(x, u);
    }
  }

  /** Nothing held yet, or the start of a HELLO: what the buffer shows is what the reference says. */
  lemma {:induction false} FirstPiece(x: seq<byte>, u: seq<byte>)
    requires |x| <= MAX_MESSAGE && (x != [] ==> x[0] == HELLO) && !Ambiguous(x + u)
    ensures Begins(Reference(x + u), FromParse(HelloSent, ParseAll(x)), u)
    decreases |x|
  {
    if x == [] {
      assert x + u == u;
      NothingBegins(u);
    } else if FrameGet(x).Short? {
      PartBegins(x, u);
    } else if Unheard(x) {
      StillClear(x, u);
      FirstPiece(x[FrameGet(x).consumed..], u);
      UnheardBegins(x, u);
    } else {
      PlainEnds(x, u);
    }
  }

  // --- one call, and all of them ---

  lemma RawBegins(link: LinkState, buf: seq<byte>, data: seq<byte>, t: seq<byte>)
    requires Between(link, buf) && TurnsRaw(link, buf, data)
    ensures Begins(Rest(link, buf, data + t), Hear(link, buf, data), t)
  {
    assert [] + (data + t) == data + t && (data + t)[0] == data[0];
  }

  /** One piece of one call: as much as the buffer takes. */
  lemma PieceBegins(link: LinkState, buf: seq<byte>, piece: seq<byte>, u: seq<byte>)
    requires Between(link, buf) && Clear(link, buf, piece + u) && piece != [] && !TurnsRaw(link, buf, piece)
    requires |buf| + |piece| <= MAX_MESSAGE
    ensures Begins(Rest(link, buf, piece + u), FromParse(link, ParseAll(buf + piece)), u)
  {
    assert buf + (piece + u) == buf + piece + u;
    if link == HelloSent {
      FirstPiece(buf + piece, u);
    } else {
      OpenPiece(buf + piece, u);
    }
  }

  lemma BeginsOn(whole: Heard, p: Heard, data: seq<byte>, t: seq<byte>, h: Heard)
    requires Begins(whole, p, data + t) && p.verdict == More
    requires Begins(Rest(p.link, p.left, data + t), h, t)
    ensures Begins(whole, After(p.seen, p.raw, h), t)
  {
    if h.verdict == More {
      AfterTwice(p.seen, p.raw, h.seen, h.raw, Rest(h.link, h.left, t));
    }
  }

  lemma IdleCall(link: LinkState, buf: seq<byte>, t: seq<byte>)
    requires Between(link, buf) && Clear(link, buf, t)
    ensures Begins(Rest(link, buf, t), Hear(link, buf, []), t)
  {
    AfterTwice([], [], [], [], Rest(link, buf, t));
  }

  /** The pieces of a call after its first. */
  lemma LaterPieces(link: LinkState, buf: seq<byte>, data: seq<byte>, take: nat, t: seq<byte>, p: Heard)
    requires |buf| < MAX_MESSAGE && data != [] && !TurnsRaw(link, buf, data) && take == Min(|data|, MAX_MESSAGE - |buf|)
    requires p == FromParse(link, ParseAll(buf + data[..take])) && p.verdict == More
    requires Begins(Rest(link, buf, data + t), p, data[take..] + t)
    requires Begins(Rest(p.link, p.left, data[take..] + t), Hear(p.link, p.left, data[take..]), t)
    ensures Begins(Rest(link, buf, data + t), Hear(link, buf, data), t)
  {
    BeginsOn(Rest(link, buf, data + t), p, data[take..], t, Hear(p.link, p.left, data[take..]));
  }

  /** One call: it shows the front of what the stream as a whole comes to. */
  lemma {:induction false} CallBegins(link: LinkState, buf: seq<byte>, data: seq<byte>, t: seq<byte>)
    requires Between(link, buf) && Clear(link, buf, data + t)
    ensures Begins(Rest(link, buf, data + t), Hear(link, buf, data), t)
    decreases |data|
  {
    ShortIsBounded(buf);
    if data == [] {
      assert data + t == t;
      IdleCall(link, buf, t);
    } else if TurnsRaw(link, buf, data) {
      RawBegins(link, buf, data, t);
    } else {
      var take := Min(|data|, MAX_MESSAGE - |buf|);
      assert data[..take] + (data[take..] + t) == data + t;
      PieceBegins(link, buf, data[..take], data[take..] + t);
      var p := FromParse(link, ParseAll(buf + data[..take]));
      if p.verdict == More {
        CallBegins(p.link, p.left, data[take..], t);
        LaterPieces(link, buf, data, take, t, p);
      }
    }
  }

  lemma {:induction false} CallsBegin(link: LinkState, buf: seq<byte>, chunks: seq<seq<byte>>)
    requires Between(link, buf) && Clear(link, buf, Flatten(chunks))
    ensures Same(Rest(link, buf, Flatten(chunks)), HearAll(link, buf, chunks))
    decreases |chunks|
  {
    if chunks == [] {
      RestOfNothing(link, buf);
    } else {
      CallBegins(link, buf, chunks[0], Flatten(chunks[1..]));
      var h := Hear(link, buf, chunks[0]);
      if h.verdict == More {
        CallsBegin(h.link, h.left, chunks[1..]);
      }
    }
  }

  lemma RestOfNothing(link: LinkState, buf: seq<byte>)
    requires Between(link, buf)
    ensures Rest(link, buf, []) == Heard([], [], link, buf, More)
  {
    assert buf + [] == buf;
  }

  /** Unless the stream is ambiguous, every cut of it comes to what the reference says. */
  lemma CutIsInvisible(chunks: seq<seq<byte>>)
    requires !Ambiguous(Flatten(chunks))
    ensures Same(HearAll(HelloSent, [], chunks), Reference(Flatten(chunks)))
  {
    var s := Flatten(chunks);
    assert [] + s == s;
    NothingHeld();
    CallsBegin(HelloSent, [], chunks);
  }

  lemma NothingHeld()
    ensures Between(HelloSent, [])
  {
  }

  // --- a stream that is ambiguous ---

  lemma ShortBefore(s: seq<byte>, k: nat)
    requires FrameGet(s).Ok? && k < FrameGet(s).consumed
    ensures FrameGet(s[..k]).Short?
  {
    assert s[..k] + s[k..] == s;
    if !FrameGet(s[..k]).Short? {
      FrameVerdictStable(s[..k], s[k..]);
    }
  }

  lemma VarintWithin(s: seq<byte>, t: seq<byte>, p: (nat, nat))
    requires VarintGet(s, VARINT_MAX) == Some(p) && p.1 <= |t| && t <= s
    ensures VarintGet(t, VARINT_MAX) == Some(p)
  {
    VarintMeaning(s, VARINT_MAX, p.0, p.1);
    assert t[..p.1] == s[..p.1];
    VarintMeaning(t, VARINT_MAX, p.0, p.1);
  }

  /** A message is what its own bytes say, whatever follows. */
  lemma FrameWithin(s: seq<byte>)
    requires FrameGet(s).Ok?
    ensures FrameGet(s[..FrameGet(s).consumed]) == FrameGet(s)
  {
    var n := FrameGet(s).consumed;
    var head, p := s[..n], VarintGet(s[1..], VARINT_MAX).value;
    assert head[1..] == s[1..][..n - 1];
    VarintUsed(s[1..], VARINT_MAX);
    VarintWithin(s[1..], head[1..], p);
    assert head[1 + p.1..n] == s[1 + p.1..n];
  }

  /** Only HELLOs that make no sense, and of the next message `held`. */
  predicate Waits(s: seq<byte>, held: nat) {
    var h := Reference(s);
    !Ambiguous(s) && h.raw == [] && h.link == HelloSent && h.verdict == More && |h.left| == held
  }

  lemma WaitsAfterOne(s: seq<byte>)
    requires Unheard(s)
    ensures var n := FrameGet(s).consumed; Waits(s[..n], 0) && Waits(s[..n - 1], n - 1)
  {
    var n := FrameGet(s).consumed;
    FrameWithin(s);
    ShortBefore(s, n - 1);
    WaitsWhole(s[..n]);
    WaitsShort(s[..n - 1]);
  }

  lemma WaitsWhole(t: seq<byte>)
    requires Unheard(t) && FrameGet(t).consumed == |t|
    ensures Waits(t, 0)
  {
    OneUnheard(t);
    assert t[|t|..] == [];
  }

  lemma WaitsShort(t: seq<byte>)
    requires t != [] && t[0] == HELLO && FrameGet(t).Short?
    ensures Waits(t, |t|)
  {
  }

  lemma WaitsThen(t: seq<byte>, held: nat)
    requires Unheard(t) && FrameGet(t).consumed < |t| && t[FrameGet(t).consumed] == HELLO && Waits(t[FrameGet(t).consumed..], held)
    ensures Waits(t, held)
  {
    OneUnheard(t);
  }

  lemma WaitsAfterMore(s: seq<byte>, k: nat, held: nat)
    requires Unheard(s) && FrameGet(s).consumed < FrameGet(s).consumed + k <= |s| && s[FrameGet(s).consumed] == HELLO
    requires Waits(s[FrameGet(s).consumed..][..k], held)
    ensures Waits(s[..FrameGet(s).consumed + k], held)
  {
    var n := FrameGet(s).consumed;
    FrameWithin(s);
    FrameVerdictStable(s[..n], s[n..n + k]);
    assert s[..n] + s[n..n + k] == s[..n + k] && s[..n + k][n..] == s[n..][..k];
    WaitsThen(s[..n + k], held);
  }

  /** Where the HELLOs that make no sense end. */
  lemma {:induction false} WhereItShows(s: seq<byte>) returns (n: nat, held: nat)
    requires Ambiguous(s)
    ensures 2 <= n < |s| && s[n] != HELLO
    ensures Waits(s[..n], 0) && Waits(s[..n - 1], held) && 0 < held <= MAX_MESSAGE - 2
    decreases |s|
  {
    var c := FrameGet(s).consumed;
    if s[c] != HELLO {
      n, held := c, c - 1;
      WaitsAfterOne(s);
    } else {
      var k;
      k, held := WhereItShows(s[c..]);
      n := c + k;
      assert s[n] == s[c..][k];
      WaitsAfterMore(s, k, 0);
      WaitsAfterMore(s, k - 1, held);
    }
  }

  lemma OneCall(data: seq<byte>)
    requires !Ambiguous(data)
    ensures Same(Reference(data), Hear(HelloSent, [], data))
  {
    assert [] + (data + []) == data && data + [] == data;
    CallBegins(HelloSent, [], data, []);
    var h := Hear(HelloSent, [], data);
    if h.verdict == More {
      RestOfNothing(h.link, h.left);
      assert h.seen + [] == h.seen && h.raw + [] == h.raw;
    }
  }

  lemma {:induction false} RawIsData(link: LinkState, buf: seq<byte>, data: seq<byte>)
    ensures |Hear(link, buf, data).raw| <= |data|
    decreases |data|
  {
    var take := Min(|data|, if |buf| <= MAX_MESSAGE then MAX_MESSAGE - |buf| else 0);
    if data != [] && take > 0 && !TurnsRaw(link, buf, data) {
      var p := FromParse(link, ParseAll(buf + data[..take]));
      RawIsData(p.link, p.left, data[take..]);
    }
  }

  lemma RawOfOne(link: LinkState, buf: seq<byte>, x: seq<byte>)
    ensures HearAll(link, buf, [x]).raw == Hear(link, buf, x).raw
  {
    var h := Hear(link, buf, x);
    assert |[x][1..]| == 0 && h.raw + [] == h.raw;
  }

  lemma RawOfMore(link: LinkState, buf: seq<byte>, x: seq<byte>, more: seq<seq<byte>>)
    ensures var h := Hear(link, buf, x);
      HearAll(link, buf, [x] + more).raw == h.raw + if h.verdict == More then HearAll(h.link, h.left, more).raw else []
  {
    assert ([x] + more)[1..] == more;
  }

  /** Cut where the HELLOs end, all the rest is raw text. */
  lemma CutThere(s: seq<byte>, n: nat)
    requires n < |s| && s[n] != HELLO && Waits(s[..n], 0)
    ensures HearAll(HelloSent, [], [s[..n]] + [s[n..]]).raw == s[n..]
  {
    OneCall(s[..n]);
    RawOfMore(HelloSent, [], s[..n], [s[n..]]);
    RawOfOne(HelloSent, [], s[n..]);
    assert s[n..][0] == s[n] && [] + s[n..] == s[n..];
  }

  /** Cut a byte to either side of that, the first byte of the rest at least is taken for a message. */
  lemma CutAround(s: seq<byte>, n: nat, held: nat)
    requires 1 <= n < |s| && Waits(s[..n - 1], held) && 0 < held <= MAX_MESSAGE - 2
    ensures |HearAll(HelloSent, [], [s[..n - 1]] + ([s[n - 1..n + 1]] + [s[n + 1..]])).raw| < |s| - n
  {
    var x, y, z := s[..n - 1], s[n - 1..n + 1], s[n + 1..];
    OneCall(x);
    RawOfMore(HelloSent, [], x, [y] + [z]);
    var h := Hear(HelloSent, [], x);
    TwoMore(h.left, y);
    RawOfMore(HelloSent, h.left, y, [z]);
    var g := Hear(HelloSent, h.left, y);
    RawOfOne(g.link, g.left, z);
    RawIsData(g.link, g.left, z);
  }

  lemma TwoMore(buf: seq<byte>, data: seq<byte>)
    requires 0 < |buf| <= MAX_MESSAGE - 2 && |data| == 2
    ensures Hear(HelloSent, buf, data).raw == []
  {
    assert data[..2] == data && data[2..] == [];
  }

  lemma CutsJoin(s: seq<byte>, n: nat)
    requires 1 <= n < |s|
    ensures Flatten([s[..n]] + [s[n..]]) == s
    ensures Flatten([s[..n - 1]] + ([s[n - 1..n + 1]] + [s[n + 1..]])) == s
  {
    FlattenMore(s[..n], [s[n..]]);
    FlattenMore(s[..n - 1], [s[n - 1..n + 1]] + [s[n + 1..]]);
    FlattenMore(s[n - 1..n + 1], [s[n + 1..]]);
    assert s[..n] + s[n..] == s && s[..n - 1] + (s[n - 1..n + 1] + s[n + 1..]) == s;
  }

  lemma AmbiguousCutsDiffer(s: seq<byte>) returns (a: seq<seq<byte>>, b: seq<seq<byte>>)
    requires Ambiguous(s)
    ensures Flatten(a) == s == Flatten(b)
    ensures |HearAll(HelloSent, [], b).raw| < |HearAll(HelloSent, [], a).raw|
  {
    var n, held := WhereItShows(s);
    a, b := [s[..n]] + [s[n..]], [s[..n - 1]] + ([s[n - 1..n + 1]] + [s[n + 1..]]);
    CutThere(s, n);
    CutAround(s, n, held);
    CutsJoin(s, n);
  }

  lemma FlattenMore(x: seq<byte>, more: seq<seq<byte>>)
    ensures Flatten([x] + more) == x + Flatten(more)
    ensures |more| == 1 ==> Flatten(more) == more[0]
  {
    assert ([x] + more)[1..] == more;
    if |more| == 1 {
      assert |more[1..]| == 0 && more[0] + [] == more[0];
    }
  }

  /**
   * From the HELLO on, all ways of cutting a stream come to the same messages, the same raw text
   * and the same session, if and only if the stream is not ambiguous.
   */
  lemma CutsAgreeExactly(s: seq<byte>)
    ensures !Ambiguous(s) <==>
      forall a, b :: Flatten(a) == s && Flatten(b) == s ==> Same(HearAll(HelloSent, [], a), HearAll(HelloSent, [], b))
  {
    if Ambiguous(s) {
      var a, b := AmbiguousCutsDiffer(s);
      assert !Same(HearAll(HelloSent, [], a), HearAll(HelloSent, [], b));
    } else {
      forall a, b | Flatten(a) == s && Flatten(b) == s ensures Same(HearAll(HelloSent, [], a), HearAll(HelloSent, [], b)) {
        CutIsInvisible(a);
        CutIsInvisible(b);
      }
    }
  }
}
