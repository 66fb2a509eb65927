/** The ring of variable-length records: each goes in whole, behind its own length. */
module RecordRings {
  import opened Bytes
  import opened RingSeam

  const OVERHEAD := 4
  const MAX_RECORD := 0xFF_FFFF

  type Body = b: seq<byte> | |b| <= MAX_RECORD witness []

  function Record(body: Body): (s: seq<byte>)
    ensures |s| == OVERHEAD + |body|
  {
    PutU32(|body|) + body
  }

  /** Room for a body of `n` bytes with `reserve` to spare, `used` bytes being unread. */
  predicate Fits(cap: nat, used: nat, n: nat, reserve: nat)
    requires used <= cap
  {
    n <= MAX_RECORD && cap - used >= reserve && cap - used - reserve >= n + OVERHEAD
  }

  // --- the stream of records ---

  function Stream(records: seq<Body>): seq<byte> {
    FlatMap(Record, records)
  }

  /** Where record `k` starts. */
  function Start(records: seq<Body>, k: nat): nat
    requires k <= |records|
  {
    |Stream(records[..k])|
  }

  lemma {:induction false} PrefixStream(records: seq<Body>, k: nat)
    requires k <= |records|
    ensures Stream(records) == Stream(records[..k]) + Stream(records[k..])
  {
    if k == 0 {
      assert records[0..] == records;
    } else {
      PrefixStream(records[1..], k - 1);
      assert records[1..][..k - 1] == records[..k][1..];
      assert records[1..][k - 1..] == records[k..];
    }
  }

  /** Record `k` lies between its start and the next one's. */
  lemma RecordAt(records: seq<Body>, k: nat)
    requires k < |records|
    ensures Start(records, k) + OVERHEAD + |records[k]| == Start(records, k + 1) <= |Stream(records)|
    ensures Stream(records)[Start(records, k)..Start(records, k + 1)] == Record(records[k])
  {
    PrefixStream(records, k);
    PrefixStream(records, k + 1);
    FlatMapAppends(Record, records[..k], records[k]);
    assert records[..k + 1] == records[..k] + [records[k]];
    var whole := Stream(records[..k]) + Record(records[k]) + Stream(records[k + 1..]);
    assert Stream(records) == whole;
    assert whole[|Stream(records[..k])|..|Stream(records[..k])| + |Record(records[k])|] == Record(records[k]);
  }

  /** Starts of records are in order, a header apart at least. */
  lemma {:induction false} StartsOrdered(records: seq<Body>, j: nat, k: nat)
    requires j <= k <= |records|
    ensures Start(records, j) + OVERHEAD * (k - j) <= Start(records, k)
    decreases k - j
  {
    if j < k {
      RecordAt(records, j);
      StartsOrdered(records, j + 1, k);
    }
  }

  lemma StartsStay(records: seq<Body>, more: seq<Body>, k: nat)
    requires k <= |records|
    ensures Start(records + more, k) == Start(records, k)
  {
    assert (records + more)[..k] == records[..k];
  }

  // --- the two threads ---

  /** What became of one record: copied out, or dropped because the caller's buffer was too small. */
  datatype Delivery = Copied(body: seq<byte>, room: nat) | Discarded(room: nat)

  ghost predicate Delivers(d: Delivery, body: Body) {
    match d
    case Copied(b, room) => b == body && |body| <= room
    case Discarded(room) => |body| > room
  }

  /** The reading thread; `seen` counts the records published when it loaded the write counter. */
  datatype Reader = Away | Header(room: nat, seen: nat) | Payload(room: nat, seen: nat, len: nat)

  datatype Queue = Queue(ring: Ring<byte>, offering: Body, sent: seq<Body>, reader: Reader, taken: seq<Delivery>)

  datatype Move =
    | WriteBegin(body: Body, reserve: nat)  // enough room: start copying
    | WriteRefused(body: Body, reserve: nat)
    | Store                                 // one byte in
    | WriteEnd                              // publish header and body at once
    | ReadBegin(room: nat)
    | ReadEmpty                             // no complete header
    | Load                                  // one byte out
    | ReadRefused                           // the header claims more than is there
    | ReadSized                             // the record fits the caller's buffer
    | ReadDropped                           // it does not: skip it whole
    | ReadEnd

  function Avail(q: Queue): nat
    requires q.ring.c.Taking? && q.ring.r <= q.ring.c.wSeen
  {
    q.ring.c.wSeen - q.ring.r
  }

  /** The reader has the four header bytes, and they say `n`. */
  ghost predicate Knows(q: Queue, n: u32) {
    q.reader.Header? && q.ring.c.Taking? && |q.ring.c.got| == OVERHEAD && GetU32(q.ring.c.got) == n
  }

  ghost predicate Possible(q: Queue, m: Move)
    requires Inv(q)
  {
    match m
    case WriteBegin(body, reserve) =>
      q.ring.p.Resting? && Fits(|q.ring.buf|, q.ring.w - q.ring.r, |body|, reserve)
    case WriteRefused(body, reserve) =>
      q.ring.p.Resting? && !Fits(|q.ring.buf|, q.ring.w - q.ring.r, |body|, reserve)
    case Store => RingSeam.Enabled(q.ring, CopyIn)
    case WriteEnd => RingSeam.Enabled(q.ring, PublishW)
    case ReadBegin(_) => q.reader.Away?
    case ReadEmpty => q.reader.Header? && |q.ring.c.got| == 0 && Avail(q) < OVERHEAD
    case Load =>
      || (q.reader.Header? && Avail(q) >= OVERHEAD && |q.ring.c.got| < OVERHEAD)
      || (q.reader.Payload? && |q.ring.c.got| < OVERHEAD + q.reader.len)
    case ReadRefused => exists n: u32 :: Knows(q, n) && n > Avail(q) - OVERHEAD
    case ReadSized => exists n: u32 :: Knows(q, n) && n <= Avail(q) - OVERHEAD && n <= q.reader.room
    case ReadDropped => exists n: u32 :: Knows(q, n) && n <= Avail(q) - OVERHEAD && n > q.reader.room
    case ReadEnd => q.reader.Payload? && |q.ring.c.got| == OVERHEAD + q.reader.len
  }

  function After(q: Queue, m: Move): Queue
    requires Inv(q) && Possible(q, m)
  {
    match m
    case WriteBegin(body, _) => q.(ring := Next(q.ring, LoadR(Record(body))), offering := body)
    case WriteRefused(_, _) => q
    case Store => q.(ring := Next(q.ring, CopyIn))
    case WriteEnd => q.(ring := Next(q.ring, PublishW), sent := q.sent + [q.offering])
    case ReadBegin(room) => q.(ring := Next(q.ring, LoadW), reader := Header(room, |q.sent|))
    case ReadEmpty => q.(ring := Next(q.ring, PublishR(0)), reader := Away)
    case Load => q.(ring := Next(q.ring, CopyOut))
    case ReadRefused => q.(ring := Next(q.ring, PublishR(0)), reader := Away)
    case ReadSized => q.(reader := Payload(q.reader.room, q.reader.seen, GetU32(q.ring.c.got)))
    case ReadDropped =>
      q.(ring := Next(q.ring, PublishR(OVERHEAD + GetU32(q.ring.c.got))), reader := Away,
         taken := q.taken + [Discarded(q.reader.room)])
    case ReadEnd =>
      q.(ring := Next(q.ring, PublishR(OVERHEAD + q.reader.len)), reader := Away,
         taken := q.taken + [Copied(q.ring.c.got[OVERHEAD..], q.reader.room)])
  }

  /** Everything taken so far is what was sent first, one by one. */
  ghost predicate AllDelivered(taken: seq<Delivery>, sent: seq<Body>) {
    |taken| <= |sent| && forall i :: 0 <= i < |taken| ==> Delivers(taken[i], sent[i])
  }

  lemma OneMoreDelivered(taken: seq<Delivery>, sent: seq<Body>, d: Delivery)
    requires AllDelivered(taken, sent) && |taken| < |sent| && Delivers(d, sent[|taken|])
    ensures AllDelivered(taken + [d], sent)
  {
  }

  ghost predicate ReaderOk(q: Queue)
    requires |q.taken| <= |q.sent| && RingSeam.Inv(q.ring)
  {
    match q.reader
    case Away => q.ring.c.Waiting?
    case Header(_, seen) =>
      && q.ring.c.Taking? && |q.taken| <= seen <= |q.sent| && q.ring.c.wSeen == Start(q.sent, seen)
      && |q.ring.c.got| <= OVERHEAD
    case Payload(room, seen, len) =>
      && q.ring.c.Taking? && |q.taken| < seen <= |q.sent| && q.ring.c.wSeen == Start(q.sent, seen)
      && OVERHEAD <= |q.ring.c.got| <= OVERHEAD + len && len == |q.sent[|q.taken|]| <= room
      && OVERHEAD + len <= Avail(q)
  }

  ghost predicate Inv(q: Queue) {
    && RingSeam.Inv(q.ring)
    && q.ring.stream == Stream(q.sent)
    && (q.ring.p.Copying? ==> q.ring.p.block == Record(q.offering))
    && AllDelivered(q.taken, q.sent) && q.ring.r == Start(q.sent, |q.taken|)
    && ReaderOk(q)
  }

  /** A ring just initialised, both threads away. */
  ghost function NewQueue(storage: seq<byte>): (q: Queue)
    requires |storage| > 0
    ensures Inv(q)
  {
    FreshInv(storage);
    Queue(Fresh(storage), [], [], Away, [])
  }

  /** If the counter the reader loaded shows anything at all, it shows a whole record. */
  lemma WholeRecordSeen(q: Queue)
    requires Inv(q) && q.reader.Header?
    ensures Avail(q) >= OVERHEAD <==> |q.taken| < q.reader.seen
    ensures Avail(q) > 0 ==> Avail(q) >= OVERHEAD
    ensures |q.taken| < q.reader.seen ==> OVERHEAD + |q.sent[|q.taken|]| <= Avail(q)
  {
    var k := |q.taken|;
    StartsOrdered(q.sent, k, q.reader.seen);
    if k < q.reader.seen {
      RecordAt(q.sent, k);
      StartsOrdered(q.sent, k + 1, q.reader.seen);
    }
  }

  /** The bytes copied out so far are the front of the oldest untaken record. */
  lemma GotIsRecord(q: Queue)
    requires Inv(q) && q.ring.c.Taking? && |q.taken| < |q.sent|
    requires |q.ring.c.got| <= OVERHEAD + |q.sent[|q.taken|]|
    ensures q.ring.c.got <= Record(q.sent[|q.taken|])
  {
    var k, n := |q.taken|, |q.ring.c.got|;
    RecordAt(q.sent, k);
    assert q.ring.stream[q.ring.r..][..n] == q.ring.stream[q.ring.r..q.ring.r + n];
    assert q.ring.stream[Start(q.sent, k)..Start(q.sent, k + 1)][..n] == Record(q.sent[k])[..n];
  }

  /** The length read back is the length written. */
  lemma HeaderIsTrue(q: Queue, n: u32)
    requires Inv(q) && Knows(q, n)
    ensures |q.taken| < q.reader.seen && n == |q.sent[|q.taken|]|
    ensures OVERHEAD + n <= Avail(q)
  {
    WholeRecordSeen(q);
    GotIsRecord(q);
    var body := q.sent[|q.taken|];
    assert q.ring.c.got == Record(body)[..OVERHEAD] == PutU32(|body|);
    U32RoundTrip(|body|, []);
    assert PutU32(|body|) + [] == PutU32(|body|);
  }

  /** The refusal of a record the ring does not wholly contain is dead code. */
  lemma NeverRefused(q: Queue)
    requires Inv(q)
    ensures !Possible(q, ReadRefused)
  {
    forall n: u32 | Knows(q, n) ensures n <= Avail(q) - OVERHEAD {
      HeaderIsTrue(q, n);
    }
  }

  lemma WriteEndKeeps(q: Queue)
    requires Inv(q) && Possible(q, WriteEnd)
    ensures Inv(After(q, WriteEnd))
  {
    StepKeeps(q.ring, PublishW);
    FlatMapAppends(Record, q.sent, q.offering);
    var q' := After(q, WriteEnd);
    assert q'.sent == q.sent + [q.offering];
    StartsStay(q.sent, [q.offering], |q.taken|);
    if !q.reader.Away? {
      StartsStay(q.sent, [q.offering], q.reader.seen);
    }
  }

  lemma ReadBeginKeeps(q: Queue, room: nat)
    requires Inv(q) && Possible(q, ReadBegin(room))
    ensures Inv(After(q, ReadBegin(room)))
  {
    StepKeeps(q.ring, LoadW);
    assert q.sent[..|q.sent|] == q.sent;
  }

  lemma LoadKeeps(q: Queue)
    requires Inv(q) && Possible(q, Load)
    ensures Inv(After(q, Load))
  {
    if q.reader.Header? {
      WholeRecordSeen(q);
    }
    StepKeeps(q.ring, CopyOut);
  }

  lemma ReadSizedKeeps(q: Queue)
    requires Inv(q) && Possible(q, ReadSized)
    ensures Inv(After(q, ReadSized))
  {
    HeaderIsTrue(q, GetU32(q.ring.c.got));
  }

  lemma ReadDroppedKeeps(q: Queue)
    requires Inv(q) && Possible(q, ReadDropped)
    ensures Inv(After(q, ReadDropped))
    ensures |q.sent[|q.taken|]| > q.reader.room
  {
    var n := GetU32(q.ring.c.got);
    HeaderIsTrue(q, n);
    StepKeeps(q.ring, PublishR(OVERHEAD + n));
    OneMoreDelivered(q.taken, q.sent, Discarded(q.reader.room));
    RecordAt(q.sent, |q.taken|);
  }

  lemma ReadEndKeeps(q: Queue)
    requires Inv(q) && Possible(q, ReadEnd)
    ensures Inv(After(q, ReadEnd))
    ensures q.ring.c.got[OVERHEAD..] == q.sent[|q.taken|]
  {
    GotIsRecord(q);
    StepKeeps(q.ring, PublishR(OVERHEAD + q.reader.len));
    OneMoreDelivered(q.taken, q.sent, Copied(q.ring.c.got[OVERHEAD..], q.reader.room));
    RecordAt(q.sent, |q.taken|);
  }

  /** Every step of either thread keeps the invariant. */
  lemma MoveKeeps(q: Queue, m: Move)
    requires Inv(q) && Possible(q, m)
    ensures Inv(After(q, m))
  {
    match m
    case WriteBegin(body, _) => StepKeeps(q.ring, LoadR(Record(body)));
    case WriteRefused(_, _) =>
    case Store => StepKeeps(q.ring, CopyIn);
    case WriteEnd => WriteEndKeeps(q);
    case ReadBegin(room) => ReadBeginKeeps(q, room);
    case ReadEmpty => StepKeeps(q.ring, PublishR(0));
    case Load => LoadKeeps(q);
    case ReadRefused => StepKeeps(q.ring, PublishR(0));
    case ReadSized => ReadSizedKeeps(q);
    case ReadDropped => ReadDroppedKeeps(q);
    case ReadEnd => ReadEndKeeps(q);
  }

  // --- what the two threads make of it ---

  /** The bounded first-in first-out queue the ring stands for. */
  function Pending(q: Queue): seq<Body>
    requires |q.taken| <= |q.sent|
  {
    q.sent[|q.taken|..]
  }

  /** Seen from outside, a step appends one whole record, removes the oldest one, or changes nothing. */
  lemma StepRefinesFifo(q: Queue, m: Move)
    requires Inv(q) && Possible(q, m)
    ensures Inv(After(q, m))
    ensures m.WriteEnd? ==> Pending(After(q, m)) == Pending(q) + [q.offering]
    ensures m.ReadEnd? || m.ReadDropped? ==>
      Pending(q) != [] && Pending(After(q, m)) == Pending(q)[1..]
      && After(q, m).taken == q.taken + [if m.ReadEnd? then Copied(Pending(q)[0], q.reader.room) else Discarded(q.reader.room)]
      && (m.ReadDropped? <==> |Pending(q)[0]| > q.reader.room)
    ensures !m.WriteEnd? && !m.ReadEnd? && !m.ReadDropped? ==> Pending(After(q, m)) == Pending(q)
  {
    MoveKeeps(q, m);
    if m.ReadEnd? {
      ReadEndKeeps(q);
    } else if m.ReadDropped? {
      ReadDroppedKeeps(q);
    }
  }

  ghost predicate Leads(q: Queue, path: seq<Move>, q': Queue)
    requires Inv(q)
    decreases |path|
  {
    if path == [] then q' == q
    else Possible(q, path[0]) && (MoveKeeps(q, path[0]); Leads(After(q, path[0]), path[1..], q'))
  }

  lemma SentGrows(q: Queue, m: Move)
    requires Inv(q) && Possible(q, m)
    ensures q.sent <= After(q, m).sent && q.taken <= After(q, m).taken
  {
  }

  lemma {:induction false} LeadsKeeps(q: Queue, path: seq<Move>, q': Queue)
    requires Inv(q) && Leads(q, path, q')
    ensures Inv(q') && q.sent <= q'.sent && q.taken <= q'.taken
    decreases |path|
  {
    if path != [] {
      MoveKeeps(q, path[0]);
      SentGrows(q, path[0]);
      LeadsKeeps(After(q, path[0]), path[1..], q');
    }
  }

  /**
   * In every interleaving: what has been taken is, record by record and in order, what was
   * published first; each was copied whole if the caller had room for it and dropped whole
   * otherwise; and the reader never meets a record it has to refuse.
   */
  lemma RecordsComeWholeAndInOrder(storage: seq<byte>, path: seq<Move>, q: Queue)
    requires |storage| > 0 && Leads(NewQueue(storage), path, q)
    ensures AllDelivered(q.taken, q.sent)
    ensures Inv(q) && !Possible(q, ReadRefused)
    ensures Possible(q, ReadEmpty) ==> q.reader.seen == |q.taken|
  {
    LeadsKeeps(NewQueue(storage), path, q);
    NeverRefused(q);
    if q.reader.Header? {
      WholeRecordSeen(q);
    }
  }
}
