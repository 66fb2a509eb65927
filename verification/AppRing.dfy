/** The record ring itself: one side's calls, run to completion, on a shared array. */
module AppRing {
  import opened Bytes
  import opened RingCopies
  import opened RingSeam
  import opened RecordRings

  class RecordRing {
    const buf: array<byte>
    var w: nat
    var r: nat
    ghost var sent: seq<Body>
    ghost var taken: seq<Delivery>

    /** The ring between calls, as a state of the two-thread machine with both threads at rest. */
    ghost function View(): Queue
      reads this, buf
    {
      Queue(Ring(buf[..], w, r, Resting, Waiting, Stream(sent)), [], sent, Away, taken)
    }

    ghost predicate Valid()
      reads this, buf
    {
      RecordRings.Inv(View())
    }

    /** The records not yet taken, oldest first. */
    ghost function Contents(): seq<Body>
      requires Valid()
      reads this, buf
    {
      Pending(View())
    }

    constructor (storage: array<byte>)
      requires storage.Length > 0
      ensures buf == storage && Valid() && Contents() == []
    {
      buf := storage;
      w, r, sent, taken := 0, 0, [], [];
      new;
      assert View() == NewQueue(buf[..]);
    }

    /** The source's `app_ring_init`, which refuses storage of no size. */
    static method Init(storage: array<byte>) returns (ring: RecordRing?)
      ensures ring == null <==> storage.Length == 0
      ensures ring != null ==> fresh(ring) && ring.buf == storage && ring.Valid() && ring.Contents() == []
    {
      if storage.Length == 0 {
        return null;
      }
      ring := new RecordRing(storage);
    }

    /** Bytes unread, headers included. */
    method Used() returns (n: nat)
      requires Valid()
      ensures n == w - r == |Stream(Contents())|
    {
      n := w - r;
      PrefixStream(sent, |taken|);
    }

    /** Append `a + b` as one record, leaving `reserve` bytes free: all of it, or nothing. */
    method Write(a: seq<byte>, b: seq<byte>, reserve: nat) returns (ok: bool)
      requires Valid()
      modifies this, buf
      ensures Valid() && r == old(r) && taken == old(taken)
      ensures ok == Fits(buf.Length, old(w - r), |a + b|, reserve)
      ensures ok <==> |a + b| <= 0xff_ffff && old(w - r) + 4 + |a + b| + reserve <= buf.Length
      ensures ok ==> sent == old(sent) + [a + b] && w == old(w) + OVERHEAD + |a + b|
      ensures !ok ==> sent == old(sent) && w == old(w) && buf[..] == old(buf[..])
      ensures Contents() == old(Contents()) + if ok then [a + b] else []
    {
      var body := |a| + |b|;
      if body > MAX_RECORD {
        return false;
      }
      var need := body + OVERHEAD;
      var space := buf.Length - (w - r);
      if space < reserve || space - reserve < need {
        return false;
      }
      ghost var before := View();
      CopyRecord(buf, w, a, b);
      Published(before, buf[..], a + b);
      w := w + need;
      sent := sent + [a + b];
      ok := true;
    }

    /** The length of the oldest record; None when there is no whole one. */
    method PeekLen() returns (body: Option<nat>)
      requires Valid()
      ensures body == if Contents() == [] then None else Some(|Contents()[0]|)
    {
      PeekIsTrue(View());
      var avail := w - r;
      if avail < OVERHEAD {
        return None;
      }
      var hdr := new byte[OVERHEAD];
      Get(buf, r, hdr, OVERHEAD);
      assert hdr[..] == hdr[..OVERHEAD];
      var len := GetU32(hdr[..]);
      if len > avail - OVERHEAD {
        return None;
      }
      body := Some(len);
    }

    method Peek() returns (n: nat)
      requires Valid()
      ensures n == if Contents() == [] then 0 else |Contents()[0]|
    {
      var body := PeekLen();
      n := if body.Some? then body.value else 0;
    }

    /** Remove the oldest record: into `dst` if it fits in `room` bytes, and dropped if it does not. */
    method Read(dst: array<byte>, room: nat) returns (n: nat)
      requires Valid() && dst != buf && room <= dst.Length
      modifies this, dst
      ensures Valid() && w == old(w) && sent == old(sent) && buf[..] == old(buf[..])
      ensures old(Contents()) == [] ==> n == 0 && View() == old(View()) && dst[..] == old(dst[..])
      ensures old(Contents()) != [] ==>
        var body := old(Contents())[0];
        && Contents() == old(Contents())[1..] && r == old(r) + OVERHEAD + |body|
        && n == (if |body| <= room then |body| else 0)
        && (if |body| <= room then dst[..n] == body && dst[n..] == old(dst[n..]) else dst[..] == old(dst[..]))
        && taken == old(taken) + [if |body| <= room then Copied(body, room) else Discarded(room)]
    {
      var body := PeekLen();
      if body.None? {
        return 0;
      }
      ghost var record := Contents()[0];
      RecordAt(sent, |taken|);
      n := body.value;
      if n > room {
        n := 0;
      } else {
        GatherIsBody(View());
        Get(buf, r + OVERHEAD, dst, n);
      }
      ghost var d := if body.value <= room then Copied(record, room) else Discarded(room);
      OneMoreDelivered(taken, sent, d);
      r := r + OVERHEAD + body.value;
      taken := taken + [d];
      StartsOrdered(sent, |taken|, |sent|);
    }

    /** Forget everything queued; only when neither side is running. */
    method Reset()
      requires Valid()
      modifies this
      ensures Valid() && Contents() == [] && w == r == 0
    {
      w, r, sent, taken := 0, 0, [], [];
      assert View() == NewQueue(buf[..]);
    }
  }

  /** The three copies of one record, before it is published. */
  method CopyRecord(buf: array<byte>, at: nat, a: seq<byte>, b: seq<byte>)
    requires |a| + |b| <= MAX_RECORD && OVERHEAD + |a| + |b| <= buf.Length
    modifies buf
    ensures Gather(buf[..], at, |Record(a + b)|) == Record(a + b)
    ensures LapKept(old(buf[..]), buf[..], at, |Record(a + b)|)
  {
    var hdr := PutU32(|a| + |b|);
    Put(buf, at, hdr);
    label Headed:
    Put(buf, at + OVERHEAD, a);
    Chained(old@Headed(buf[..]), buf[..], at, hdr, a);
    label Half:
    Put(buf, at + OVERHEAD + |a|, b);
    Chained(old@Half(buf[..]), buf[..], at, hdr + a, b);
    assert hdr + a + b == Record(a + b);
  }

  /** Copying a whole record in past the write counter, and then publishing it. */
  lemma Published(q: Queue, buf: seq<byte>, body: Body)
    requires RecordRings.Inv(q) && q.ring.p.Resting? && q.reader.Away?
    requires q.ring.w - q.ring.r + OVERHEAD + |body| <= |buf|
    requires LapKept(q.ring.buf, buf, q.ring.w, |Record(body)|) && Gather(buf, q.ring.w, |Record(body)|) == Record(body)
    ensures RecordRings.Inv(q.(ring := Ring(buf, q.ring.w + OVERHEAD + |body|, q.ring.r, Resting, Waiting, Stream(q.sent + [body])),
      sent := q.sent + [body]))
  {
    var copied := q.(ring := q.ring.(buf := buf, p := Copying(q.ring.r, Record(body), |Record(body)|)), offering := body);
    CopiedIn(q.ring, buf, Record(body));
    WriteEndKeeps(copied);
    FlatMapAppends(Record, q.sent, body);
    assert After(copied, WriteEnd).(offering := q.offering)
      == q.(ring := Ring(buf, q.ring.w + OVERHEAD + |body|, q.ring.r, Resting, Waiting, Stream(q.sent + [body])),
            sent := q.sent + [body]);
  }

  /** Two copies, the second right after the first, lie there as one. */
  lemma Chained<T>(before: seq<T>, after: seq<T>, at: nat, s: seq<T>, t: seq<T>)
    requires |before| == |after| > 0 && |s| + |t| <= |after|
    requires Gather(before, at, |s|) == s && Gather(after, at + |s|, |t|) == t
    requires LapKept(before, after, at + |s|, |t|)
    ensures Gather(after, at, |s| + |t|) == s + t
  {
    forall i | 0 <= i < |s| + |t| ensures Gather(after, at, |s| + |t|)[i] == (s + t)[i] {
      if i < |s| {
        assert Gather(before, at, |s|)[i] == before[Cell(at + i, |before|)];
      } else {
        assert Gather(after, at + |s|, |t|)[i - |s|] == after[Cell(at + |s| + (i - |s|), |after|)];
      }
    }
  }

  /** The four bytes at the read counter give the oldest record's length, and all of it is there. */
  lemma PeekIsTrue(q: Queue)
    requires RecordRings.Inv(q) && q.reader.Away?
    ensures q.ring.w - q.ring.r >= OVERHEAD <==> |q.taken| < |q.sent|
    ensures |q.taken| < |q.sent| ==>
      var n := GetU32(Gather(q.ring.buf, q.ring.r, OVERHEAD));
      n == |q.sent[|q.taken|]| && OVERHEAD + n <= q.ring.w - q.ring.r
  {
    ReadBeginKeeps(q, 0);
    var seen := After(q, ReadBegin(0));
    WholeRecordSeen(seen);
    if |q.taken| < |q.sent| {
      GatherIsStream(q.ring, OVERHEAD);
      var hdr := Gather(q.ring.buf, q.ring.r, OVERHEAD);
      HeaderIsTrue(seen.(ring := seen.ring.(c := Taking(q.ring.w, hdr))), GetU32(hdr));
    }
  }

  lemma GatherIsBody(q: Queue)
    requires RecordRings.Inv(q) && |q.taken| < |q.sent|
    ensures var body := q.sent[|q.taken|];
      && OVERHEAD + |body| <= q.ring.w - q.ring.r
      && Gather(q.ring.buf, q.ring.r + OVERHEAD, |body|) == body
  {
    var k, s := |q.taken|, q.ring;
    var body := q.sent[k];
    RecordAt(q.sent, k);
    GatherIsStream(s, OVERHEAD + |body|);
    assert Gather(s.buf, s.r, OVERHEAD + |body|) == Record(body);
    forall i | 0 <= i < |body| ensures Gather(s.buf, s.r + OVERHEAD, |body|)[i] == body[i] {
      assert Gather(s.buf, s.r, OVERHEAD + |body|)[OVERHEAD + i] == Record(body)[OVERHEAD + i];
    }
  }
}
