/** The event queue of the spine, over the record ring. */
module EventQueues {
  import opened Bytes
  import opened RecordRings
  import opened Events
  import AppRing

  function Bodies(es: seq<Entry>): seq<Body> {
    seq(|es|, i requires 0 <= i < |es| => Encode(es[i].event))
  }

  /** The ring's own byte count is the sum of the costs of the events in it. */
  lemma {:induction false} UsedIsStream(es: seq<Entry>)
    ensures |Stream(Bodies(es))| == Used(es)
  {
    if es != [] {
      assert Bodies(es)[1..] == Bodies(es[1..]);
      UsedIsStream(es[1..]);
    }
  }

  lemma FrontBody(es: seq<Entry>)
    ensures es != [] ==>
      var body := Bodies(es)[0];
      && body == Encode(es[0].event) && HEADER <= |body| <= RECORD_MAX
      && WellFormed(body) && Carries(Decode(body), es[0].event)
      && Bodies(es)[1..] == Bodies(es[1..])
  {
    if es != [] {
      EventRoundTrip(es[0].event);
      assert Bodies(es)[1..] == Bodies(es[1..]);
    }
  }

  lemma AttemptBodies(q: Ledger, e: Event, report: bool, used: nat)
    ensures Clipped(e).tag == Clip(CString(e.tag), 3)
    ensures var c := Clipped(e); Head(c, |c.text|, |c.data|) + (c.text + c.data) == Encode(e)
    ensures var q' := Attempt(q, e, report, used);
      Bodies(q'.waiting) == Bodies(q.waiting) + if Newest(q').kept then [Encode(e)] else []
  {
    var c, q' := Clipped(e), Attempt(q, e, report, used);
    assert Head(c, |c.text|, |c.data|) + (c.text + c.data) == Encode(e);
    if Newest(q').kept {
      assert q'.waiting == q.waiting + [Newest(q')];
    }
  }

  /** A refusal, counted and if need be reported, with nothing read meanwhile. */
  function Missed(q: Ledger): Ledger {
    var counted := q.(lost := q.lost + 1);
    if q.reported then counted else Attempt(counted.(reported := true), OVERFLOW, true, Used(q.waiting))
  }

  lemma EmitIsTries(q: Ledger, e: Event)
    requires q.phase.Idle?
    ensures var tried := Attempt(q, e, false, Used(q.waiting));
      Events.Emit(q, e) == (if Newest(tried).kept then tried else Missed(tried)).(began := q.waiting)
  {
  }

  class EventQueue {
    const ring: AppRing.RecordRing
    const scratch: array<byte>
    var lost: nat
    var reported: bool
    ghost var ledger: Ledger

    ghost predicate Valid()
      reads this, ring, ring.buf
    {
      && ring.Valid() && ring.buf != scratch && scratch.Length == RECORD_MAX
      && ring.Contents() == Bodies(ledger.waiting)
      && ledger.phase.Idle? && ledger.cap == ring.buf.Length && ledger.lost == lost && ledger.reported == reported
    }

    constructor (storage: array<byte>)
      requires storage.Length >= RECORD_MAX + OVERHEAD + EVENT_RESERVE
      ensures Valid() && ledger == Opened(storage.Length) && fresh(ring) && fresh(scratch) && ring.buf == storage
    {
      ring := new AppRing.RecordRing(storage);
      scratch := new byte[RECORD_MAX];
      lost, reported, ledger := 0, false, Opened(storage.Length);
    }

    /** Write one event as one record; an ordinary one must leave the reserve free. */
    method QueueEvent(e: Event, report: bool) returns (ok: bool)
      requires Valid()
      modifies `ledger, ring, ring.buf
      ensures Valid() && Used(old(ledger).waiting) <= ledger.cap
      ensures ledger == Attempt(old(ledger), e, report, Used(old(ledger).waiting))
      ensures ok == Newest(ledger).kept
      ensures ok <==> Used(old(ledger).waiting) + 4 + |Encode(e)| + (if report then 0 else EVENT_RESERVE) <= ledger.cap
    {
      ghost var q := ledger;
      UsedIsStream(q.waiting);
      ghost var used := ring.Used();
      var c := Clipped(e);
      ok := WriteParts(Head(c, |c.text|, |c.data|), c.text + c.data, report);
      AttemptBodies(q, e, report, used);
      ledger := Attempt(q, e, report, used);
    }

    method WriteParts(head: seq<byte>, tail: seq<byte>, report: bool) returns (ok: bool)
      requires ring.Valid()
      modifies ring, ring.buf
      ensures ring.Valid()
      ensures ok == Fits(ring.buf.Length, old(ring.w - ring.r), |head + tail|, if report then 0 else EVENT_RESERVE)
      ensures ring.Contents() == old(ring.Contents()) + if ok then [head + tail] else []
    {
      ok := ring.Write(head, tail, if report then 0 else EVENT_RESERVE);
    }

    /** Queue an event, and account for it if the queue would not take it. */
    method Emit(e: Event)
      requires Valid()
      modifies this, ring, ring.buf
      ensures Valid() && ledger == Events.Emit(old(ledger), e)
    {
      ghost var q := ledger;
      var ok := QueueEvent(e, false);
      if !ok {
        Miss();
      }
      EmitIsTries(q, e);
      ledger := Events.Emit(q, e);
    }

    method Miss()
      requires Valid() && Used(ledger.waiting) <= ledger.cap
      modifies this, ring, ring.buf
      ensures Valid() && ledger == Missed(old(ledger))
    {
      lost := lost + 1;
      ledger := ledger.(lost := ledger.lost + 1);
      if !reported {
        reported := true;
        ledger := ledger.(reported := true);
        var told := QueueEvent(OVERFLOW, true);
      }
    }

    /** Take out the oldest event. */
    method Pop() returns (e: Option<Event>)
      requires Valid()
      modifies `ledger, ring, scratch
      ensures Valid() && (e.None? <==> old(ledger).waiting == [])
      ensures e.None? ==> ledger == old(ledger)
      ensures e.Some? ==> (
        && ledger == Events.Pop(old(ledger))
        && Carries(e.value, old(ledger).waiting[0].event) && ledger.popped == old(ledger).popped + [e.value])
    {
      ghost var q := ledger;
      FrontBody(q.waiting);
      e := DecodeOne();
      if e.Some? {
        ledger := Events.Pop(q);
      }
    }

    method DecodeOne() returns (e: Option<Event>)
      requires ring.Valid() && ring.buf != scratch && scratch.Length == RECORD_MAX
      requires ring.Contents() == [] || (HEADER <= |ring.Contents()[0]| <= RECORD_MAX && WellFormed(ring.Contents()[0]))
      modifies ring, scratch
      ensures ring.Valid() && (e.None? <==> old(ring.Contents()) == [])
      ensures e.None? ==> ring.Contents() == []
      ensures e.Some? ==> e.value == Decode(old(ring.Contents())[0]) && ring.Contents() == old(ring.Contents())[1..]
    {
      var n := ReadOne();
      e := if n < HEADER then None else Some(Decode(scratch[..n]));
    }

    method ReadOne() returns (n: nat)
      requires ring.Valid() && ring.buf != scratch && scratch.Length == RECORD_MAX
      requires ring.Contents() == [] || HEADER <= |ring.Contents()[0]| <= RECORD_MAX
      modifies ring, scratch
      ensures ring.Valid() && (n < HEADER <==> old(ring.Contents()) == []) && n <= RECORD_MAX
      ensures n < HEADER ==> ring.Contents() == []
      ensures n >= HEADER ==> scratch[..n] == old(ring.Contents())[0] && ring.Contents() == old(ring.Contents())[1..]
    {
      n := ring.Read(scratch, RECORD_MAX);
    }

    /** A fault has been cleared: the next overflow is to be reported again. */
    method Rearm()
      requires Valid()
      modifies this
      ensures Valid() && ledger == Next(old(ledger), Rearming)
    {
      reported := false;
      ledger := ledger.(reported := false);
    }
  }
}
