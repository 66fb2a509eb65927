/** The upward event queue: what is queued, what is lost, and how a loss is reported. */
module Events {
  import opened Bytes
  import opened RecordRings

  const EVENT_RESERVE := 512
  const TEXT_MAX := 256
  const MAX_DATA := 1024
  const HEADER := 20
  const RECORD_MAX := HEADER + TEXT_MAX + MAX_DATA

  const EV_FAULT: byte := 4
  const FAULT_QUEUE: int := 4

  type i32 = x: int | -0x8000_0000 <= x < 0x8000_0000

  datatype Event = Event(kind: byte, code: i32, flag: bool, tag: seq<byte>, text: seq<byte>, data: seq<byte>)

  // --- records ---

  /** What a record can carry of an event. */
  function Clipped(e: Event): Event {
    e.(tag := Clip(CString(e.tag), 3), text := Clip(CString(e.text), TEXT_MAX - 1), data := Clip(e.data, MAX_DATA))
  }

  /** As much of a C string as there is room for. */
  predicate Shortened(r: seq<byte>, s: seq<byte>, room: nat) {
    r <= s && 0 !in r && |r| <= room && (|r| == room || |r| == |s| || s[|r|] == 0)
  }

  /** `d` is what a reader should get of `e`: every field, text and data as far as a record holds them. */
  predicate Carries(d: Event, e: Event) {
    && d.kind == e.kind && d.code == e.code && d.flag == e.flag
    && Shortened(d.tag, e.tag, 3) && Shortened(d.text, e.text, 255)
    && d.data == e.data[..Min(|e.data|, 1024)]
  }

  /** An event that a record holds whole. */
  predicate Holds(e: Event) {
    |e.tag| <= 3 && 0 !in e.tag && |e.text| <= 255 && 0 !in e.text && |e.data| <= 1024
  }

  function Pad(tag: seq<byte>): (r: seq<byte>)
    requires |tag| <= 3
    ensures |r| == 4
  {
    tag + seq(4 - |tag|, _ => 0)
  }

  function PutI32(v: i32): (s: seq<byte>)
    ensures |s| == 4
  {
    PutU32(if v < 0 then v + 0x1_0000_0000 else v)
  }

  function GetI32(s: seq<byte>): i32
    requires |s| >= 4
  {
    if GetU32(s) >= 0x8000_0000 then GetU32(s) - 0x1_0000_0000 else GetU32(s)
  }

  function Head(e: Event, textLen: u32, dataLen: u32): (s: seq<byte>)
    requires |e.tag| <= 3
    ensures |s| == HEADER
  {
    [e.kind, if e.flag then 1 else 0] + Pad(e.tag) + [0, 0] + PutI32(e.code) + PutU32(textLen) + PutU32(dataLen)
  }

  function Encode(e: Event): (body: Body)
    ensures HEADER <= |body| < RECORD_MAX
  {
    var c := Clipped(e);
    Head(c, |c.text|, |c.data|) + c.text + c.data
  }

  function TextLen(rec: seq<byte>): u32
    requires |rec| >= HEADER
  {
    GetU32(rec[12..16])
  }

  function DataLen(rec: seq<byte>): u32
    requires |rec| >= HEADER
  {
    GetU32(rec[16..20])
  }

  predicate WellFormed(rec: seq<byte>) {
    |rec| >= HEADER && HEADER + TextLen(rec) + DataLen(rec) <= |rec|
  }

  function Decode(rec: seq<byte>): Event
    requires WellFormed(rec)
  {
    var tail := rec[HEADER..];
    var text := tail[..Min(TextLen(rec), TEXT_MAX - 1)];
    var data := tail[TextLen(rec)..][..Min(DataLen(rec), MAX_DATA)];
    Event(rec[0], GetI32(rec[8..12]), rec[1] != 0, CString(rec[2..5]), CString(text), data)
  }

  lemma I32RoundTrip(v: i32)
    ensures GetI32(PutI32(v)) == v
  {
    var u: u32 := if v < 0 then v + 0x1_0000_0000 else v;
    U32RoundTrip(u, []);
    assert PutU32(u) + [] == PutU32(u);
  }

  lemma {:induction false} CStringStops(s: seq<byte>, rest: seq<byte>)
    requires 0 !in s && (rest == [] || rest[0] == 0)
    ensures CString(s + rest) == s
  {
    if s != [] {
      assert (s + rest)[1..] == s[1..] + rest;
      CStringStops(s[1..], rest);
    }
  }

  lemma PadRoundTrip(tag: seq<byte>)
    requires |tag| <= 3 && 0 !in tag
    ensures CString(Pad(tag)[..3]) == tag
  {
    var zeros := seq(3 - |tag|, _ => 0 as byte);
    assert Pad(tag)[..3] == tag + zeros;
    CStringStops(tag, zeros);
  }

  lemma HeadParts(e: Event, n: u32, m: u32)
    requires |e.tag| <= 3
    ensures var h := Head(e, n, m);
      && h[0] == e.kind && (h[1] != 0) == e.flag && h[2..5] == Pad(e.tag)[..3]
      && h[8..12] == PutI32(e.code) && h[12..16] == PutU32(n) && h[16..20] == PutU32(m)
  {
    var a := [e.kind, if e.flag then 1 else 0] + Pad(e.tag) + [0, 0];
    var h := Head(e, n, m);
    assert h == a + (PutI32(e.code) + PutU32(n) + PutU32(m)) && |a| == 8;
    assert h[..8] == a && h[8..12] == PutI32(e.code);
    assert a[2..6] == Pad(e.tag) && h[2..5] == a[2..6][..3];
  }

  lemma ClippedCarries(e: Event)
    ensures Carries(Clipped(e), e) && (Holds(e) ==> Clipped(e) == e)
  {
  }

  /** Every field of an event comes back as it went in, up to the stated truncation. */
  lemma EventRoundTrip(e: Event)
    ensures WellFormed(Encode(e)) && Decode(Encode(e)) == Clipped(e)
    ensures Carries(Decode(Encode(e)), e)
    ensures Holds(e) ==> Decode(Encode(e)) == e
  {
    RecordReadsBack(e);
    ClippedCarries(e);
  }

  lemma RecordReadsBack(e: Event)
    ensures WellFormed(Encode(e)) && Decode(Encode(e)) == Clipped(e)
  {
    var c := Clipped(e);
    var n, m := |c.text|, |c.data|;
    var h, rec := Head(c, n, m), Encode(e);
    assert rec == h + (c.text + c.data);
    assert forall i, j :: 0 <= i <= j <= HEADER ==> rec[i..j] == h[i..j];
    HeadParts(c, n, m);
    U32RoundTrip(n, []);
    U32RoundTrip(m, []);
    assert PutU32(n) + [] == PutU32(n) && PutU32(m) + [] == PutU32(m);
    assert TextLen(rec) == n && DataLen(rec) == m;
    I32RoundTrip(c.code);
    PadRoundTrip(c.tag);
    var tail := rec[HEADER..];
    assert tail == c.text + c.data && tail[..n] == c.text && tail[n..][..m] == c.data;
    CStringStops(c.text, []);
    assert c.text + [] == c.text;
  }

  // --- accounting ---

  /** One attempt to queue an event; `report` marks the record that says the queue overflowed. */
  datatype Entry = Entry(event: Event, kept: bool, report: bool)

  /** A message as a C string's bytes; what is not a character of one shows as '?'. */
  function Ascii(s: string): (r: seq<byte>)
    ensures |r| == |s| && forall i :: 0 <= i < |r| ==> r[i] != 0
  {
    seq(|s|, i requires 0 <= i < |s| => if '\0' < s[i] < '\U{80}' then s[i] as int else 0x3f)
  }

  const OVERFLOW: Event :=
    Event(EV_FAULT, FAULT_QUEUE, false, [], Ascii("event queue overflowed; received data was lost"), [])

  /**
   * Where the emitting thread is: between events; with the ring's fill loaded for an event; having
   * counted a refusal it must report; or with the fill loaded for the report.
   */
  datatype Phase = Idle | Trying(event: Event, seen: nat) | Owing | Reporting(seen: nat)

  /**
   * Everything that happened to the queue: all attempts, what waits, and what was handed out.
   * `began` is what waited when the latest event was begun.
   */
  datatype Ledger = Ledger(
    cap: nat, waiting: seq<Entry>, lost: nat, reported: bool, log: seq<Entry>, popped: seq<Event>,
    phase: Phase, began: seq<Entry>)

  function Cost(e: Event): (n: nat)
    ensures HEADER + OVERHEAD <= n <= RECORD_MAX + OVERHEAD
  {
    OVERHEAD + |Encode(e)|
  }

  function Used(es: seq<Entry>): nat {
    if es == [] then 0 else Cost(es[0].event) + Used(es[1..])
  }

  function Opened(cap: nat): Ledger {
    Ledger(cap, [], 0, false, [], [], Idle, [])
  }

  /** One attempt, the ring having looked `seen` bytes full: the reader may have freed more since. */
  function Attempt(q: Ledger, e: Event, report: bool, seen: nat): (r: Ledger)
    ensures r.log != [] && r.log[..|r.log| - 1] == q.log
  {
    var room := seen <= q.cap && Fits(q.cap, seen, |Encode(e)|, if report then 0 else EVENT_RESERVE);
    var entry := Entry(e, room, report);
    q.(waiting := if entry.kept then q.waiting + [entry] else q.waiting, log := q.log + [entry])
  }

  function Newest(q: Ledger): Entry
    requires q.log != []
  {
    q.log[|q.log| - 1]
  }

  /** The attempt at an event is over. A refusal is counted; the first since the last reset is to be reported. */
  function Tried(q: Ledger, e: Event, seen: nat): (r: Ledger)
    ensures r.log != []
  {
    var tried := Attempt(q, e, false, seen);
    if Newest(tried).kept then tried.(phase := Idle)
    else tried.(lost := q.lost + 1, reported := true, phase := if q.reported then Idle else Owing)
  }

  function Pop(q: Ledger): Ledger
    requires q.waiting != []
  {
    EventRoundTrip(q.waiting[0].event);
    q.(waiting := q.waiting[1..], popped := q.popped + [Decode(Encode(q.waiting[0].event))])
  }

  datatype Step =
    | Begin(e: Event) // emit: load the ring's fill
    | Finish          // write the record, or find there was no room
    | BeginReport     // load the fill again, for the report
    | Popping         // the reader takes the oldest event
    | Rearming        // a fault is cleared: the next overflow is to be reported again

  predicate Enabled(q: Ledger, a: Step) {
    match a
    case Begin(_) => q.phase.Idle?
    case Finish => q.phase.Trying? || q.phase.Reporting?
    case BeginReport => q.phase.Owing?
    case Popping => q.waiting != []
    case Rearming => q.phase.Idle?
  }

  function Next(q: Ledger, a: Step): Ledger
    requires Enabled(q, a)
  {
    match a
    case Begin(e) => q.(phase := Trying(e, Used(q.waiting)), began := q.waiting)
    case Finish =>
      if q.phase.Trying? then Tried(q, q.phase.event, q.phase.seen)
      else Attempt(q, OVERFLOW, true, q.phase.seen).(phase := Idle)
    case BeginReport => q.(phase := Reporting(Used(q.waiting)))
    case Popping => Pop(q)
    case Rearming => q.(reported := false)
  }

  /** An event emitted with nothing read meanwhile. */
  function Emit(q: Ledger, e: Event): (r: Ledger)
    requires q.phase.Idle?
    ensures r.log != []
  {
    var tried := Next(Next(q, Begin(e)), Finish);
    if tried.phase.Owing? then Next(Next(tried, BeginReport), Finish) else tried
  }

  /** The events whose attempt succeeded, in order. */
  function Kept(log: seq<Entry>): seq<Event> {
    if log == [] then [] else Kept(log[..|log| - 1]) + if log[|log| - 1].kept then [log[|log| - 1].event] else []
  }

  /** How many ordinary attempts failed. */
  function Refused(log: seq<Entry>): nat {
    if log == [] then 0
    else Refused(log[..|log| - 1]) + if log[|log| - 1].kept || log[|log| - 1].report then 0 else 1
  }

  function EventsOf(es: seq<Entry>): (r: seq<Event>)
    ensures |r| == |es|
  {
    seq(|es|, i requires 0 <= i < |es| => es[i].event)
  }

  /** The events whose emission has been tried, reports apart. */
  function Ordinary(log: seq<Entry>): seq<Event> {
    if log == [] then []
    else Ordinary(log[..|log| - 1]) + if log[|log| - 1].report then [] else [log[|log| - 1].event]
  }

  function Reports(es: seq<Entry>): nat {
    if es == [] then 0 else (if es[0].report then 1 else 0) + Reports(es[1..])
  }

  lemma {:induction false} Appended(es: seq<Entry>, x: Entry)
    ensures Used(es + [x]) == Used(es) + Cost(x.event)
    ensures Reports(es + [x]) == Reports(es) + if x.report then 1 else 0
    ensures (es + [x])[..|es|] == es
  {
    if es == [] {
      assert (es + [x])[1..] == [];
    } else {
      Appended(es[1..], x);
      assert (es + [x])[1..] == es[1..] + [x];
    }
  }

  /** What a report costs: the header, its text, and the ring's own overhead. */
  lemma ReportCost()
    ensures Cost(OVERFLOW) == 70 && |Encode(OVERFLOW)| == 66
  {
    var text := Ascii("event queue overflowed; received data was lost");
    assert forall i :: 0 <= i < |text| ==> text[i] != 0;
    assert |text| == 46;
    assert CString(text) == text;
  }

  /** A report needs 70 bytes. */
  lemma ReportRoom(cap: nat, used: nat)
    requires used <= cap
    ensures Fits(cap, used, |Encode(OVERFLOW)|, 0) <==> cap - used >= 70
  {
    ReportCost();
  }

  /** What has been handed out is the first of the events kept, and what waits is the rest of them. */
  predicate Handed(q: Ledger) {
    var kept := Kept(q.log);
    && |q.popped| <= |kept| && EventsOf(q.waiting) == kept[|q.popped|..]
    && forall i :: 0 <= i < |q.popped| ==> Carries(q.popped[i], kept[i])
  }

  ghost predicate Accounted(q: Ledger) {
    Handed(q) && q.lost == Refused(q.log)
  }

  /** Only the reports themselves have ever eaten into the reserve. */
  ghost predicate Reserved(q: Ledger) {
    && q.cap >= RECORD_MAX + OVERHEAD + EVENT_RESERVE
    && Used(q.waiting) <= q.cap
    && Used(q.waiting) + EVENT_RESERVE <= q.cap + 70 * Reports(q.waiting)
    && (forall x :: x in q.waiting && x.report ==> x.event == OVERFLOW)
  }

  /** What the emitting thread has loaded is no less than what waits, and no more than what waited when it began. */
  ghost predicate Loaded(q: Ledger) {
    && Used(q.began) <= q.cap && Used(q.began) + EVENT_RESERVE <= q.cap + 70 * Reports(q.began)
    && match q.phase
       case Idle => true
       case Trying(_, seen) => Used(q.waiting) <= seen <= Used(q.began)
       case Owing => Used(q.waiting) <= Used(q.began)
       case Reporting(seen) => Used(q.waiting) <= seen <= Used(q.began)
  }

  ghost predicate Inv(q: Ledger) {
    Accounted(q) && Reserved(q) && Loaded(q)
  }

  /** The books after one attempt. */
  lemma AttemptIsLogged(q: Ledger, e: Event, report: bool, seen: nat)
    requires Handed(q) && seen <= q.cap
    ensures var q' := Attempt(q, e, report, seen);
      Handed(q') && Refused(q'.log) == Refused(q.log) + (if Newest(q').kept || report then 0 else 1)
  {
    var x := Newest(Attempt(q, e, report, seen));
    LogAppended(q.log, x);
    assert EventsOf(q.waiting + [x]) == EventsOf(q.waiting) + [x.event];
  }

  lemma LogAppended(log: seq<Entry>, x: Entry)
    ensures Kept(log + [x]) == Kept(log) + if x.kept then [x.event] else []
    ensures Refused(log + [x]) == Refused(log) + if x.kept || x.report then 0 else 1
    ensures Ordinary(log + [x]) == Ordinary(log) + if x.report then [] else [x.event]
  {
    assert (log + [x])[..|log|] == log;
  }

  lemma AttemptKeeps(q: Ledger, e: Event, report: bool, seen: nat)
    requires Reserved(q) && Used(q.waiting) <= seen <= q.cap && (report ==> e == OVERFLOW)
    ensures var q' := Attempt(q, e, report, seen);
      && Reserved(q')
      && (Newest(q').kept && !report ==> Used(q'.waiting) + EVENT_RESERVE <= q'.cap)
  {
    Appended(q.waiting, Newest(Attempt(q, e, report, seen)));
    ReportCost();
  }

  lemma TriedKeeps(q: Ledger)
    requires Inv(q) && q.phase.Trying?
    ensures Inv(Next(q, Finish))
  {
    AttemptKeeps(q, q.phase.event, false, q.phase.seen);
    AttemptIsLogged(q, q.phase.event, false, q.phase.seen);
  }

  lemma ReportKeeps(q: Ledger)
    requires Inv(q) && q.phase.Reporting?
    ensures Inv(Next(q, Finish))
  {
    AttemptKeeps(q, OVERFLOW, true, q.phase.seen);
    AttemptIsLogged(q, OVERFLOW, true, q.phase.seen);
  }

  lemma PopKeeps(q: Ledger)
    requires Inv(q) && q.waiting != []
    ensures Inv(Pop(q))
  {
    PopIsLogged(q);
    PopFrees(q);
  }

  lemma PopIsLogged(q: Ledger)
    requires Accounted(q) && q.waiting != []
    ensures Accounted(Pop(q))
  {
    EventRoundTrip(q.waiting[0].event);
    assert EventsOf(q.waiting)[0] == q.waiting[0].event && EventsOf(q.waiting)[1..] == EventsOf(q.waiting[1..]);
    assert Kept(q.log)[|q.popped|] == q.waiting[0].event;
  }

  lemma PopFrees(q: Ledger)
    requires Reserved(q) && q.waiting != []
    ensures Reserved(Pop(q)) && Used(Pop(q).waiting) <= Used(q.waiting)
  {
    if q.waiting[0].report {
      assert q.waiting[0] in q.waiting;
      ReportCost();
    }
  }

  lemma StepKeeps(q: Ledger, a: Step)
    requires Inv(q) && Enabled(q, a)
    ensures Inv(Next(q, a))
  {
    match a
    case Finish =>
      if q.phase.Trying? {
        TriedKeeps(q);
      } else {
        ReportKeeps(q);
      }
    case Popping => PopKeeps(q);
    case _ =>
  }

  ghost predicate Run(q: Ledger, path: seq<Step>, q': Ledger)
    decreases |path|
  {
    if path == [] then q' == q else Enabled(q, path[0]) && Run(Next(q, path[0]), path[1..], q')
  }

  lemma {:induction false} RunKeeps(q: Ledger, path: seq<Step>, q': Ledger)
    requires Inv(q) && Run(q, path, q')
    ensures Inv(q') && q'.cap == q.cap
    decreases |path|
  {
    if path != [] {
      StepKeeps(q, path[0]);
      RunKeeps(Next(q, path[0]), path[1..], q');
    }
  }

  /** The events whose emission has begun, in order. */
  function Begun(path: seq<Step>): seq<Event> {
    if path == [] then [] else BegunBy(path[0]) + Begun(path[1..])
  }

  function InHand(q: Ledger): seq<Event> {
    if q.phase.Trying? then [q.phase.event] else []
  }

  /** The events tried or in hand. */
  function Tally(q: Ledger): seq<Event> {
    Ordinary(q.log) + InHand(q)
  }

  function BegunBy(a: Step): seq<Event> {
    if a.Begin? then [a.e] else []
  }

  lemma StepIsLogged(q: Ledger, a: Step)
    requires Enabled(q, a)
    ensures Tally(Next(q, a)) == Tally(q) + BegunBy(a)
  {
    if a.Finish? {
      LogAppended(q.log, Newest(Next(q, a)));
    }
  }

  lemma {:induction false} RunIsLogged(q: Ledger, path: seq<Step>, q': Ledger)
    requires Run(q, path, q')
    ensures Tally(q') == Tally(q) + Begun(path)
    decreases |path|
  {
    if path != [] {
      StepIsLogged(q, path[0]);
      RunIsLogged(Next(q, path[0]), path[1..], q');
      Regroup(Tally(q), BegunBy(path[0]), Begun(path[1..]));
    }
  }

  lemma Regroup(a: seq<Event>, b: seq<Event>, c: seq<Event>)
    ensures a + b + c == a + (b + c)
  {
  }

  /**
   * In every run of emitting and popping: every event begun is tried once and in order; of those
   * whose attempt succeeds, and of the reports between them, the first have been handed out, each
   * field intact as far as a record holds it, and the rest wait as they are; and the count of lost
   * events is the number of ordinary attempts that failed.
   */
  lemma EveryEventIsAccountedFor(cap: nat, path: seq<Step>, q: Ledger)
    requires cap >= RECORD_MAX + OVERHEAD + EVENT_RESERVE && Run(Opened(cap), path, q)
    ensures Ordinary(q.log) + InHand(q) == Begun(path)
    ensures var kept := Kept(q.log);
      && |q.popped| + |q.waiting| == |kept|
      && (forall i :: 0 <= i < |q.popped| ==> Carries(q.popped[i], kept[i]))
      && (forall i :: 0 <= i < |q.waiting| ==> q.waiting[i].event == kept[|q.popped| + i])
    ensures q.lost == Refused(q.log)
  {
    RunKeeps(Opened(cap), path, q);
    RunIsLogged(Opened(cap), path, q);
    assert Tally(Opened(cap)) == [] && [] + Begun(path) == Begun(path);
    forall i | 0 <= i < |q.waiting| ensures q.waiting[i].event == Kept(q.log)[|q.popped| + i] {
      assert EventsOf(q.waiting)[i] == q.waiting[i].event;
    }
  }

  /** The report's own attempt succeeds exactly if it saw 70 bytes free. */
  lemma ReportFits(q: Ledger)
    requires q.phase.Reporting? && q.phase.seen <= q.cap
    ensures var q', told := Next(q, Finish), Entry(OVERFLOW, q.cap - q.phase.seen >= 70, true);
      Newest(q') == told && q'.waiting == q.waiting + if told.kept then [told] else []
  {
    ReportRoom(q.cap, q.phase.seen);
  }

  /**
   * When the report of an overflow is due, it is kept exactly when the reader had left 70 bytes
   * free by the time the report's own attempt looked. That is so however little is read, if as
   * much was free when the refused event was begun; and it was, if no more than six earlier
   * reports still waited then. In particular the first overflow is always reported.
   */
  lemma OverflowIsReported(cap: nat, path: seq<Step>, q: Ledger)
    requires cap >= RECORD_MAX + OVERHEAD + EVENT_RESERVE && Run(Opened(cap), path, q) && q.phase.Reporting?
    ensures var q', told := Next(q, Finish), Entry(OVERFLOW, cap - q.phase.seen >= 70, true);
      Newest(q') == told && q'.waiting == q.waiting + if told.kept then [told] else []
    ensures Reports(q.began) <= 6 ==> cap - Used(q.began) >= 70
    ensures cap - Used(q.began) >= 70 ==> cap - q.phase.seen >= 70
  {
    RunKeeps(Opened(cap), path, q);
    ReportFits(q);
  }

  /** An event is refused, with no overflow on record. */
  predicate Overflows(q: Ledger, e: Event) {
    q.phase.Idle? && !q.reported && !Newest(Attempt(q, e, false, Used(q.waiting))).kept
  }

  /** The report of a refused `e` is due, whatever was read since `e` was begun. */
  ghost predicate Due(q: Ledger, e: Event, path: seq<Step>, q': Ledger)
    requires q.phase.Idle?
  {
    Run(Next(q, Begin(e)), path, q') && q'.phase.Reporting? && forall a :: a in path ==> !a.Begin?
  }

  lemma {:induction false} StillBegan(q: Ledger, path: seq<Step>, q': Ledger)
    requires Run(q, path, q') && forall a :: a in path ==> !a.Begin?
    ensures q'.began == q.began
    decreases |path|
  {
    if path != [] {
      assert path[0] in path && forall a :: a in path[1..] ==> a in path;
      StillBegan(Next(q, path[0]), path[1..], q');
    }
  }

  lemma ReportAttempt(q: Ledger)
    requires Used(q.waiting) <= q.cap
    ensures var q', told := Attempt(q, OVERFLOW, true, Used(q.waiting)), Entry(OVERFLOW, q.cap - Used(q.waiting) >= 70, true);
      q'.cap == q.cap && Newest(q') == told && q'.waiting == q.waiting + if told.kept then [told] else []
  {
    ReportRoom(q.cap, Used(q.waiting));
  }

  lemma OverflowTried(q: Ledger, e: Event)
    requires Overflows(q, e)
    ensures var tried := Next(Next(q, Begin(e)), Finish);
      && tried.phase.Owing? && tried.waiting == q.waiting && tried.cap == q.cap
      && Emit(q, e) == Attempt(tried, OVERFLOW, true, Used(q.waiting)).(phase := Idle)
  {
  }

  /** What an overflow with nothing read comes to. */
  lemma EmitOverflows(q: Ledger, e: Event)
    requires Overflows(q, e) && Used(q.waiting) <= q.cap
    ensures var q', told := Emit(q, e), Entry(OVERFLOW, q.cap - Used(q.waiting) >= 70, true);
      && q'.phase.Idle? && q'.cap == q.cap && Newest(q') == told
      && q'.waiting == q.waiting + if told.kept then [told] else []
  {
    OverflowTried(q, e);
    ReportAttempt(Next(Next(q, Begin(e)), Finish));
  }

  /** With nothing read, the report is due after two more steps, with the fill as it was. */
  lemma DueUnread(q: Ledger, e: Event) returns (path: seq<Step>, q': Ledger)
    requires Overflows(q, e)
    ensures Due(q, e, path, q') && q'.phase.seen == Used(q.waiting) && q'.cap == q.cap
    ensures Next(q', Finish) == Emit(q, e)
  {
    path := [Finish, BeginReport];
    assert path[1..] == [BeginReport] && path[1..][1..] == [];
    q' := Next(Next(Next(q, Begin(e)), Finish), BeginReport);
  }

  lemma DueSeen(q: Ledger, e: Event, path: seq<Step>, q': Ledger)
    requires Inv(q) && q.phase.Idle? && Due(q, e, path, q')
    ensures q'.cap == q.cap && q'.phase.seen <= Used(q.waiting) <= q.cap
  {
    var begun := Next(q, Begin(e));
    StepKeeps(q, Begin(e));
    RunKeeps(begun, path, q');
    StillBegan(begun, path, q');
  }

  /** The report is kept however the reader goes about it if and only if 70 bytes are free when the event is begun. */
  lemma ReportedHoweverRead(cap: nat, path: seq<Step>, q: Ledger, e: Event)
    requires cap >= RECORD_MAX + OVERHEAD + EVENT_RESERVE && Run(Opened(cap), path, q) && Overflows(q, e)
    ensures cap - Used(q.waiting) >= 70 <==> forall more, q' :: Due(q, e, more, q') ==> Newest(Next(q', Finish)).kept
  {
    RunKeeps(Opened(cap), path, q);
    forall more, q' | Due(q, e, more, q')
      ensures Newest(Next(q', Finish)).kept == (cap - q'.phase.seen >= 70) && q'.phase.seen <= Used(q.waiting)
    {
      DueSeen(q, e, more, q');
      ReportFits(q');
    }
    var unread, due := DueUnread(q, e);
  }

  // --- where the guarantee ends ---

  /** A delivered payload, a reply, and the notice of a device fault, as the modem thread emits them. */
  const DELIVERY: Event := Event(2, 0, false, Ascii("ARQ"), [], seq(MAX_DATA, _ => 0))
  const REPLY: Event := Event(1, 0, false, [], seq(231, _ => 0x41), [])
  const FAULT: Event := Event(EV_FAULT, 1, false, [], Ascii("FAULT device lost"), [])
  const SMALLEST_RING := RECORD_MAX + OVERHEAD + EVENT_RESERVE

  lemma EventCosts()
    ensures Cost(DELIVERY) == 1048 && Cost(REPLY) == 255 && |Encode(FAULT)| >= HEADER && SMALLEST_RING == 1816
  {
    var text := REPLY.text;
    assert CString(text) == text by {
      assert forall i :: 0 <= i < |text| ==> text[i] != 0;
    }
  }

  /** With no room but the reserve, the notice of a fault is refused. */
  lemma FaultRefused(q: Ledger)
    requires q.cap == SMALLEST_RING && q.phase.Idle? && !q.reported && 1303 <= Used(q.waiting) <= q.cap
    ensures Overflows(q, FAULT)
  {
    EventCosts();
  }

  /** One more fault whose notice is refused, and one more report in the reserve. */
  lemma OneMoreReport(q: Ledger, k: nat)
    requires q.cap == SMALLEST_RING && q.phase.Idle? && !q.reported && Used(q.waiting) == 1303 + 70 * k && k < 7
    ensures var q' := Emit(q, FAULT);
      q'.phase.Idle? && q'.cap == q.cap && Used(q'.waiting) == 1303 + 70 * (k + 1)
  {
    FaultRefused(q);
    EmitOverflows(q, FAULT);
    ReportCost();
    Appended(q.waiting, Entry(OVERFLOW, true, true));
  }

  lemma OneMore(q: Ledger, a: Step, path: seq<Step>, q': Ledger)
    requires Enabled(q, a) && Run(Next(q, a), path, q')
    ensures Run(q, [a] + path, q')
  {
    assert ([a] + path)[1..] == path;
  }

  lemma {:induction false} RunOn(q: Ledger, path: seq<Step>, q': Ledger, more: seq<Step>, q'': Ledger)
    requires Run(q, path, q') && Run(q', more, q'')
    ensures Run(q, path + more, q'')
    decreases |path|
  {
    if path == [] {
      assert path + more == more;
    } else {
      RunOn(Next(q, path[0]), path[1..], q', more, q'');
      assert path + more == [path[0]] + (path[1..] + more);
      OneMore(q, path[0], path[1..] + more, q'');
    }
  }

  lemma EmitRun(q: Ledger, e: Event) returns (path: seq<Step>)
    requires q.phase.Idle?
    ensures Run(q, path, Emit(q, e))
  {
    path := [Begin(e), Finish];
    assert path[1..] == [Finish] && path[1..][1..] == [];
    var tried := Next(Next(q, Begin(e)), Finish);
    if tried.phase.Owing? {
      var more := [BeginReport, Finish];
      assert more[1..] == [Finish] && more[1..][1..] == [];
      RunOn(q, path, tried, more, Emit(q, e));
      path := path + more;
    }
  }

  lemma RearmRun(q: Ledger)
    requires q.phase.Idle?
    ensures Run(q, [Rearming], Next(q, Rearming))
  {
    assert [Rearming][1..] == [];
  }

  /** From a ring with no room but the reserve: a fault, and clearing it, again and again. */
  lemma {:induction false} FillReserve(q: Ledger, k: nat) returns (path: seq<Step>, q': Ledger)
    requires q.cap == SMALLEST_RING && q.phase.Idle? && !q.reported && Used(q.waiting) == 1303 + 70 * k && k <= 7
    ensures Run(q, path, q') && q'.cap == q.cap && q'.phase.Idle? && Used(q'.waiting) == 1303 + 490 && !q'.reported
    decreases 7 - k
  {
    if k == 7 {
      path, q' := [], q;
    } else {
      var once, rest;
      once := EmitRun(q, FAULT);
      OneMoreReport(q, k);
      var told := Emit(q, FAULT);
      RearmRun(told);
      rest, q' := FillReserve(Next(told, Rearming), k + 1);
      RunOn(told, [Rearming], Next(told, Rearming), rest, q');
      RunOn(q, once, told, [Rearming] + rest, q');
      path := once + ([Rearming] + rest);
    }
  }

  /** An event there is room for joins the queue. */
  lemma EmitFits(q: Ledger, e: Event)
    requires q.phase.Idle? && Used(q.waiting) + Cost(e) + EVENT_RESERVE <= q.cap
    ensures var q', kept := Emit(q, e), Entry(e, true, false);
      && q'.phase.Idle? && q'.cap == q.cap && q'.reported == q.reported && q'.waiting == q.waiting + [kept]
      && Used(q'.waiting) == Used(q.waiting) + Cost(e)
  {
    Appended(q.waiting, Entry(e, true, false));
  }

  /** A delivered payload and a reply fill the smallest ring but for its reserve. */
  lemma FillRing() returns (path: seq<Step>, q: Ledger)
    ensures Run(Opened(SMALLEST_RING), path, q) && q.cap == SMALLEST_RING && q.phase.Idle? && !q.reported
    ensures Used(q.waiting) == 1303
  {
    EventCosts();
    var start := Opened(SMALLEST_RING);
    EmitFits(start, DELIVERY);
    var mid := Emit(start, DELIVERY);
    EmitFits(mid, REPLY);
    q := Emit(mid, REPLY);
    var first, second;
    first := EmitRun(start, DELIVERY);
    second := EmitRun(mid, REPLY);
    RunOn(start, first, mid, second, q);
    path := first + second;
  }

  /** With seven reports waiting the eighth can be refused, and then the loss goes unannounced. */
  lemma EighthReportCanBeLost() returns (path: seq<Step>, q: Ledger)
    ensures Run(Opened(SMALLEST_RING), path, q) && Overflows(q, FAULT)
    ensures Newest(Emit(q, FAULT)) == Entry(OVERFLOW, false, true)
  {
    var first, full := FillRing();
    var rest;
    rest, q := FillReserve(full, 0);
    FaultRefused(q);
    EmitOverflows(q, FAULT);
    RunOn(Opened(SMALLEST_RING), first, full, rest, q);
    path := first + rest;
  }
}
