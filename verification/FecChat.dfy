/**
 * Broadcast chat: a table of the last few messages heard, against the whole history of
 * what was ever accepted; and the broadcast message's round trip.
 */
module FecChats {
  import opened Bytes
  import opened Wire
  import WireBuffers

  const WINDOW := 300_000
  const SEEN_MAX := 64

  datatype Slot = Slot(call: seq<byte>, id: u16, at: nat, used: bool)

  /** One question to the filter, and, once accepted, one entry of the history. */
  datatype Heard = Heard(call: seq<byte>, id: u16, at: nat)

  /** Too old to be a repeat; a clock set back makes everything look so, as unsigned subtraction does. */
  predicate Expired(at: nat, now: nat) {
    now < at || now - at > WINDOW
  }

  predicate Matches(e: Slot, q: Heard) {
    e.used && !Expired(e.at, q.at) && e.id == q.id && e.call == q.call
  }

  function Aged(e: Slot, now: nat): Slot {
    if e.used && Expired(e.at, now) then e.(used := false) else e
  }

  /** The table with its first `n` entries aged. */
  function Swept(table: seq<Slot>, now: nat, n: nat): (t: seq<Slot>)
    ensures |t| == |table|
  {
    seq(|table|, i requires 0 <= i < |table| => if i < n then Aged(table[i], now) else table[i])
  }

  /** The first entry from `i` on that matches; the table's length if none does. */
  function FirstMatch(table: seq<Slot>, q: Heard, i: nat): (m: nat)
    requires i <= |table|
    ensures i <= m <= |table|
    ensures m < |table| ==> Matches(table[m], q)
    ensures forall j :: i <= j < m ==> !Matches(table[j], q)
    decreases |table| - i
  {
    if i == |table| || Matches(table[i], q) then i else FirstMatch(table, q, i + 1)
  }

  function FirstFree(table: seq<Slot>, i: nat): (m: nat)
    requires i <= |table|
    ensures i <= m <= |table|
    ensures m < |table| ==> !table[m].used
    ensures forall j :: i <= j < m ==> table[j].used
    decreases |table| - i
  {
    if i == |table| || !table[i].used then i else FirstFree(table, i + 1)
  }

  /** The first of the oldest entries among the first `n`. */
  function Oldest(table: seq<Slot>, n: nat): (m: nat)
    requires 1 <= n <= |table|
    ensures m < n && forall j :: 0 <= j < n ==> table[m].at <= table[j].at
  {
    if n == 1 then 0
    else
      var m := Oldest(table, n - 1);
      if table[n - 1].at < table[m].at then n - 1 else m
  }

  /** Where an accepted message goes. */
  function Place(table: seq<Slot>): (m: nat)
    requires |table| == SEEN_MAX
    ensures m < |table|
  {
    if FirstFree(table, 0) < |table| then FirstFree(table, 0) else Oldest(table, |table|)
  }

  /** What is recorded of a message: as much of the callsign as a slot holds. */
  function Recorded(q: Heard): Heard {
    q.(call := Clip(q.call, MAX_CALL - 1))
  }

  predicate IsFresh(table: seq<Slot>, q: Heard) {
    FirstMatch(table, q, 0) == |table|
  }

  function After(table: seq<Slot>, q: Heard): (t: seq<Slot>)
    requires |table| == SEEN_MAX
    ensures |t| == SEEN_MAX
  {
    var m := FirstMatch(table, q, 0);
    var t := Swept(table, q.at, m);
    if m < |table| then t else t[Place(t) := Slot(Recorded(q).call, q.id, q.at, true)]
  }

  // --- against the history ---

  /** The other acceptances no earlier than acceptance `k`. */
  function NoEarlier(history: seq<Heard>, k: nat): set<nat>
    requires k < |history|
  {
    set j: nat | j < |history| && j != k && history[j].at >= history[k].at
  }

  /** Used slot `i` holds acceptance `owner[i]`, and no two hold the same. */
  ghost predicate Owned(table: seq<Slot>, owner: seq<nat>, history: seq<Heard>) {
    && |table| == |owner| == SEEN_MAX
    && (forall i :: 0 <= i < SEEN_MAX && table[i].used ==>
      owner[i] < |history| && history[owner[i]] == Heard(table[i].call, table[i].id, table[i].at))
    && (forall i, j :: 0 <= i < j < SEEN_MAX && table[i].used && table[j].used ==> owner[i] != owner[j])
  }

  ghost predicate Held(table: seq<Slot>, owner: seq<nat>, k: nat)
    requires |table| == |owner|
  {
    exists i :: 0 <= i < |table| && table[i].used && owner[i] == k
  }

  /** Every acceptance is in the table still, or is too old, or has been overtaken by enough others. */
  ghost predicate Kept(table: seq<Slot>, owner: seq<nat>, history: seq<Heard>, clock: nat)
    requires |table| == |owner|
  {
    forall k :: 0 <= k < |history| ==>
      history[k].at <= clock
      && (Held(table, owner, k) || history[k].at + WINDOW < clock || |NoEarlier(history, k)| >= SEEN_MAX)
  }

  ghost predicate Inv(table: seq<Slot>, owner: seq<nat>, history: seq<Heard>, clock: nat) {
    Owned(table, owner, history) && Kept(table, owner, history, clock)
  }

  lemma SweptAt(table: seq<Slot>, now: nat, n: nat, i: nat)
    requires i < |table|
    ensures Swept(table, now, n)[i] == if i < n then Aged(table[i], now) else table[i]
  {
  }

  /** Aging entries forgets only what is out of the window. */
  lemma SweepKeeps(table: seq<Slot>, owner: seq<nat>, history: seq<Heard>, clock: nat, now: nat, n: nat)
    requires Inv(table, owner, history, clock) && clock <= now
    ensures Inv(Swept(table, now, n), owner, history, now)
  {
    var t := Swept(table, now, n);
    forall k | 0 <= k < |history|
      ensures history[k].at <= now
      ensures Held(t, owner, k) || history[k].at + WINDOW < now || |NoEarlier(history, k)| >= SEEN_MAX
    {
      if Held(table, owner, k) {
        var i :| 0 <= i < |table| && table[i].used && owner[i] == k;
        SweptAt(table, now, n, i);
        assert t[i].used || Expired(table[i].at, now);
      }
    }
  }

  lemma MoreIsNoFewer(history: seq<Heard>, q: Heard, k: nat)
    requires k < |history|
    ensures NoEarlier(history, k) <= NoEarlier(history + [q], k)
    ensures |NoEarlier(history, k)| <= |NoEarlier(history + [q], k)|
  {
    SubsetIsSmaller(NoEarlier(history, k), NoEarlier(history + [q], k));
  }

  lemma {:induction false} SubsetIsSmaller<T>(a: set<T>, b: set<T>)
    requires a <= b
    ensures |a| <= |b|
    decreases |a|
  {
    if a != {} {
      var x :| x in a;
      SubsetIsSmaller(a - {x}, b - {x});
    }
  }

  function Elements(s: seq<nat>): set<nat> {
    set x | x in s
  }

  /** The elements of a list without repetition are as many as the list is long. */
  lemma {:induction false} DistinctCount(s: seq<nat>)
    requires forall i, j :: 0 <= i < j < |s| ==> s[i] != s[j]
    ensures |Elements(s)| == |s|
  {
    if s != [] {
      var n := |s| - 1;
      DistinctCount(s[..n]);
      assert s[n] !in Elements(s[..n]);
      assert s == s[..n] + [s[n]];
      assert Elements(s) == Elements(s[..n]) + {s[n]};
    }
  }

  /** The acceptances all the slots but one hold, and one more after them, are all different. */
  lemma OthersDistinct(owner: seq<nat>, n: nat, s: nat) returns (others: seq<nat>)
    requires s < |owner| && (forall i :: 0 <= i < |owner| ==> owner[i] < n)
    requires forall i, j :: 0 <= i < j < |owner| ==> owner[i] != owner[j]
    ensures |others| == |owner| && forall i, j :: 0 <= i < j < |others| ==> others[i] != others[j]
    ensures forall x :: x in others ==> x == n || exists i :: 0 <= i < |owner| && i != s && owner[i] == x
  {
    others := owner[s := n];
    forall x | x in others && x != n ensures exists i :: 0 <= i < |owner| && i != s && owner[i] == x {
      var i :| 0 <= i < |others| && others[i] == x;
      assert owner[i] == x;
    }
  }

  /** When a full table gives up its oldest entry, the other 63 and the new one are all no earlier. */
  lemma EvictedIsOvertaken(table: seq<Slot>, owner: seq<nat>, history: seq<Heard>, clock: nat, q: Heard, s: nat)
    requires Inv(table, owner, history, clock) && clock <= q.at
    requires s < SEEN_MAX && forall i :: 0 <= i < SEEN_MAX ==> table[i].used && table[s].at <= table[i].at
    ensures |NoEarlier(history + [q], owner[s])| >= SEEN_MAX
  {
    var h, k := history + [q], owner[s];
    var others := OthersDistinct(owner, |history|, s);
    DistinctCount(others);
    var all := Elements(others);
    forall x | x in all ensures x in NoEarlier(h, k) {
      if x != |history| {
        var i :| 0 <= i < |owner| && i != s && owner[i] == x;
        assert history[x].at == table[i].at && history[k].at == table[s].at;
        assert owner[i] != owner[s];
      }
    }
    SubsetIsSmaller(all, NoEarlier(h, k));
  }

  lemma RecordKeeps(table: seq<Slot>, owner: seq<nat>, history: seq<Heard>, q: Heard)
    requires Inv(table, owner, history, q.at)
    ensures var s := Place(table);
      Inv(table[s := Slot(q.call, q.id, q.at, true)], owner[s := |history|], history + [q], q.at)
  {
    var s := Place(table);
    var t, o, h := table[s := Slot(q.call, q.id, q.at, true)], owner[s := |history|], history + [q];
    forall k | 0 <= k < |h|
      ensures h[k].at <= q.at && (Held(t, o, k) || h[k].at + WINDOW < q.at || |NoEarlier(h, k)| >= SEEN_MAX)
    {
      if k == |history| {
        assert t[s].used && o[s] == k;
      } else {
        MoreIsNoFewer(history, q, k);
        if Held(table, owner, k) {
          var i :| 0 <= i < |table| && table[i].used && owner[i] == k;
          if i == s {
            EvictedIsOvertaken(table, owner, history, q.at, q, s);
          } else {
            assert t[i].used && o[i] == k;
          }
        }
      }
    }
  }

  /** A question answered: the history with the message in it, if it was accepted. */
  function Grown(table: seq<Slot>, history: seq<Heard>, q: Heard): seq<Heard> {
    if IsFresh(table, q) then history + [Recorded(q)] else history
  }

  lemma AskKeeps(table: seq<Slot>, owner: seq<nat>, history: seq<Heard>, clock: nat, q: Heard) returns (owner': seq<nat>)
    requires Inv(table, owner, history, clock) && clock <= q.at
    ensures Inv(After(table, q), owner', Grown(table, history, q), q.at)
  {
    var m := FirstMatch(table, q, 0);
    SweepKeeps(table, owner, history, clock, q.at, m);
    owner' := owner;
    if m == |table| {
      var t := Swept(table, q.at, m);
      RecordKeeps(t, owner, history, Recorded(q));
      owner' := owner[Place(t) := |history|];
    }
  }

  /** The filter calls a message a repeat only if that callsign and id were accepted inside the window. */
  lemma RepeatWasHeard(table: seq<Slot>, owner: seq<nat>, history: seq<Heard>, clock: nat, q: Heard) returns (k: nat)
    requires Inv(table, owner, history, clock) && clock <= q.at && !IsFresh(table, q)
    ensures k < |history| && history[k].call == q.call && history[k].id == q.id && q.at - history[k].at <= WINDOW
  {
    k := owner[FirstMatch(table, q, 0)];
  }

  /**
   * It misses a repeat inside the window only when at least 64 other acceptances are no
   * earlier than the original.
   */
  lemma MissedRepeatWasOvertaken(table: seq<Slot>, owner: seq<nat>, history: seq<Heard>, clock: nat, q: Heard, k: nat)
    requires Inv(table, owner, history, clock) && clock <= q.at && IsFresh(table, q)
    requires k < |history| && history[k].call == q.call && history[k].id == q.id && q.at - history[k].at <= WINDOW
    ensures |NoEarlier(history, k)| >= SEEN_MAX
  {
    forall i | 0 <= i < |table| && table[i].used ensures owner[i] != k {
      assert !Matches(table[i], q);
    }
  }

  // --- over every run ---

  function Empty(): (t: seq<Slot>)
    ensures |t| == SEEN_MAX && forall i :: 0 <= i < SEEN_MAX ==> !t[i].used && t[i].call == []
  {
    seq(SEEN_MAX, _ => Slot([], 0, 0, false))
  }

  function TableAfter(qs: seq<Heard>): (t: seq<Slot>)
    ensures |t| == SEEN_MAX
  {
    if qs == [] then Empty() else After(TableAfter(qs[..|qs| - 1]), qs[|qs| - 1])
  }

  /** Everything accepted in the course of the questions `qs`, as recorded. */
  function HistoryOf(qs: seq<Heard>): seq<Heard> {
    if qs == [] then []
    else Grown(TableAfter(qs[..|qs| - 1]), HistoryOf(qs[..|qs| - 1]), qs[|qs| - 1])
  }

  /** The clock never runs backwards. */
  predicate Timely(qs: seq<Heard>) {
    forall i, j :: 0 <= i < j < |qs| ==> qs[i].at <= qs[j].at
  }

  lemma {:induction false} RunKeeps(qs: seq<Heard>) returns (owner: seq<nat>, clock: nat)
    requires Timely(qs)
    ensures Inv(TableAfter(qs), owner, HistoryOf(qs), clock)
    ensures clock == if qs == [] then 0 else qs[|qs| - 1].at
  {
    if qs == [] {
      owner, clock := seq(SEEN_MAX, _ => 0), 0;
    } else {
      var q := qs[|qs| - 1];
      var before;
      owner, before := RunKeeps(qs[..|qs| - 1]);
      owner := AskKeeps(TableAfter(qs[..|qs| - 1]), owner, HistoryOf(qs[..|qs| - 1]), before, q);
      clock := q.at;
    }
  }

  /** Acceptance `k` was of this callsign and id, and inside the window. */
  predicate Repeats(history: seq<Heard>, k: nat, q: Heard)
    requires k < |history|
  {
    history[k].call == q.call && history[k].id == q.id && q.at - history[k].at <= WINDOW
  }

  /**
   * The bounded table agrees with the unbounded history. A message is called a repeat only
   * if it was accepted inside the window; and a repeat inside the window is always called one
   * unless at least 64 other acceptances are no earlier than the original.
   */
  lemma FilterAgreesWithHistory(qs: seq<Heard>, q: Heard)
    requires Timely(qs + [q])
    ensures !IsFresh(TableAfter(qs), q) ==> exists k: nat :: k < |HistoryOf(qs)| && Repeats(HistoryOf(qs), k, q)
    ensures IsFresh(TableAfter(qs), q) ==>
      forall k: nat :: k < |HistoryOf(qs)| && Repeats(HistoryOf(qs), k, q) ==> |NoEarlier(HistoryOf(qs), k)| >= SEEN_MAX
  {
    assert qs == (qs + [q])[..|qs|];
    var owner, clock := RunKeeps(qs);
    assert qs != [] ==> (qs + [q])[|qs| - 1].at <= (qs + [q])[|qs|].at;
    if !IsFresh(TableAfter(qs), q) {
      var k := RepeatWasHeard(TableAfter(qs), owner, HistoryOf(qs), clock, q);
      assert Repeats(HistoryOf(qs), k, q);
    } else {
      forall k: nat | k < |HistoryOf(qs)| && Repeats(HistoryOf(qs), k, q)
        ensures |NoEarlier(HistoryOf(qs), k)| >= SEEN_MAX
      {
        MissedRepeatWasOvertaken(TableAfter(qs), owner, HistoryOf(qs), clock, q, k);
      }
    }
  }

  /** A callsign too long for a slot is never recognised again: every copy is shown. */
  lemma {:induction false} LongCallNeverRepeats(qs: seq<Heard>, q: Heard)
    requires |q.call| >= MAX_CALL
    ensures IsFresh(TableAfter(qs), q)
  {
    ShortCalls(qs);
  }

  lemma {:induction false} ShortCalls(qs: seq<Heard>)
    ensures forall i :: 0 <= i < SEEN_MAX ==> |TableAfter(qs)[i].call| < MAX_CALL
  {
    if qs != [] {
      ShortCalls(qs[..|qs| - 1]);
    }
  }

  // --- the broadcast message ---

  datatype Said = Raw(bytes: seq<byte>) | Broadcast(call: seq<byte>, id: u16, text: seq<byte>)

  /** What a receiver with room for `room` bytes of callsign makes of what it hears. */
  function Hear(data: seq<byte>, room: nat): Said {
    match FrameGet(data)
    case Ok(kind, payload, _) =>
      if kind != TEXT_B || TextBGet(payload).None? then Raw(data)
      else
        var t := TextBGet(payload).value;
        Broadcast(Clip(t.0, room), t.1, t.2)
    case _ => Raw(data)
  }

  /** The bytes of one broadcast, if it fits a payload. */
  function Framed(call: seq<byte>, id: u16, text: seq<byte>): Option<seq<byte>> {
    var payload := TextBPut(CString(call), id, text);
    if |payload| > MAX_PAYLOAD then None else Some(Frame(TEXT_B, payload))
  }

  /** What is encoded is heard, whatever follows it. */
  lemma BroadcastRoundTrip(call: seq<byte>, id: u16, text: seq<byte>, rest: seq<byte>)
    requires Framed(call, id, text).Some?
    ensures Hear(Framed(call, id, text).value + rest, MAX_CALL - 1) == Broadcast(Clip(CString(call), MAX_CALL - 1), id, text)
  {
    FrameRoundTrip(TEXT_B, TextBPut(CString(call), id, text), rest);
    TextBRoundTrip(CString(call), id, text);
  }

  /**
   * At the front of `data` there is a whole broadcast, its length in `k` bytes: type 0x11,
   * a payload of at most 4096 bytes, and in it a callsign of at most 31 bytes and an id.
   */
  ghost predicate WholeBroadcast(data: seq<byte>, k: nat) {
    && data != [] && data[0] == 0x11 && k <= 4 && EndsVarint(data[1..], k)
    && var n := LebValue(data[1..1 + k]);
      && 3 <= n <= 4096 && 1 + k + n <= |data|
      && data[1 + k] <= 31 && data[1 + k] as int + 3 <= n
  }

  /** The payload of such a broadcast. */
  function BroadcastPayload(data: seq<byte>, k: nat): (p: seq<byte>)
    requires 1 + k <= |data|
  {
    data[1 + k..Min(|data|, 1 + k + LebValue(data[1..1 + k]))]
  }

  lemma BroadcastFrame(data: seq<byte>, k: nat)
    requires WholeBroadcast(data, k)
    ensures var p := BroadcastPayload(data, k); |p| >= 3 && p[0] as int + 3 <= |p| && p[0] <= 31
    ensures FrameGet(data) == Ok(0x11, BroadcastPayload(data, k), 1 + k + LebValue(data[1..1 + k]))
  {
    var n := LebValue(data[1..1 + k]);
    assert data[1..][..k] == data[1..1 + k];
    VarintMeaning(data[1..], VARINT_MAX, n, k);
  }

  /** What is shown as a broadcast has one at its front. */
  lemma HeardHasFrame(data: seq<byte>, room: nat) returns (k: nat)
    requires Hear(data, room).Broadcast?
    ensures WholeBroadcast(data, k)
  {
    var v := VarintGet(data[1..], VARINT_MAX).value;
    k := v.1;
    VarintMeaning(data[1..], VARINT_MAX, v.0, k);
    assert data[1..][..k] == data[1..1 + k];
    var p := FrameGet(data).payload;
    assert TextBGet(p).Some? && GetStr(p, MAX_CALL).Some?;
  }

  /** A broadcast is shown as its callsign, its id and its text. */
  lemma BroadcastIsShown(data: seq<byte>, room: nat, k: nat)
    requires WholeBroadcast(data, k)
    ensures var p := BroadcastPayload(data, k);
      |p| >= 3 && p[0] as int + 3 <= |p|
      && var c: nat := p[0];
        && Hear(data, room).Broadcast? && Hear(data, room).call == Clip(CString(p[1..1 + c]), room)
        && Hear(data, room).id == p[1 + c] as int + 0x100 * (p[2 + c] as int) && Hear(data, room).text == p[3 + c..]
  {
    BroadcastFrame(data, k);
    var p := BroadcastPayload(data, k);
    var c: nat := p[0];
    var rest := p[1 + c..];
    assert GetStr(p, MAX_CALL) == Some((CString(p[1..1 + c]), rest));
    assert rest[0] == p[1 + c] && rest[1] == p[2 + c] && rest[2..] == p[3 + c..];
  }

  /** Everything heard is shown: as a broadcast exactly when a whole one is at its front, and otherwise as it came. */
  lemma EverythingIsShown(data: seq<byte>, room: nat)
    ensures Hear(data, room).Broadcast? <==> exists k :: WholeBroadcast(data, k)
    ensures !Hear(data, room).Broadcast? ==> Hear(data, room) == Raw(data)
  {
    if Hear(data, room).Broadcast? {
      var k := HeardHasFrame(data, room);
    } else if k :| WholeBroadcast(data, k) {
      BroadcastIsShown(data, room, k);
    }
  }

  class FecChat {
    const seen: array<Slot>
    var nextId: u16
    ghost var asked: seq<Heard>

    ghost predicate Valid()
      reads this, seen
    {
      seen.Length == SEEN_MAX && seen[..] == TableAfter(asked)
    }

    constructor ()
      ensures Valid() && asked == [] && nextId == 0 && fresh(seen)
    {
      seen := new Slot[SEEN_MAX](_ => Slot([], 0, 0, false));
      nextId, asked := 0, [];
      new;
      assert seen[..] == Empty();
    }

    /** Should this message be shown? Recording it happens here too. */
    method IsNew(call: seq<byte>, id: u16, now: nat) returns (isNew: bool)
      requires Valid()
      modifies `asked, seen
      ensures Valid() && asked == old(asked) + [Heard(call, id, now)]
      ensures isNew == IsFresh(TableAfter(old(asked)), Heard(call, id, now))
    {
      ghost var table, q := seen[..], Heard(call, id, now);
      OneMoreAsked(asked, q);
      asked := asked + [q];
      var freeSlot, oldest := -1, 0;
      var i := 0;
      SweptNone(table, now);
      while i < SEEN_MAX
        modifies seen
        invariant 0 <= i <= SEEN_MAX && 0 <= oldest < SEEN_MAX && Scanned(table, seen[..], q, i, freeSlot, oldest)
      {
        var e := seen[i];
        ScanOn(table, seen[..], q, i, freeSlot, oldest);
        if !e.used || Expired(e.at, now) {
          seen[i] := Aged(e, now);
          freeSlot := if freeSlot < 0 then i else freeSlot;
        } else if e.id == id && e.call == call {
          return false;
        } else if e.at < seen[oldest].at {
          oldest := i;
        }
        i := i + 1;
      }
      var slot := if freeSlot >= 0 then freeSlot else oldest;
      PlaceFound(table, seen[..], q, freeSlot, oldest);
      seen[slot] := Slot(Clip(call, MAX_CALL - 1), id, now, true);
      isNew := true;
    }

    /** Broadcast one message under the next id, which only success uses up. */
    method Encode(call: seq<byte>, text: seq<byte>, out: array<byte>) returns (n: nat)
      modifies `nextId, out
      ensures var whole := Framed(call, old(nextId), text);
        && n == (if whole.Some? && |whole.value| <= out.Length then |whole.value| else 0)
        && (n > 0 ==> out[..n] == whole.value)
        && nextId == (if n > 0 then (old(nextId) + 1) % 0x1_0000 else old(nextId))
    {
      if |text| > MAX_PAYLOAD {
        return 0;
      }
      var payload := new byte[MAX_PAYLOAD];
      var plen := WireBuffers.TextBPutInto(payload, CString(call), nextId, text);
      if plen == 0 {
        return 0;
      }
      n := WireBuffers.FramePut(out, TEXT_B, payload[..plen]);
      if n > 0 {
        nextId := (nextId + 1) % 0x1_0000;
      }
    }
  }

  lemma OneMoreAsked(qs: seq<Heard>, q: Heard)
    ensures TableAfter(qs + [q]) == After(TableAfter(qs), q)
  {
    assert (qs + [q])[..|qs|] == qs;
  }

  /** The scan has passed the first `i` entries without a match, aging them on the way. */
  ghost predicate Scanned(table: seq<Slot>, t: seq<Slot>, q: Heard, i: nat, freeSlot: int, oldest: nat) {
    && |table| == SEEN_MAX && i <= SEEN_MAX && t == Swept(table, q.at, i)
    && FirstMatch(table, q, 0) == FirstMatch(table, q, i)
    && (freeSlot < 0 ==> (forall j :: 0 <= j < i ==> t[j].used) && oldest == if i == 0 then 0 else Oldest(table, i))
    && (freeSlot >= 0 ==> freeSlot < i && !t[freeSlot].used && forall j :: 0 <= j < freeSlot ==> t[j].used)
  }

  lemma SweptNone(table: seq<Slot>, now: nat)
    ensures Swept(table, now, 0) == table
  {
  }

  lemma ScanOn(table: seq<Slot>, t: seq<Slot>, q: Heard, i: nat, freeSlot: int, oldest: nat)
    requires i < SEEN_MAX && Scanned(table, t, q, i, freeSlot, oldest)
    ensures t[i] == table[i]
    ensures !t[i].used || Expired(t[i].at, q.at) ==>
      Scanned(table, t[i := Aged(t[i], q.at)], q, i + 1, if freeSlot < 0 then i else freeSlot, oldest)
    ensures t[i].used && !Expired(t[i].at, q.at) ==>
      if Matches(t[i], q) then !IsFresh(table, q) && After(table, q) == t
      else oldest < SEEN_MAX ==> Scanned(table, t, q, i + 1, freeSlot, if t[i].at < t[oldest].at then i else oldest)
  {
    assert Swept(table, q.at, i + 1) == t[i := Aged(t[i], q.at)];
    if t[i].used && !Expired(t[i].at, q.at) && freeSlot < 0 {
      NoneFree(table, q.at, i);
      assert t[i := Aged(t[i], q.at)] == t;
    }
  }

  /** If aging has freed nothing, it has changed nothing. */
  lemma NoneFree(table: seq<Slot>, now: nat, n: nat)
    requires n <= |table| && forall j :: 0 <= j < n ==> Swept(table, now, n)[j].used
    ensures Swept(table, now, n) == table
  {
    forall j | 0 <= j < |table| ensures Swept(table, now, n)[j] == table[j] {
      SweptAt(table, now, n, j);
    }
  }

  lemma PlaceFound(table: seq<Slot>, t: seq<Slot>, q: Heard, freeSlot: int, oldest: nat)
    requires Scanned(table, t, q, SEEN_MAX, freeSlot, oldest)
    ensures IsFresh(table, q)
    ensures var slot := if freeSlot >= 0 then freeSlot else oldest;
      slot < SEEN_MAX && After(table, q) == t[slot := Slot(Recorded(q).call, q.id, q.at, true)]
  {
    if freeSlot < 0 {
      NoneFree(table, q.at, SEEN_MAX);
    }
  }
}
