/**
 * The lock-free seam between two threads: a circular buffer, a write counter only the
 * producer stores and a read counter only the consumer stores. Each side is a sequence of
 * atomic steps and the two interleave in any order; the value a side loaded of the other's
 * counter may be out of date by the time it is used.
 */
module RingSeam {
  import opened Bytes

  /** Where the element with absolute index `at` lives. */
  function Cell(at: nat, cap: nat): (c: nat)
    requires cap > 0
    ensures c < cap
  {
    at % cap
  }

  lemma CellAfter(at: nat, i: nat, cap: nat)
    requires i < cap
    ensures var off := Cell(at, cap); Cell(at + i, cap) == if off + i < cap then off + i else off + i - cap
  {
    var off, laps := at % cap, at / cap;
    assert at + i == laps * cap + (off + i);
    var k := if off + i < cap then laps else laps + 1;
    var c := if off + i < cap then off + i else off + i - cap;
    assert (laps + 1) * cap == laps * cap + cap;
    Unique(at + i, k, c, cap);
  }

  lemma Unique(x: nat, k: nat, c: nat, cap: nat)
    requires cap > 0 && c < cap && x == k * cap + c
    ensures x % cap == c
  {
    var d := x / cap - k;
    assert x == (x / cap) * cap + x % cap;
    assert (x / cap) * cap == k * cap + d * cap;
    WholeLaps(d, cap);
  }

  lemma WholeLaps(d: int, cap: nat)
    ensures d >= 1 ==> d * cap >= cap
    ensures d <= -1 ==> d * cap + cap <= 0
  {
  }

  /** Two indices less than a lap apart never share a cell. */
  lemma CellsApart(a: nat, b: nat, cap: nat)
    requires a < b < a + cap
    ensures Cell(a, cap) != Cell(b, cap)
  {
    CellAfter(a, b - a, cap);
  }

  /** The `n` elements from absolute index `at` on. */
  function Gather<T>(buf: seq<T>, at: nat, n: nat): (s: seq<T>)
    requires |buf| > 0
    ensures |s| == n
    ensures forall i :: 0 <= i < n ==> s[i] == buf[Cell(at + i, |buf|)]
  {
    seq(n, i requires 0 <= i < n => buf[Cell(at + i, |buf|)])
  }

  datatype Producer<T> = Resting | Copying(rSeen: nat, block: seq<T>, copied: nat)

  datatype Consumer<T> = Waiting | Taking(wSeen: nat, got: seq<T>)

  /** Everything shared, where each side has got to, and all that was ever published. */
  datatype Ring<T> = Ring(buf: seq<T>, w: nat, r: nat, p: Producer<T>, c: Consumer<T>, stream: seq<T>)

  datatype Step<T> =
    | LoadR(block: seq<T>)  // the producer reads r and finds room for `block`
    | CopyIn                // it stores one element
    | PublishW              // it stores w
    | LoadW                 // the consumer reads w
    | CopyOut               // it loads one element
    | PublishR(n: nat)      // it stores r, giving up n elements

  function Fresh<T>(storage: seq<T>): Ring<T> {
    Ring(storage, 0, 0, Resting, Waiting, [])
  }

  ghost predicate Enabled<T>(s: Ring<T>, a: Step<T>)
    requires |s.buf| > 0
  {
    match a
    case LoadR(block) => s.p.Resting? && s.r <= s.w && |block| <= |s.buf| - (s.w - s.r)
    case CopyIn => s.p.Copying? && s.p.copied < |s.p.block|
    case PublishW => s.p.Copying? && s.p.copied == |s.p.block|
    case LoadW => s.c.Waiting?
    case CopyOut => s.c.Taking? && s.r + |s.c.got| < s.c.wSeen
    case PublishR(n) => s.c.Taking? && s.r + n <= s.c.wSeen
  }

  function Next<T>(s: Ring<T>, a: Step<T>): Ring<T>
    requires |s.buf| > 0 && Enabled(s, a)
  {
    match a
    case LoadR(block) => s.(p := Copying(s.r, block, 0))
    case CopyIn =>
      s.(buf := s.buf[Cell(s.w + s.p.copied, |s.buf|) := s.p.block[s.p.copied]], p := s.p.(copied := s.p.copied + 1))
    case PublishW => s.(w := s.w + |s.p.block|, stream := s.stream + s.p.block, p := Resting)
    case LoadW => s.(c := Taking(s.w, []))
    case CopyOut => s.(c := s.c.(got := s.c.got + [s.buf[Cell(s.r + |s.c.got|, |s.buf|)]]))
    case PublishR(n) => s.(r := s.r + n, c := Waiting)
  }

  /** What is published and not yet given up is intact in the buffer. */
  ghost predicate Holds<T>(s: Ring<T>)
    requires |s.buf| > 0 && s.r <= s.w == |s.stream|
  {
    forall k :: s.r <= k < s.w ==> s.buf[Cell(k, |s.buf|)] == s.stream[k]
  }

  ghost predicate ProducerOk<T>(s: Ring<T>)
    requires |s.buf| > 0
  {
    s.p.Copying? ==>
      && s.p.copied <= |s.p.block|
      && s.p.rSeen <= s.r && s.w + |s.p.block| <= s.p.rSeen + |s.buf|
      && forall j :: s.w <= j < s.w + s.p.copied ==> s.buf[Cell(j, |s.buf|)] == s.p.block[j - s.w]
  }

  ghost predicate ConsumerOk<T>(s: Ring<T>)
    requires s.w == |s.stream|
  {
    s.c.Taking? ==>
      && s.r + |s.c.got| <= s.c.wSeen <= s.w
      && s.c.got == s.stream[s.r..s.r + |s.c.got|]
  }

  ghost predicate Inv<T>(s: Ring<T>) {
    && |s.buf| > 0 && s.r <= s.w == |s.stream| && s.w - s.r <= |s.buf|
    && Holds(s) && ProducerOk(s) && ConsumerOk(s)
  }

  lemma FreshInv<T>(storage: seq<T>)
    requires |storage| > 0
    ensures Inv(Fresh(storage))
  {
  }

  /** A store by the producer lands outside everything published and unread, and outside its own copy so far. */
  lemma CopyInMisses<T>(s: Ring<T>, k: nat)
    requires Inv(s) && Enabled(s, CopyIn)
    requires s.r <= k < s.w + s.p.copied
    ensures Next(s, CopyIn).buf[Cell(k, |s.buf|)] == s.buf[Cell(k, |s.buf|)]
  {
    CellsApart(k, s.w + s.p.copied, |s.buf|);
  }

  lemma CopyInKeeps<T>(s: Ring<T>)
    requires Inv(s) && Enabled(s, CopyIn)
    ensures Inv(Next(s, CopyIn))
  {
    var t := Next(s, CopyIn);
    forall k | s.r <= k < s.w ensures t.buf[Cell(k, |t.buf|)] == t.stream[k] {
      CopyInMisses(s, k);
    }
    forall j | t.w <= j < t.w + t.p.copied ensures t.buf[Cell(j, |t.buf|)] == t.p.block[j - t.w] {
      if j < s.w + s.p.copied {
        CopyInMisses(s, j);
      }
    }
  }

  lemma CopyOutKeeps<T>(s: Ring<T>)
    requires Inv(s) && Enabled(s, CopyOut)
    ensures Inv(Next(s, CopyOut))
  {
    var k := s.r + |s.c.got|;
    assert s.buf[Cell(k, |s.buf|)] == s.stream[k];
    assert s.stream[s.r..k] + [s.stream[k]] == s.stream[s.r..k + 1];
  }

  lemma PublishWKeeps<T>(s: Ring<T>)
    requires Inv(s) && Enabled(s, PublishW)
    ensures Inv(Next(s, PublishW))
  {
    var t := Next(s, PublishW);
    forall k | t.r <= k < t.w ensures t.buf[Cell(k, |t.buf|)] == t.stream[k] {
    }
    if s.c.Taking? {
      assert t.stream[s.r..s.r + |s.c.got|] == s.stream[s.r..s.r + |s.c.got|];
    }
  }

  /** Every step of either thread keeps the invariant: no interleaving breaks the ring. */
  lemma StepKeeps<T>(s: Ring<T>, a: Step<T>)
    requires Inv(s) && Enabled(s, a)
    ensures Inv(Next(s, a))
  {
    match a
    case CopyIn => CopyInKeeps(s);
    case CopyOut => CopyOutKeeps(s);
    case PublishW => PublishWKeeps(s);
    case LoadR(_) =>
    case LoadW =>
    case PublishR(_) =>
  }

  /** `t` is where some interleaving of the steps `path` leads from `s`. */
  ghost predicate Run<T>(s: Ring<T>, path: seq<Step<T>>, t: Ring<T>)
    requires |s.buf| > 0
    decreases |path|
  {
    if path == [] then t == s
    else Enabled(s, path[0]) && |Next(s, path[0]).buf| > 0 && Run(Next(s, path[0]), path[1..], t)
  }

  lemma {:induction false} RunKeeps<T>(s: Ring<T>, path: seq<Step<T>>, t: Ring<T>)
    requires Inv(s) && Run(s, path, t)
    ensures Inv(t) && s.stream <= t.stream && s.r <= t.r && |t.buf| == |s.buf|
    decreases |path|
  {
    if path != [] {
      StepKeeps(s, path[0]);
      RunKeeps(Next(s, path[0]), path[1..], t);
    }
  }

  /** Whatever the schedule: the counters stay a buffer apart, and unread data is never overwritten. */
  lemma UnreadSurvives<T>(storage: seq<T>, path: seq<Step<T>>, t: Ring<T>)
    requires |storage| > 0 && Run(Fresh(storage), path, t)
    ensures 0 <= t.w - t.r <= |storage| == |t.buf| && t.w == |t.stream|
    ensures Gather(t.buf, t.r, t.w - t.r) == t.stream[t.r..]
  {
    RunKeeps(Fresh(storage), path, t);
    var unread := t.stream[t.r..];
    forall i | 0 <= i < t.w - t.r ensures Gather(t.buf, t.r, t.w - t.r)[i] == unread[i] {
      assert t.buf[Cell(t.r + i, |t.buf|)] == t.stream[t.r + i];
    }
  }
}
