/** What integer rate conversion is supposed to compute, over exact arithmetic. */
module ResampleSpec {
  import opened Bytes

  // --- sums ---

  function Sum(n: nat, f: int -> real): real {
    if n == 0 then 0.0 else Sum(n - 1, f) + f(n - 1)
  }

  lemma {:induction false} SumSame(n: nat, f: int -> real, g: int -> real)
    requires forall i :: 0 <= i < n ==> f(i) == g(i)
    ensures Sum(n, f) == Sum(n, g)
  {
    if n > 0 {
      SumSame(n - 1, f, g);
    }
  }

  lemma {:induction false} SumFirst(n: nat, f: int -> real)
    ensures Sum(n + 1, f) == f(0) + Sum(n, i => f(i + 1))
  {
    if n > 0 {
      SumFirst(n - 1, f);
    }
  }

  lemma {:induction false} SumReverse(n: nat, f: int -> real)
    ensures Sum(n, f) == Sum(n, i => f(n - 1 - i))
  {
    if n > 0 {
      SumReverse(n - 1, f);
      SumFirst(n - 1, i => f(n - 1 - i));
      SumSame(n - 1, i => f(n - 2 - i), i => (j => f(n - 1 - j))(i + 1));
    }
  }

  lemma {:induction false} SumSkip(a: nat, b: nat, f: int -> real)
    requires a <= b && forall i :: a <= i < b ==> f(i) == 0.0
    ensures Sum(b, f) == Sum(a, f)
  {
    if a < b {
      SumSkip(a, b - 1, f);
    }
  }

  // --- signals ---

  /** A finite signal is silent outside its samples. */
  function At(x: seq<sample>, k: int): int {
    if 0 <= k < |x| then x[k] else 0
  }

  function Signal(x: seq<sample>): int -> int {
    k => At(x, k)
  }

  /** The signal at m times the rate, with zeros in between. */
  function Stuffed(s: int -> int, m: nat): int -> int
    requires m > 0
  {
    k => if k % m == 0 then s(k / m) else 0
  }

  /** The filter's output at time `t`. */
  function Fir(h: seq<real>, s: int -> int, t: int): real {
    Sum(|h|, Terms(h, s, t))
  }

  function Terms(h: seq<real>, s: int -> int, t: int): int -> real {
    i => Term(h, s, t, i)
  }

  /** One tap applied to one sample. */
  function Product(a: real, b: int): real {
    a * (b as real)
  }

  function Term(h: seq<real>, s: int -> int, t: int, i: int): real {
    if 0 <= i < |h| then Product(h[i], s(t - i)) else 0.0
  }

  predicate Symmetric(h: seq<real>) {
    forall i :: 0 <= i < |h| ==> h[i] == h[|h| - 1 - i]
  }

  /** Round to nearest, ties to even, and saturate. */
  function Sat16(v: real): sample {
    if v >= 32767.0 then 32767 else if v <= -32768.0 then -32768
    else
      var low := v.Floor;
      var over := v - low as real;
      if over < 0.5 || (over == 0.5 && low % 2 == 0) then low else low + 1
  }

  datatype Direction = Decimate | Interpolate

  /** The taps, and what makes a sample of the sum: any final map will do. */
  datatype Filter = Filter(h: seq<real>, sat: real -> sample)

  /** How many outputs `n` inputs give. */
  function Count(dir: Direction, m: nat, n: nat): nat
    requires m > 0
  {
    if m == 1 then n else if dir == Decimate then n / m else n * m
  }

  /** Output number `j`: filter and keep one in m; or stuff with zeros and filter. */
  function Sample(dir: Direction, f: Filter, m: nat, x: seq<sample>, j: nat): sample
    requires m > 0 && (m == 1 ==> j < |x|)
  {
    if m == 1 then x[j]
    else if dir == Decimate then f.sat(Fir(f.h, Signal(x), j * m))
    else f.sat(Fir(f.h, Stuffed(Signal(x), m), j))
  }

  /** The whole output for the whole input. */
  function Reference(dir: Direction, f: Filter, m: nat, x: seq<sample>): (y: seq<sample>)
    requires m > 0
    ensures |y| == Count(dir, m, |x|)
  {
    seq(Count(dir, m, |x|), j requires 0 <= j < Count(dir, m, |x|) => Sample(dir, f, m, x, j))
  }

  // --- causality ---

  lemma FirIsCausal(h: seq<real>, s: int -> int, u: int -> int, t: int)
    requires forall k :: k <= t ==> s(k) == u(k)
    ensures Fir(h, s, t) == Fir(h, u, t)
  {
    SumSame(|h|, Terms(h, s, t), Terms(h, u, t));
  }

  lemma DivMod(q: int, r: int, m: int)
    requires 0 <= r < m
    ensures (q * m + r) / m == q && (q * m + r) % m == r
  {
    var k := q * m + r;
    var d := k / m - q;
    assert k == (k / m) * m + k % m;
    assert (k / m) * m == q * m + d * m;
    Laps(d, m);
  }

  lemma Laps(d: int, m: int)
    requires m > 0
    ensures d >= 1 ==> d * m >= m
    ensures d <= -1 ==> d * m <= -m
  {
  }

  /** k is below a multiple of m exactly when its quotient is below the multiplier. */
  lemma QuotientBelow(k: int, q: int, m: int)
    requires m > 0
    ensures k < q * m <==> k / m < q
  {
    assert k == (k / m) * m + k % m;
    Laps(k / m - q, m);
    assert (k / m - q) * m == (k / m) * m - q * m;
  }

  /** More input changes no output already made. */
  lemma SampleIsCausal(dir: Direction, f: Filter, m: nat, x: seq<sample>, more: seq<sample>, j: nat)
    requires m > 0 && j < Count(dir, m, |x|)
    ensures Sample(dir, f, m, x, j) == Sample(dir, f, m, x + more, j)
  {
    if m > 1 {
      if dir == Decimate {
        QuotientBelow(|x|, j + 1, m);
        assert (j + 1) * m == j * m + m;
        FirIsCausal(f.h, Signal(x), Signal(x + more), j * m);
      } else {
        forall k | k <= j ensures Stuffed(Signal(x), m)(k) == Stuffed(Signal(x + more), m)(k) {
          QuotientBelow(k, |x|, m);
        }
        FirIsCausal(f.h, Stuffed(Signal(x), m), Stuffed(Signal(x + more), m), j);
      }
    }
  }

  lemma CountGrows(dir: Direction, m: nat, a: nat, b: nat)
    requires m > 0
    ensures Count(dir, m, a) <= Count(dir, m, a + b)
    ensures dir == Interpolate || a % m == 0 ==> Count(dir, m, a + b) == Count(dir, m, a) + Count(dir, m, b)
  {
    if dir == Decimate {
      QuotientBelow(a + b, a / m, m);
      assert a == (a / m) * m + a % m;
      if a % m == 0 {
        assert b == (b / m) * m + b % m;
        assert a + b == (a / m) * m + (b / m) * m + b % m == (a / m + b / m) * m + b % m;
        DivMod(a / m + b / m, b % m, m);
      }
    } else {
      assert (a + b) * m == a * m + b * m;
    }
  }

  /** The output for a longer input starts with the output for a shorter one. */
  lemma ReferenceGrows(dir: Direction, f: Filter, m: nat, x: seq<sample>, more: seq<sample>)
    requires m > 0
    ensures Reference(dir, f, m, x) <= Reference(dir, f, m, x + more)
  {
    CountGrows(dir, m, |x|, |more|);
    forall j | 0 <= j < Count(dir, m, |x|)
      ensures Reference(dir, f, m, x)[j] == Reference(dir, f, m, x + more)[j]
    {
      SampleIsCausal(dir, f, m, x, more, j);
    }
  }

  /** What a call adds: the outputs for the input so far and `block`, past those already made. */
  function Block(dir: Direction, f: Filter, m: nat, past: seq<sample>, block: seq<sample>): (y: seq<sample>)
    requires m > 0
  {
    CountGrows(dir, m, |past|, |block|);
    Reference(dir, f, m, past + block)[Count(dir, m, |past|)..]
  }

  function Blocks(dir: Direction, f: Filter, m: nat, past: seq<sample>, blocks: seq<seq<sample>>): seq<sample>
    requires m > 0
    decreases |blocks|
  {
    if blocks == [] then []
    else Block(dir, f, m, past, blocks[0]) + Blocks(dir, f, m, past + blocks[0], blocks[1..])
  }

  function Joined(blocks: seq<seq<sample>>): seq<sample> {
    if blocks == [] then [] else blocks[0] + Joined(blocks[1..])
  }

  /** However the input is blocked, the output is that of the whole input at once. */
  lemma {:induction false} BlockingIsInvisible(dir: Direction, f: Filter, m: nat, past: seq<sample>, blocks: seq<seq<sample>>)
    requires m > 0
    ensures Reference(dir, f, m, past) + Blocks(dir, f, m, past, blocks) == Reference(dir, f, m, past + Joined(blocks))
    decreases |blocks|
  {
    if blocks == [] {
      assert past + Joined(blocks) == past;
    } else {
      var next := past + blocks[0];
      ReferenceGrows(dir, f, m, past, blocks[0]);
      BlockingIsInvisible(dir, f, m, next, blocks[1..]);
      assert next + Joined(blocks[1..]) == past + Joined(blocks);
      assert Reference(dir, f, m, past) + Block(dir, f, m, past, blocks[0]) == Reference(dir, f, m, next);
    }
  }

  // --- the same, from the side of the input ---

  lemma {:induction false} SumAdds(n: nat, f: int -> real, g: int -> real, e: int -> real)
    requires forall i :: 0 <= i < n ==> e(i) == f(i) + g(i)
    ensures Sum(n, e) == Sum(n, f) + Sum(n, g)
  {
    if n > 0 {
      SumAdds(n - 1, f, g, e);
    }
  }

  lemma {:induction false} SumOfOne(n: nat, f: int -> real, k: int)
    requires forall i :: 0 <= i < n && i != k ==> f(i) == 0.0
    ensures Sum(n, f) == if 0 <= k < n then f(k) else 0.0
  {
    if n > 0 {
      SumOfOne(n - 1, f, k);
    }
  }

  /** A tap, or nothing beyond the filter's ends. */
  function TapAt(h: seq<real>, i: int): real {
    if 0 <= i < |h| then h[i] else 0.0
  }

  /** What is heard at time `t` of sample `k`, if samples are `m` apart. */
  function Share(h: seq<real>, x: seq<sample>, m: nat, t: int): int -> real {
    k => Product(TapAt(h, t - k * m), At(x, k))
  }

  /** What is heard at time `t` of all samples together. */
  function Spread(h: seq<real>, x: seq<sample>, m: nat, t: int): real {
    Sum(|x|, Share(h, x, m, t))
  }

  lemma ProductAdds(a: real, b: int, c: int)
    ensures Product(a, b + c) == Product(a, b) + Product(a, c) && Product(a, 0) == 0.0
  {
  }

  function One(k: int, v: int): int -> int {
    t => if t == k then v else 0
  }

  lemma FirAdds(h: seq<real>, s: int -> int, u: int -> int, w: int -> int, t: int)
    requires forall k :: w(k) == s(k) + u(k)
    ensures Fir(h, w, t) == Fir(h, s, t) + Fir(h, u, t)
  {
    forall i | 0 <= i < |h|
      ensures Term(h, w, t, i) == Term(h, s, t, i) + Term(h, u, t, i)
    {
      ProductAdds(h[i], s(t - i), u(t - i));
    }
    SumAdds(|h|, Terms(h, s, t), Terms(h, u, t), Terms(h, w, t));
  }

  lemma FirOfOne(h: seq<real>, k: int, v: int, t: int)
    ensures Fir(h, One(k, v), t) == Product(TapAt(h, t - k), v)
  {
    forall i | 0 <= i < |h| && i != t - k
      ensures Term(h, One(k, v), t, i) == 0.0
    {
      ProductAdds(h[i], 0, 0);
    }
    SumOfOne(|h|, Terms(h, One(k, v), t), t - k);
    assert !(0 <= t - k < |h|) ==> Product(0.0, v) == 0.0;
  }

  lemma OneMoreStuffed(x: seq<sample>, v: sample, m: nat, k: int)
    requires m > 0
    ensures Stuffed(Signal(x + [v]), m)(k) == Stuffed(Signal(x), m)(k) + One(|x| * m, v)(k)
  {
    assert k == (k / m) * m + k % m;
    DivMod(|x|, 0, m);
  }

  /** Filtering is adding up, over the input, each sample's own response. */
  lemma {:induction false} FirIsSpread(h: seq<real>, x: seq<sample>, m: nat, t: int)
    requires m > 0
    ensures Fir(h, Stuffed(Signal(x), m), t) == Spread(h, x, m, t)
    decreases |x|
  {
    if x == [] {
      forall i | 0 <= i < |h|
        ensures Term(h, Stuffed(Signal(x), m), t, i) == 0.0
      {
        ProductAdds(h[i], 0, 0);
      }
      SumSkip(0, |h|, Terms(h, Stuffed(Signal(x), m), t));
    } else {
      var n := |x| - 1;
      var front, v := x[..n], x[n];
      assert x == front + [v];
      FirIsSpread(h, front, m, t);
      forall k ensures Stuffed(Signal(x), m)(k) == Stuffed(Signal(front), m)(k) + One(n * m, v)(k) {
        OneMoreStuffed(front, v, m, k);
      }
      FirAdds(h, Stuffed(Signal(front), m), One(n * m, v), Stuffed(Signal(x), m), t);
      FirOfOne(h, n * m, v, t);
      SumSame(n, Share(h, front, m, t), Share(h, x, m, t));
    }
  }

  /**
   * Output `j` from the side of the input. Decimating, sample `k` is heard through the tap that lies
   * as far along as output `j` lies after it; interpolating, through the one as far along as it
   * lies after the place the sample has at the higher rate.
   */
  lemma OutputOfInputs(dir: Direction, f: Filter, m: nat, x: seq<sample>, j: nat)
    requires m > 1 && j < Count(dir, m, |x|)
    ensures Reference(dir, f, m, x)[j] ==
      f.sat(if dir == Decimate then Spread(f.h, x, 1, j * m) else Spread(f.h, x, m, j))
  {
    if dir == Decimate {
      FirIsSpread(f.h, x, 1, j * m);
      forall k ensures Stuffed(Signal(x), 1)(k) == Signal(x)(k) {
      }
      FirIsCausal(f.h, Signal(x), Stuffed(Signal(x), 1), j * m);
    } else {
      FirIsSpread(f.h, x, m, j);
    }
  }

  /** The nearest sample there is, and of two as near the even one. */
  lemma NearestSample(v: real)
    ensures v > 32767.0 ==> Sat16(v) == 32767
    ensures v < -32768.0 ==> Sat16(v) == -32768
    ensures -32768.0 <= v <= 32767.0 ==>
      -0.5 <= v - Sat16(v) as real <= 0.5 && (v - Sat16(v) as real == 0.5 || v - Sat16(v) as real == -0.5 ==> Sat16(v) % 2 == 0)
  {
  }

  // --- one sample, or one group, at a time ---

  /** p + d*m, counted up: the index of tap number `d` of phase `p`, or of output `p` of group `d`. */
  function Tap(p: nat, d: nat, m: nat): (i: nat)
    ensures i >= p
  {
    if d == 0 then p else Tap(p, d - 1, m) + m
  }

  lemma {:induction false} TapIs(p: nat, d: nat, m: nat)
    ensures Tap(p, d, m) == p + d * m
  {
    if d > 0 {
      TapIs(p, d - 1, m);
      assert (d - 1) * m + m == d * m;
    }
  }

  /** The decimator's output on hearing the first sample of a group, the newest in `heard`. */
  function GroupOutput(f: Filter, heard: seq<sample>): sample {
    f.sat(Fir(f.h, Signal(heard), |heard| - 1))
  }

  /** Output `p` of the m the interpolator gives on hearing its newest sample. */
  function PhaseOutput(f: Filter, m: nat, heard: seq<sample>, p: nat): sample
    requires m > 0 && heard != []
  {
    f.sat(Fir(f.h, Stuffed(Signal(heard), m), Tap(p, |heard| - 1, m)))
  }

  function PhaseOutputs(f: Filter, m: nat, heard: seq<sample>): (y: seq<sample>)
    requires m > 0 && heard != []
    ensures |y| == m
  {
    seq(m, p requires 0 <= p < m => PhaseOutput(f, m, heard, p))
  }

  lemma OneMoreSample(f: Filter, m: nat, x: seq<sample>, v: sample)
    requires m > 1
    ensures Reference(Interpolate, f, m, x + [v]) == Reference(Interpolate, f, m, x) + PhaseOutputs(f, m, x + [v])
  {
    var y, z := Reference(Interpolate, f, m, x + [v]), PhaseOutputs(f, m, x + [v]);
    ReferenceGrows(Interpolate, f, m, x, [v]);
    assert |x + [v]| * m == |x| * m + m;
    assert |y| == |x| * m + m;
    forall p | 0 <= p < m ensures y[|x| * m + p] == z[p] {
      TapIs(p, |x|, m);
      assert y[|x| * m + p] == Sample(Interpolate, f, m, x + [v], |x| * m + p);
    }
  }
}
