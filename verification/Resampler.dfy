/** The converter: a doubled history buffer, and inner loops with no modulo, against `ResampleSpec`. */
module Resamplers {
  import opened Bytes
  import opened ResampleSpec

  const MAX_M := 8
  const MAX_TAPS := 24 * MAX_M + 1

  /** Taps of the prototype for ratio `m`. */
  function Taps(m: nat): nat {
    24 * m + 1
  }

  /** Samples of history kept, at the input rate. */
  function History(dir: Direction, m: nat): nat
    requires m > 0
  {
    if dir == Decimate then Taps(m) else (Taps(m) + m - 1) / m
  }

  /** 25 taps fall on the first phase and 24 on each other one. */
  lemma PhaseTaps(m: nat)
    requires m > 1
    ensures History(Interpolate, m) == 25
  {
    DivMod(25, 0, m);
    assert Taps(m) + m - 1 == 25 * m;
  }

  function Zeros(n: nat): seq<sample> {
    seq(n, _ => 0)
  }

  /** The last `n` samples of a signal that silence precedes, oldest first. */
  function Window(past: seq<sample>, n: nat): (w: seq<sample>)
    ensures |w| == n
  {
    (Zeros(n) + past)[|past|..]
  }

  lemma WindowAt(past: seq<sample>, n: nat, i: nat)
    requires i < n
    ensures Window(past, n)[i] == At(past, |past| - n + i)
  {
  }

  class Resampler {
    const dir: Direction
    const m: nat
    const h: seq<real>
    const sat: real -> sample
    const nhist: nat
    const hist: array<sample>
    var hpos: nat
    ghost var past: seq<sample>  // all input since the last reset

    function F(): Filter {
      Filter(h, sat)
    }

    ghost predicate Shaped()
      reads this
    {
      && 1 < m <= MAX_M && |h| == Taps(m) && Symmetric(h)
      && nhist == (if dir == Decimate then |h| else 25) && hist.Length == 2 * MAX_TAPS && nhist <= MAX_TAPS
      && hpos < nhist
    }

    /** The history holds the last `nhist` samples heard, contiguously, oldest first, and holds them twice. */
    ghost predicate Sound()
      reads this, hist
    {
      && Shaped()
      && hist[..nhist] == hist[nhist..2 * nhist]
      && hist[hpos..hpos + nhist] == Window(past, nhist)
    }

    ghost predicate Valid()
      reads this, hist
    {
      1 <= m <= MAX_M && (m > 1 ==> Sound() && (dir == Decimate ==> |past| % m == 0))
    }

    constructor (dir: Direction, m: nat, h: seq<real>)
      requires 1 <= m <= MAX_M && (m > 1 ==> |h| == Taps(m) && Symmetric(h))
      ensures Valid() && past == [] && this.dir == dir && this.m == m && this.h == h && fresh(hist)
      ensures sat == Sat16
    {
      this.dir, this.m, this.h, sat := dir, m, h, Sat16;
      nhist := if m == 1 then 0 else History(dir, m);
      hist := new sample[2 * MAX_TAPS](_ => 0);
      hpos, past := 0, [];
      new;
      if m > 1 {
        PhaseTaps(m);
        AllSilent(hist, nhist);
      }
    }

    /** The source's initialiser, which refuses a ratio of none or too many. */
    static method Init(dir: Direction, m: nat, h: seq<real>) returns (rs: Resampler?)
      requires 1 < m <= MAX_M ==> |h| == Taps(m) && Symmetric(h)
      ensures rs == null <==> m == 0 || m > MAX_M
      ensures rs != null ==> rs.Valid() && rs.past == [] && rs.dir == dir && rs.m == m && rs.h == h
      ensures rs != null ==> rs.sat == Sat16
    {
      if m == 0 || m > MAX_M {
        return null;
      }
      rs := new Resampler(dir, m, h);
    }

    /** Forget everything heard. */
    method Reset()
      requires Valid()
      modifies this, hist
      ensures Valid() && past == []
    {
      forall i | 0 <= i < hist.Length {
        hist[i] := 0;
      }
      hpos, past := 0, [];
      if m > 1 {
        AllSilent(hist, nhist);
      }
    }

    /** Append one sample, writing it twice. */
    method Push(x: sample)
      requires Sound()
      modifies this, hist
      ensures Sound() && past == old(past) + [x]
    {
      ghost var before, at := hist[..], hpos;
      hist[hpos] := x;
      hist[hpos + nhist] := x;
      hpos := if hpos + 1 == nhist then 0 else hpos + 1;
      assert before[at..at + nhist] == old(hist[hpos..hpos + nhist]);
      assert hist[..] == before[at := x][at + nhist := x];
      assert before[..nhist] == old(hist[..nhist]) && before[nhist..2 * nhist] == old(hist[nhist..2 * nhist]);
      Slides(before, hist[..], at, nhist, x, past);
      assert hist[..][hpos..hpos + nhist] == hist[hpos..hpos + nhist];
      assert hist[..][..nhist] == hist[..nhist] && hist[..][nhist..2 * nhist] == hist[nhist..2 * nhist];
      past := past + [x];
    }

    lemma Recent(d: nat)
      requires Sound() && d < nhist
      ensures hist[hpos + nhist - 1 - d] == At(past, |past| - 1 - d)
    {
      WindowAt(past, nhist, nhist - 1 - d);
      assert hist[hpos..hpos + nhist][nhist - 1 - d] == hist[hpos + (nhist - 1 - d)];
    }

    /** One turn of the decimator's loop. */
    lemma Turn(i: nat, acc: real)
      requires Sound() && nhist == |h| && i < |h| && acc == Sum(i, AsItLies(h, past))
      ensures acc + Product(h[i], hist[hpos + i]) == Sum(i + 1, AsItLies(h, past))
    {
      Recent(nhist - 1 - i);
      NextTerm(h, past, i, acc, hist[hpos + i]);
    }

    /** One output of the decimator: the symmetric filter over the window as it lies. */
    method Convolve() returns (y: sample)
      requires Sound() && dir == Decimate
      ensures y == GroupOutput(F(), past)
    {
      var acc := 0.0;
      var i := 0;
      while i < |h|
        invariant 0 <= i <= |h| && acc == Sum(i, AsItLies(h, past))
      {
        Turn(i, acc);
        acc := acc + Product(h[i], hist[hpos + i]);
        i := i + 1;
      }
      Unreversed(h, past);
      y := sat(acc);
    }

    /** One output of the interpolator: every m-th tap from `p`, over the window from its newest end. */
    method Phase(p: nat) returns (y: sample)
      requires Sound() && dir == Interpolate && p < m && past != []
      ensures y == PhaseOutput(F(), m, past, p)
    {
      var acc := 0.0;
      var i, d := p, 0;
      ghost var f := PhaseTerms(h, past, m, p);
      PhaseTaps(m);
      Between(h, past, m, p, 0);
      while i < |h|
        invariant 0 <= d && i == Tap(p, d, m) && acc == Sum(Min(i, |h|), f)
        decreases |h| - i
      {
        TapsInReach(p, d, m);
        Recent(d);
        var x := hist[hpos + nhist - 1 - d];
        NextTap(h, past, m, p, d, acc, x);
        acc := acc + Product(h[i], x);
        i, d := i + m, d + 1;
        assert i == Tap(p, d, m);
      }
      y := sat(acc);
    }

    method PushAll(xs: seq<sample>)
      requires Sound()
      modifies this, hist
      ensures Sound() && past == old(past) + xs
    {
      var k := 0;
      while k < |xs|
        invariant 0 <= k <= |xs| && Sound() && past == old(past) + xs[..k]
      {
        Push(xs[k]);
        k := k + 1;
      }
    }

    /** One group of m: its output comes on its first sample. */
    method Group(g: seq<sample>) returns (y: sample)
      requires Sound() && dir == Decimate && |g| == m
      modifies this, hist
      ensures Sound() && past == old(past) + g && y == GroupOutput(F(), old(past) + [g[0]])
    {
      Headed(past, g);
      Push(g[0]);
      y := Convolve();
      PushAll(g[1..]);
    }

    /** `j` groups of the call have been heard, and their outputs are in place. */
    ghost predicate GroupsDone(p0: seq<sample>, input: seq<sample>, out: array<sample>, o0: seq<sample>, goal: seq<sample>, j: nat, at: nat)
      requires m > 0
      reads this, hist, out
    {
      && out != hist && Sound() && dir == Decimate && j <= |goal| <= out.Length == |o0|
      && at == Tap(0, j, m) <= |input| && past == p0 + input[..at]
      && out[..j] == goal[..j] && out[j..] == o0[j..]
    }

    method OneGroup(input: seq<sample>, out: array<sample>, j: nat, at: nat,
        ghost p0: seq<sample>, ghost o0: seq<sample>, ghost goal: seq<sample>)
      requires m > 0 && GroupsDone(p0, input, out, o0, goal, j, at) && j < |goal|
      requires |input| == Tap(0, |goal|, m) && IsGroupGoal(F(), m, p0, input, goal)
      modifies this, hist, out
      ensures GroupsDone(p0, input, out, o0, goal, j + 1, at + m)
    {
      GroupFacts(F(), m, p0, input, goal, j, at);
      out[j] := Group(input[at..at + m]);
    }

    method DecimateAll(input: seq<sample>, out: array<sample>, nout: nat, ghost goal: seq<sample>)
      requires m > 0 && GroupsDone(past, input, out, out[..], goal, 0, 0)
      requires |goal| == nout && |input| == Tap(0, nout, m) && IsGroupGoal(F(), m, past, input, goal)
      modifies this, hist, out
      ensures GroupsDone(old(past), input, out, old(out[..]), goal, nout, |input|)
    {
      var j, at := 0, 0;
      while j < nout
        invariant 0 <= j <= nout && 0 <= at && GroupsDone(old(past), input, out, old(out[..]), goal, j, at)
        decreases nout - j
      {
        OneGroup(input, out, j, at, old(past), old(out[..]), goal);
        j, at := j + 1, at + m;
      }
    }

    /** The m outputs the newest sample gives. */
    method Phases(out: array<sample>, w: nat)
      requires out != hist && Sound() && dir == Interpolate && past != [] && w + m <= out.Length
      modifies out
      ensures out[w..w + m] == PhaseOutputs(F(), m, past)
      ensures out[..w] == old(out[..w]) && out[w + m..] == old(out[w + m..])
    {
      var p := 0;
      while p < m
        invariant 0 <= p <= m && out[w..w + p] == PhaseOutputs(F(), m, past)[..p]
        invariant out[..w] == old(out[..w]) && out[w + m..] == old(out[w + m..])
      {
        ghost var before := out[w..w + p];
        var y := Phase(p);
        out[w + p] := y;
        assert out[w..w + p + 1] == before + [y];
        p := p + 1;
      }
    }

    /** `j` samples of the call have been heard, and m outputs for each are in place. */
    ghost predicate SamplesDone(p0: seq<sample>, input: seq<sample>, out: array<sample>, o0: seq<sample>, goal: seq<sample>, j: nat, w: nat)
      requires m > 0
      reads this, hist, out
    {
      && out != hist && Sound() && dir == Interpolate && w <= |goal| <= out.Length == |o0|
      && w == Tap(0, j, m) && j <= |input| && past == p0 + input[..j]
      && out[..w] == goal[..w] && out[w..] == o0[w..]
    }

    method OneSample(input: seq<sample>, out: array<sample>, j: nat, w: nat,
        ghost p0: seq<sample>, ghost o0: seq<sample>, ghost goal: seq<sample>)
      requires m > 0 && SamplesDone(p0, input, out, o0, goal, j, w) && j < |input| && w + m <= |goal|
      requires goal[w..w + m] == PhaseOutputs(F(), m, p0 + input[..j + 1])
      modifies this, hist, out
      ensures SamplesDone(p0, input, out, o0, goal, j + 1, w + m)
    {
      SampleParts(p0, input, j);
      Push(input[j]);
      Phases(out, w);
      assert goal[..w] + goal[w..w + m] == goal[..w + m];
      assert out[..w] + out[w..w + m] == out[..w + m];
    }

    method InterpolateAll(input: seq<sample>, out: array<sample>, ghost goal: seq<sample>) returns (w: nat)
      requires out != hist && Sound() && dir == Interpolate && Tap(0, |input|, m) == |goal| <= out.Length
      requires forall j :: 0 <= j < |input| ==>
        Tap(0, j, m) + m <= |goal| && goal[Tap(0, j, m)..Tap(0, j, m) + m] == SampleGoal(F(), m, past, input, j)
      modifies this, hist, out
      ensures w == |goal| && SamplesDone(old(past), input, out, old(out[..]), goal, |input|, w)
    {
      var j := 0;
      w := 0;
      while j < |input|
        invariant 0 <= j <= |input| && SamplesDone(old(past), input, out, old(out[..]), goal, j, w)
      {
        assert goal[Tap(0, j, m)..Tap(0, j, m) + m] == SampleGoal(F(), m, old(past), input, j);
        OneSample(input, out, j, w, old(past), old(out[..]), goal);
        j, w := j + 1, w + m;
      }
    }

    /** Convert `input`: a multiple of m samples when decimating, the odd ones being dropped. */
    method Resample(input: seq<sample>, out: array<sample>) returns (n: nat)
      requires out != hist && Valid() && Count(dir, m, |input|) <= out.Length
      modifies this, hist, out
      ensures Valid() && n == Count(dir, m, |input|)
      ensures past == old(past) + input[..Used(dir, m, |input|)]
      ensures out[..n] == Block(dir, F(), m, old(past), input[..Used(dir, m, |input|)]) && out[n..] == old(out[n..])
    {
      CountIsTap(dir, m, |input|);
      assert input[..|input|] == input;
      if m == 1 {
        Copy(input, out);
        n := |input|;
      } else if dir == Decimate {
        n := |input| / m;
        ResampleDown(input[..Used(dir, m, |input|)], out, n);
      } else {
        n := ResampleUp(input, out);
      }
    }

    method Copy(input: seq<sample>, out: array<sample>)
      requires out != hist && m == 1 && |input| <= out.Length
      modifies `past, out
      ensures past == old(past) + input
      ensures out[..|input|] == Block(dir, F(), m, old(past), input) && out[|input|..] == old(out[|input|..])
    {
      forall i | 0 <= i < |input| {
        out[i] := input[i];
      }
      assert out[..|input|] == input;
      Identity(dir, F(), past, input);
      past := past + input;
    }

    method ResampleUp(input: seq<sample>, out: array<sample>) returns (n: nat)
      requires out != hist && Sound() && dir == Interpolate && Tap(0, |input|, m) <= out.Length
      modifies this, hist, out
      ensures Sound() && past == old(past) + input && n == Tap(0, |input|, m)
      ensures out[..n] == Block(dir, F(), m, old(past), input) && out[n..] == old(out[n..])
    {
      SampleGoals(F(), m, past, input);
      n := InterpolateAll(input, out, Block(dir, F(), m, past, input));
      assert input[..|input|] == input;
    }

    method ResampleDown(input: seq<sample>, out: array<sample>, nout: nat)
      requires out != hist && Valid() && m > 1 && dir == Decimate && |input| == Tap(0, nout, m) && nout <= out.Length
      modifies this, hist, out
      ensures Valid() && past == old(past) + input
      ensures out[..nout] == Block(dir, F(), m, old(past), input) && out[nout..] == old(out[nout..])
    {
      GroupGoals(F(), m, past, input, nout);
      DecimateAll(input, out, nout, Block(dir, F(), m, past, input));
    }

    method Pending() returns (n: nat)
      requires Valid()
      ensures n == Owed(dir, m)
    {
      if m == 1 {
        return 0;
      }
      n := (|h| - 1) / 2;
      if dir == Decimate {
        n := n / m;
      }
    }

    /** Run silence through until the delay line is out, and forget everything. */
    method Flush(out: array<sample>, max: nat) returns (got: nat)
      requires out != hist && Valid() && max <= out.Length
      modifies this, hist, out
      ensures Valid() && got == Min(Owed(dir, m), max) && out[got..] == old(out[got..])
      ensures if got > 0 then past == [] else past == old(past)
      ensures got <= |Block(dir, F(), m, old(past), Zeros(Drained(dir, m, got)))|
      ensures out[..got] == Block(dir, F(), m, old(past), Zeros(Drained(dir, m, got)))[..got]
    {
      got := Pending();
      got := Min(got, max);
      if got == 0 {
        return;
      }
      OwedIs(dir, m);
      var nin := Drained(dir, m, got);
      FlushFits(dir, m, got);
      var zeros, tmp := Zeros(nin), new sample[MAX_TAPS](_ => 0);
      assert zeros[..nin] == zeros;
      var n := Resample(zeros, tmp);
      forall i | 0 <= i < got {
        out[i] := tmp[i];
      }
      assert out[..got] == tmp[..n][..got];
      Reset();
    }
  }

  /** How much input to give for at most `outMax` outputs. */
  function InFor(dir: Direction, m: nat, outMax: nat): nat
    requires m > 0
  {
    if dir == Decimate then outMax * m else outMax / m
  }

  /** Output the filter still owes for what it has heard: half its length. */
  function Owed(dir: Direction, m: nat): nat
    requires m > 0
  {
    if m == 1 then 0 else if dir == Decimate then (Taps(m) - 1) / 2 / m else (Taps(m) - 1) / 2
  }

  lemma Headed(heard: seq<sample>, g: seq<sample>)
    requires g != []
    ensures heard + [g[0]] + g[1..] == heard + g
  {
  }

  /** How much of an input of `n` samples a call takes in. */
  function Used(dir: Direction, m: nat, n: nat): (u: nat)
    requires m > 0
    ensures u <= n
  {
    if m == 1 || dir == Interpolate then n
    else
      assert n == (n / m) * m + n % m;
      (n / m) * m
  }

  /** How many zeros it takes to bring out `n` outputs. */
  function Drained(dir: Direction, m: nat, n: nat): nat
    requires m > 0
  {
    if dir == Decimate then n * m else (n + m - 1) / m
  }

  /** A silent stretch is the window on a signal that has not begun. */
  lemma Silence(hist: seq<sample>, at: nat, n: nat)
    requires at + n <= |hist| && forall i :: 0 <= i < |hist| ==> hist[i] == 0
    ensures hist[at..at + n] == Window([], n)
  {
  }

  lemma AllSilent(hist: array<sample>, n: nat)
    requires 2 * n <= hist.Length && forall i :: 0 <= i < hist.Length ==> hist[i] == 0
    ensures hist[..n] == hist[n..2 * n] && hist[0..n] == Window([], n)
  {
    Silence(hist[..], 0, n);
    assert hist[..][0..n] == hist[0..n];
  }

  /** Writing a sample twice slides the doubled window along by one. */
  lemma Slides(before: seq<sample>, after: seq<sample>, at: nat, n: nat, x: sample, heard: seq<sample>)
    requires at < n && 2 * n <= |before|
    requires after == before[at := x][at + n := x]
    requires before[..n] == before[n..2 * n]
    requires before[at..at + n] == Window(heard, n)
    ensures after[..n] == after[n..2 * n]
    ensures var at' := if at + 1 == n then 0 else at + 1;
      after[at'..at' + n] == Window(heard + [x], n)
  {
    var at' := if at + 1 == n then 0 else at + 1;
    var was, now := Window(heard, n), Window(heard + [x], n);
    assert now == was[1..] + [x];
    forall i | 0 <= i < n ensures after[at' + i] == now[i] {
      if i < n - 1 {
        assert now[i] == was[i + 1] == before[at..at + n][i + 1] == before[at + i + 1];
        if at + 1 == n {
          assert before[n..2 * n][i] == before[..n][i];
        }
      }
    }
  }

  function AsItLies(h: seq<real>, heard: seq<sample>): int -> real {
    i => if 0 <= i < |h| then Product(h[i], At(heard, |heard| - |h| + i)) else 0.0
  }

  lemma NextTerm(h: seq<real>, heard: seq<sample>, i: nat, acc: real, x: sample)
    requires i < |h| && acc == Sum(i, AsItLies(h, heard)) && x == At(heard, |heard| - |h| + i)
    ensures acc + Product(h[i], x) == Sum(i + 1, AsItLies(h, heard))
  {
  }

  /** With symmetric taps, filtering needs no reversal of the window. */
  lemma Unreversed(h: seq<real>, heard: seq<sample>)
    requires Symmetric(h)
    ensures Fir(h, Signal(heard), |heard| - 1) == Sum(|h|, AsItLies(h, heard))
  {
    var f, g := AsItLies(h, heard), Terms(h, Signal(heard), |heard| - 1);
    SumReverse(|h|, f);
    forall i | 0 <= i < |h| ensures f(|h| - 1 - i) == g(i) {
      assert h[|h| - 1 - i] == h[i];
    }
    SumSame(|h|, g, i => f(|h| - 1 - i));
  }

  lemma TapsInReach(p: nat, d: nat, m: nat)
    requires m > 1 && Tap(p, d, m) < Taps(m)
    ensures d < 25
  {
    TapIs(p, d, m);
    Laps(d - 24, m);
    assert (d - 24) * m == d * m - 24 * m;
  }

  /** What the taps contribute to output `p` of the group the newest sample gives. */
  function PhaseTerms(h: seq<real>, heard: seq<sample>, m: nat, p: nat): int -> real
    requires m > 0 && heard != []
  {
    Terms(h, Stuffed(Signal(heard), m), Tap(p, |heard| - 1, m))
  }

  /** Tap p + d*m meets the sample d before the newest. */
  lemma OnPhase(h: seq<real>, heard: seq<sample>, m: nat, p: nat, d: nat)
    requires m > 1 && p < m && heard != [] && Tap(p, d, m) < |h|
    ensures PhaseTerms(h, heard, m, p)(Tap(p, d, m)) == Product(h[Tap(p, d, m)], At(heard, |heard| - 1 - d))
  {
    TapIs(p, d, m);
    TapIs(p, |heard| - 1, m);
    var q := |heard| - 1 - d;
    Distributes(|heard| - 1, d, m);
    StuffedOn(Signal(heard), m, q);
  }

  lemma Distributes(a: int, b: int, m: int)
    ensures (a - b) * m == a * m - b * m
  {
  }

  lemma StuffedOn(s: int -> int, m: nat, q: int)
    requires m > 0
    ensures Stuffed(s, m)(q * m) == s(q)
  {
    DivMod(q, 0, m);
  }

  /** A tap between two of the phase meets a stuffed zero. */
  lemma OffPhase(h: seq<real>, heard: seq<sample>, m: nat, p: nat, d: nat, e: nat)
    requires m > 1 && p < m && heard != [] && 0 < e < m && e <= Tap(p, d, m)
    ensures PhaseTerms(h, heard, m, p)(Tap(p, d, m) - e) == 0.0
  {
    TapIs(p, d, m);
    TapIs(p, |heard| - 1, m);
    Distributes(|heard| - 1, d, m);
    DivMod(|heard| - 1 - d, e, m);
  }

  /** So the sum up to one tap of the phase is the sum up to just past the one before. */
  lemma Between(h: seq<real>, heard: seq<sample>, m: nat, p: nat, d: nat)
    requires m > 1 && p < m && heard != []
    ensures var f := PhaseTerms(h, heard, m, p);
      && (d == 0 ==> Sum(Min(p, |h|), f) == 0.0)
      && (d > 0 && Tap(p, d - 1, m) < |h| ==> Sum(Min(Tap(p, d, m), |h|), f) == Sum(Tap(p, d - 1, m) + 1, f))
  {
    var f := PhaseTerms(h, heard, m, p);
    var to := Tap(p, d, m);
    var from := if d == 0 then 0 else Tap(p, d - 1, m) + 1;
    forall i | from <= i < to ensures f(i) == 0.0 {
      OffPhase(h, heard, m, p, d, to - i);
    }
    if from <= |h| {
      SumSkip(from, Min(to, |h|), f);
    }
  }

  /** One turn of the polyphase loop. */
  lemma NextTap(h: seq<real>, heard: seq<sample>, m: nat, p: nat, d: nat, acc: real, x: int)
    requires m > 1 && p < m && heard != [] && Tap(p, d, m) < |h|
    requires acc == Sum(Min(Tap(p, d, m), |h|), PhaseTerms(h, heard, m, p)) && x == At(heard, |heard| - 1 - d)
    ensures acc + Product(h[Tap(p, d, m)], x) == Sum(Min(Tap(p, d + 1, m), |h|), PhaseTerms(h, heard, m, p))
  {
    OnPhase(h, heard, m, p, d);
    Between(h, heard, m, p, d + 1);
  }

  lemma {:induction false} TapsOrdered(p: nat, a: nat, b: nat, m: nat)
    requires a <= b
    ensures Tap(p, a, m) <= Tap(p, b, m)
    decreases b - a
  {
    if a < b {
      TapsOrdered(p, a, b - 1, m);
    }
  }

  lemma CountIsTap(dir: Direction, m: nat, n: nat)
    requires m > 0
    ensures m > 1 && dir == Interpolate ==> Count(dir, m, n) == Tap(0, n, m)
    ensures m > 1 && dir == Decimate ==> Used(dir, m, n) == Tap(0, n / m, m)
  {
    TapIs(0, n, m);
    TapIs(0, n / m, m);
  }

  lemma Identity(dir: Direction, f: Filter, past: seq<sample>, input: seq<sample>)
    ensures Block(dir, f, 1, past, input) == input
  {
  }

  lemma GroupParts(past: seq<sample>, input: seq<sample>, at: nat, to: nat)
    requires at < to <= |input|
    ensures past + input[..at] + input[at..to] == past + input[..to]
    ensures past + input[..at] + [input[at..to][0]] == past + input[..at + 1]
  {
  }

  lemma SampleParts(past: seq<sample>, input: seq<sample>, j: nat)
    requires j < |input|
    ensures past + input[..j] + [input[j]] == past + input[..j + 1]
  {
  }

  /** What the decimator is to put out for group `j` of a call. */
  function GroupGoal(f: Filter, m: nat, past: seq<sample>, input: seq<sample>, j: nat): sample {
    if Tap(0, j, m) < |input| then GroupOutput(f, past + input[..Tap(0, j, m) + 1]) else 0
  }

  ghost predicate IsGroupGoal(f: Filter, m: nat, past: seq<sample>, input: seq<sample>, goal: seq<sample>) {
    forall j :: 0 <= j < |goal| ==> goal[j] == GroupGoal(f, m, past, input, j)
  }

  lemma GroupFacts(f: Filter, m: nat, past: seq<sample>, input: seq<sample>, goal: seq<sample>, j: nat, at: nat)
    requires m > 0 && j < |goal| && at == Tap(0, j, m) && |input| == Tap(0, |goal|, m) && IsGroupGoal(f, m, past, input, goal)
    ensures at + m <= |input| && goal[j] == GroupOutput(f, past + input[..at] + [input[at..at + m][0]])
    ensures past + input[..at] + input[at..at + m] == past + input[..at + m]
  {
    TapsOrdered(0, j + 1, |goal|, m);
    GroupParts(past, input, at, at + m);
    assert goal[j] == GroupGoal(f, m, past, input, j);
  }

  /** What the interpolator is to put out for sample `j` of a call. */
  function SampleGoal(f: Filter, m: nat, past: seq<sample>, input: seq<sample>, j: nat): seq<sample>
    requires m > 0 && j < |input|
  {
    PhaseOutputs(f, m, past + input[..j + 1])
  }

  /** The reference output of a call, one group after another. */
  lemma GroupGoals(f: Filter, m: nat, past: seq<sample>, input: seq<sample>, n: nat)
    requires m > 1 && |past| % m == 0 && |input| == Tap(0, n, m)
    ensures |Block(Decimate, f, m, past, input)| == n && |past + input| % m == 0
    ensures IsGroupGoal(f, m, past, input, Block(Decimate, f, m, past, input))
  {
    CountGrows(Decimate, m, |past|, |input|);
    TapIs(0, n, m);
    DivMod(n, 0, m);
    StillAligned(|past|, n, m);
    forall j | 0 <= j < n ensures Block(Decimate, f, m, past, input)[j] == GroupGoal(f, m, past, input, j) {
      GroupGoalIs(f, m, past, input, n, j);
    }
  }

  lemma StillAligned(a: nat, n: nat, m: nat)
    requires m > 0 && a % m == 0
    ensures (a + n * m) % m == 0
  {
    assert a == (a / m) * m;
    assert a + n * m == (a / m + n) * m;
    DivMod(a / m + n, 0, m);
  }

  lemma GroupGoalIs(f: Filter, m: nat, past: seq<sample>, input: seq<sample>, n: nat, j: nat)
    requires m > 1 && |past| % m == 0 && |input| == Tap(0, n, m) && j < n == |Block(Decimate, f, m, past, input)|
    ensures Block(Decimate, f, m, past, input)[j] == GroupGoal(f, m, past, input, j)
  {
    TapsOrdered(0, j + 1, n, m);
    TapIs(0, j, m);
    var at := Tap(0, j, m);
    var heard := past + input[..at + 1];
    CountGrows(Decimate, m, |past|, |input|);
    Recount(|past|, j, m);
    assert Block(Decimate, f, m, past, input)[j] == Sample(Decimate, f, m, past + input, |past| / m + j);
    forall k | k <= |past| + at ensures Signal(past + input)(k) == Signal(heard)(k) {
    }
    FirIsCausal(f.h, Signal(past + input), Signal(heard), |past| + at);
  }

  lemma Recount(a: nat, j: nat, m: nat)
    requires m > 0 && a % m == 0
    ensures (a / m + j) * m == a + j * m
  {
    assert a == (a / m) * m;
  }

  /** The same for the interpolator: m outputs after another m. */
  lemma SampleGoals(f: Filter, m: nat, past: seq<sample>, input: seq<sample>)
    requires m > 1
    ensures |Block(Interpolate, f, m, past, input)| == Tap(0, |input|, m)
    ensures forall j :: 0 <= j < |input| ==>
      && Tap(0, j, m) + m <= Tap(0, |input|, m)
      && Block(Interpolate, f, m, past, input)[Tap(0, j, m)..Tap(0, j, m) + m] == SampleGoal(f, m, past, input, j)
  {
    CountGrows(Interpolate, m, |past|, |input|);
    TapIs(0, |input|, m);
    forall j | 0 <= j < |input|
      ensures Tap(0, j, m) + m <= Tap(0, |input|, m)
      ensures Block(Interpolate, f, m, past, input)[Tap(0, j, m)..Tap(0, j, m) + m] == SampleGoal(f, m, past, input, j)
    {
      TapsOrdered(0, j + 1, |input|, m);
      SampleGoalIs(f, m, past, input, j);
    }
  }

  lemma SampleGoalIs(f: Filter, m: nat, past: seq<sample>, input: seq<sample>, j: nat)
    requires m > 1 && j < |input| && Tap(0, j, m) + m <= |Block(Interpolate, f, m, past, input)|
    ensures Block(Interpolate, f, m, past, input)[Tap(0, j, m)..Tap(0, j, m) + m] == SampleGoal(f, m, past, input, j)
  {
    var x, y := past + input[..j], PhaseOutputs(f, m, past + input[..j + 1]);
    SampleParts(past, input, j);
    OneMoreSample(f, m, x, input[j]);
    RestFollows(past, input, j + 1);
    ReferenceGrows(Interpolate, f, m, past + input[..j + 1], input[j + 1..]);
    TapIs(0, j, m);
    Distributes(|x|, |past|, m);
    Slices(Reference(Interpolate, f, m, past + input), Reference(Interpolate, f, m, x), y, |past| * m);
  }

  lemma RestFollows(past: seq<sample>, input: seq<sample>, j: nat)
    requires j <= |input|
    ensures past + input[..j] + input[j..] == past + input
  {
  }

  lemma Slices(y: seq<sample>, front: seq<sample>, next: seq<sample>, n: nat)
    requires front + next <= y && n <= |front|
    ensures y[n..][|front| - n..|front| - n + |next|] == next
  {
    assert y[n..][|front| - n..|front| - n + |next|] == y[|front|..|front| + |next|];
    assert y[..|front + next|] == front + next;
  }

  /** Half the filter: 12 outputs when decimating, 12m when interpolating. */
  lemma OwedIs(dir: Direction, m: nat)
    requires m > 1
    ensures Owed(dir, m) == if dir == Decimate then 12 else 12 * m
  {
    DivMod(12, 0, m);
  }

  lemma FlushFits(dir: Direction, m: nat, n: nat)
    requires 1 < m <= MAX_M && 0 < n && n <= if dir == Decimate then 12 else 12 * m
    ensures var nin := Drained(dir, m, n);
      n <= Count(dir, m, nin) <= MAX_TAPS && nin <= MAX_TAPS && Used(dir, m, nin) == nin
  {
    if dir == Decimate {
      DivMod(n, 0, m);
    } else {
      var nin := (n + m - 1) / m;
      assert n + m - 1 == nin * m + (n + m - 1) % m;
    }
  }

  /** That is the most there can be, in whole groups. */
  lemma InForIsLargest(dir: Direction, m: nat, outMax: nat, n: nat)
    requires m > 1
    ensures Count(dir, m, InFor(dir, m, outMax)) <= outMax
    ensures n > InFor(dir, m, outMax) && (dir == Decimate ==> n % m == 0) ==> Count(dir, m, n) > outMax
  {
    if dir == Decimate {
      DivMod(outMax, 0, m);
      assert n == (n / m) * m + n % m;
      QuotientBelow(outMax * m, n / m, m);
    } else {
      assert outMax == (outMax / m) * m + outMax % m;
      QuotientBelow(outMax, n, m);
    }
  }

  /**
   * An interpolating flush with room for it puts out 12m more samples, and among them the one
   * in which the last sample sent meets the centre tap.
   */
  lemma FlushCoversDelay(f: Filter, m: nat, past: seq<sample>)
    requires m > 1 && |f.h| == Taps(m) && past != []
    ensures Drained(Interpolate, m, Owed(Interpolate, m)) == 12
    ensures var y, t := Block(Interpolate, f, m, past, Zeros(12)), (|past| - 1) * m + 12 * m;
      var signal := Stuffed(Signal(past + Zeros(12)), m);
      && |y| == Owed(Interpolate, m) == 12 * m
      && y[11 * m] == f.sat(Fir(f.h, signal, t))
      && Term(f.h, signal, t, 12 * m) == Product(f.h[12 * m], past[|past| - 1])
  {
    var all := past + Zeros(12);
    OwedIs(Interpolate, m);
    DivMod(12, m - 1, m);
    CountGrows(Interpolate, m, |past|, 12);
    Distributes(|past|, 1, m);
    assert Block(Interpolate, f, m, past, Zeros(12))[11 * m] == Sample(Interpolate, f, m, all, |past| * m + 11 * m);
    StuffedOn(Signal(all), m, |past| - 1);
  }

  /** A decimating flush reaches the centre tap for the first sample of the last group. */
  lemma FlushCoversLastGroup(f: Filter, m: nat, past: seq<sample>)
    requires m > 1 && |f.h| == Taps(m) && past != [] && |past| % m == 0
    ensures |past| >= m && Drained(Decimate, m, Owed(Decimate, m)) == 12 * m
    ensures var y, t := Block(Decimate, f, m, past, Zeros(12 * m)), |past| - m + 12 * m;
      && |y| == Owed(Decimate, m) == 12
      && y[11] == f.sat(Fir(f.h, Signal(past + Zeros(12 * m)), t))
      && Term(f.h, Signal(past + Zeros(12 * m)), t, 12 * m) == Product(f.h[12 * m], past[|past| - m])
  {
    OwedIs(Decimate, m);
    DivMod(12, 0, m);
    CountGrows(Decimate, m, |past|, 12 * m);
    Recount(|past|, 11, m);
    QuotientBelow(|past|, 1, m);
    assert |past| == (|past| / m) * m;
    assert Block(Decimate, f, m, past, Zeros(12 * m))[11] == Sample(Decimate, f, m, past + Zeros(12 * m), |past| / m + 11);
  }
}
