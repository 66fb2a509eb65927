/** Folding a machine over bytes, and iterating one, whatever the machine's states are. */
module Machines {
  import opened Bytes

  function Fold<S>(f: (S, byte) -> S, s: S, data: seq<byte>): S
    decreases |data|
  {
    if data == [] then s else Fold(f, f(s, data[0]), data[1..])
  }

  function Iterate<S>(f: S -> S, n: nat, s: S): S {
    if n == 0 then s else Iterate(f, n - 1, f(s))
  }

  lemma {:induction false} FoldAppends<S>(f: (S, byte) -> S, s: S, a: seq<byte>, b: seq<byte>)
    ensures Fold(f, s, a + b) == Fold(f, Fold(f, s, a), b)
    decreases |a|
  {
    if a == [] {
      assert a + b == b;
    } else {
      assert (a + b)[0] == a[0] && (a + b)[1..] == a[1..] + b;
      FoldAppends(f, f(s, a[0]), a[1..], b);
    }
  }

  lemma FoldAppendsOne<S>(f: (S, byte) -> S, s: S, a: seq<byte>, b: byte)
    ensures Fold(f, s, a + [b]) == f(Fold(f, s, a), b)
  {
    FoldAppends(f, s, a, [b]);
    var t := Fold(f, s, a);
    assert [b][1..] == [];
    assert Fold(f, t, [b]) == Fold(f, f(t, b), []);
  }

  lemma {:induction false} IterateAdds<S>(f: S -> S, m: nat, n: nat, s: S)
    ensures Iterate(f, m + n, s) == Iterate(f, n, Iterate(f, m, s))
  {
    if m > 0 {
      IterateAdds(f, m - 1, n, f(s));
    }
  }

  lemma IterateFour<S>(f: S -> S, s: S)
    ensures Iterate(f, 4, s) == f(f(f(f(s))))
  {
    assert Iterate(f, 4, s) == Iterate(f, 3, f(s));
    assert Iterate(f, 3, f(s)) == Iterate(f, 2, f(f(s)));
    assert Iterate(f, 2, f(f(s))) == Iterate(f, 1, f(f(f(s))));
  }

  ghost predicate Injective<S(!new)>(f: S -> S) {
    forall x, y :: f(x) == f(y) ==> x == y
  }

  ghost predicate InjectiveInState<S(!new)>(f: (S, byte) -> S) {
    forall x, y, b :: f(x, b) == f(y, b) ==> x == y
  }

  lemma {:induction false} FoldInjective<S(!new)>(f: (S, byte) -> S, x: S, y: S, data: seq<byte>)
    requires InjectiveInState(f)
    requires Fold(f, x, data) == Fold(f, y, data)
    ensures x == y
    decreases |data|
  {
    if data != [] {
      FoldInjective(f, f(x, data[0]), f(y, data[0]), data[1..]);
    }
  }

  lemma {:induction false} IterateInjective<S(!new)>(f: S -> S, n: nat, x: S, y: S)
    requires Injective(f)
    requires Iterate(f, n, x) == Iterate(f, n, y)
    ensures x == y
  {
    if n > 0 {
      IterateInjective(f, n - 1, f(x), f(y));
    }
  }

  // --- shift registers, over any words with an exclusive or ---

  /**
   * `step` shifts the register by one bit; `feed` does so with a message bit mixed in at
   * the low end; `up` makes room for one more byte below.
   */
  datatype ShiftRegister<!W(!new)> = ShiftRegister(
    zero: W,
    xor: (W, W) -> W,
    low: W -> bool,
    shr: W -> W,
    up: W -> W,
    step: W -> W,
    feed: (W, bool) -> W,
    widen: byte -> W,
    fits: (W, nat) -> bool)
  {
    ghost predicate Associative() {
      forall a, b, c :: xor(xor(a, b), c) == xor(a, xor(b, c))
    }

    ghost predicate ZeroIsNeutral() {
      forall a :: xor(a, zero) == a
    }

    ghost predicate Cancels() {
      && (forall a, b, c :: xor(a, b) == xor(a, c) ==> b == c)
      && (forall a, b, c :: xor(a, c) == xor(b, c) ==> a == b)
    }

    /** Shifting a mixture shifts both parts; the part's low bit is fed to the register. */
    ghost predicate Mixes() {
      forall s, w :: step(xor(s, w)) == xor(feed(s, low(w)), shr(w))
    }

    ghost predicate FeedsZero() {
      forall s :: feed(s, false) == step(s)
    }

    /** The register is the shift, with `poly` mixed in whenever a one falls out. */
    ghost predicate BuiltFrom(poly: W) {
      && (forall s :: step(s) == if low(s) then xor(shr(s), poly) else shr(s))
      && (forall s, bit :: feed(s, bit) == if low(s) != bit then xor(shr(s), poly) else shr(s))
    }

    /** The shift and the low bit are linear. */
    ghost predicate Linear() {
      ShiftIsLinear() && LowIsLinear() && Swaps()
    }

    ghost predicate ShiftIsLinear() {
      forall s, w :: shr(xor(s, w)) == xor(shr(s), shr(w))
    }

    ghost predicate LowIsLinear() {
      forall s, w :: low(xor(s, w)) == (low(s) != low(w))
    }

    ghost predicate Swaps() {
      forall a, b, c :: xor(xor(a, b), c) == xor(xor(a, c), b)
    }

    lemma LinearMixes(poly: W)
      requires BuiltFrom(poly) && Linear()
      ensures Mixes() && FeedsZero()
    {
      forall s, w
        ensures step(xor(s, w)) == xor(feed(s, low(w)), shr(w))
      {
        assert xor(xor(shr(s), shr(w)), poly) == xor(xor(shr(s), poly), shr(w));
      }
      assert forall s :: feed(s, false) == step(s);
    }

    /** A byte has eight bits, and two bytes with the same bits are the same byte. */
    ghost predicate WidensBytes() {
      && (forall b :: Iterate(shr, 8, widen(b)) == zero)
      && (forall b, c :: widen(b) == widen(c) ==> b == c)
    }

    // At most four bytes fit a word, and `up` loses nothing of three.

    ghost predicate Grows() {
      && fits(zero, 0)
      && forall b, r, k: nat :: k < 4 && fits(r, k) ==> fits(xor(widen(b), up(r)), k + 1)
    }

    ghost predicate UpAndDown() {
      forall r, k: nat :: k < 4 && fits(r, k) ==> Iterate(shr, 8, up(r)) == r
    }

    ghost predicate ClearsLow() {
      forall r :: LowClear(8, up(r))
    }

    ghost predicate Splits() {
      forall b, c, x, y, k: nat :: k < 4 && fits(x, k) && fits(y, k) && xor(widen(b), up(x)) == xor(widen(c), up(y))
        ==> widen(b) == widen(c) && x == y
    }

    ghost predicate LowClear(n: nat, z: W) {
      n == 0 || (!low(z) && LowClear(n - 1, shr(z)))
    }

    lemma FourClear(n: nat, z: W)
      requires !low(z) && !low(shr(z)) && !low(shr(shr(z))) && !low(shr(shr(shr(z))))
      requires LowClear(n, shr(shr(shr(shr(z)))))
      ensures LowClear(n + 4, z)
    {
      assert LowClear(n + 1, shr(shr(shr(z))));
      assert LowClear(n + 2, shr(shr(z)));
      assert LowClear(n + 3, shr(z));
    }

    /** Feed the `n` low bits of `w`, least significant first. */
    function FeedBits(n: nat, s: W, w: W): W {
      if n == 0 then s else FeedBits(n - 1, feed(s, low(w)), shr(w))
    }

    function FeedByte(s: W, b: byte): W {
      FeedBits(8, s, widen(b))
    }

    function Word(w: seq<byte>): W {
      if w == [] then zero else xor(widen(w[0]), up(Word(w[1..])))
    }

    lemma {:induction false} Mixed(n: nat, s: W, w: W)
      requires Mixes()
      ensures Iterate(step, n, xor(s, w)) == xor(FeedBits(n, s, w), Iterate(shr, n, w))
    {
      if n > 0 {
        assert step(xor(s, w)) == xor(feed(s, low(w)), shr(w));
        Mixed(n - 1, feed(s, low(w)), shr(w));
      }
    }

    /** Feeding a byte's bits one by one is shifting eight times with the byte mixed in first. */
    lemma MixedByte(s: W, b: byte)
      requires Mixes() && WidensBytes() && ZeroIsNeutral()
      ensures FeedByte(s, b) == Iterate(step, 8, xor(s, widen(b)))
    {
      Mixed(8, s, widen(b));
    }

    lemma {:induction false} FeedNothing(n: nat, s: W, z: W)
      requires FeedsZero() && LowClear(n, z)
      ensures FeedBits(n, s, z) == Iterate(step, n, s)
    {
      if n > 0 {
        FeedNothing(n - 1, step(s), shr(z));
      }
    }

    /** Bits above the first `n` only move down while the first `n` are shifted out. */
    lemma HighBitsWait(n: nat, x: W, z: W)
      requires Mixes() && FeedsZero() && LowClear(n, z)
      ensures Iterate(step, n, xor(x, z)) == xor(Iterate(step, n, x), Iterate(shr, n, z))
    {
      Mixed(n, x, z);
      FeedNothing(n, x, z);
    }

    /** Later bytes may be mixed in early: the register only shifts them down. */
    lemma MixEarly(x: W, b: W, r: W, k: nat)
      requires Mixes() && FeedsZero() && Associative() && UpAndDown() && ClearsLow() && k < 4 && fits(r, k)
      ensures xor(Iterate(step, 8, xor(x, b)), r) == Iterate(step, 8, xor(x, xor(b, up(r))))
    {
      assert xor(xor(x, b), up(r)) == xor(x, xor(b, up(r)));
      FeedNothing(8, xor(x, b), up(r));
      Mixed(8, xor(x, b), up(r));
    }

    lemma {:induction false} WordFits(w: seq<byte>)
      requires Grows() && |w| <= 4
      ensures fits(Word(w), |w|)
    {
      if w != [] {
        WordFits(w[1..]);
      }
    }

    lemma {:induction false} WordInjective(v: seq<byte>, w: seq<byte>)
      requires Grows() && Splits() && WidensBytes() && |v| == |w| <= 4 && Word(v) == Word(w)
      ensures v == w
    {
      if v != [] {
        WordFits(v[1..]);
        WordFits(w[1..]);
        assert widen(v[0]) == widen(w[0]);
        WordInjective(v[1..], w[1..]);
        assert v == [v[0]] + v[1..] && w == [w[0]] + w[1..];
      }
    }

    /** A byte fed now, and a word mixed in after it, could both have been mixed in before it. */
    ghost predicate MixesEarly() {
      forall s, b, r, k: nat :: k < 4 && fits(r, k)
        ==> xor(FeedByte(s, b), r) == Iterate(step, 8, xor(s, xor(widen(b), up(r))))
    }

    lemma EarlyMixing()
      requires Mixes() && FeedsZero() && Associative() && ZeroIsNeutral() && WidensBytes() && UpAndDown() && ClearsLow()
      ensures MixesEarly()
    {
      forall s, b, r, k: nat | k < 4 && fits(r, k)
        ensures xor(FeedByte(s, b), r) == Iterate(step, 8, xor(s, xor(widen(b), up(r))))
      {
        MixedByte(s, b);
        MixEarly(s, widen(b), r, k);
      }
    }

    function ByteRun(x: W): W {
      Iterate(step, 8, x)
    }

    lemma MixesFirstByte(s: W, w: seq<byte>)
      requires MixesEarly() && Grows() && 0 < |w| <= 4
      ensures xor(FeedByte(s, w[0]), Word(w[1..])) == ByteRun(xor(s, Word(w)))
    {
      WordFits(w[1..]);
    }

    /** Feeding a short message is running the register with the message mixed in as one word. */
    lemma {:induction false} FoldOfWord(s: W, w: seq<byte>)
      requires MixesEarly() && Grows() && ZeroIsNeutral() && |w| <= 4
      ensures Fold(FeedByte, s, w) == Iterate(ByteRun, |w|, xor(s, Word(w)))
      decreases |w|
    {
      if w != [] {
        MixesFirstByte(s, w);
        FoldOfWord(FeedByte(s, w[0]), w[1..]);
      }
    }

    lemma ByteRunInjective()
      requires Injective(step)
      ensures Injective(ByteRun)
    {
      forall x, y | ByteRun(x) == ByteRun(y)
        ensures x == y
      {
        IterateInjective(step, 8, x, y);
      }
    }

    lemma ShortMessages(t: W, v: seq<byte>, w: seq<byte>)
      requires MixesEarly() && Grows() && Splits() && ZeroIsNeutral() && WidensBytes() && Cancels() && Injective(step)
      requires |v| == |w| <= 4 && Fold(FeedByte, t, v) == Fold(FeedByte, t, w)
      ensures v == w
    {
      FoldOfWord(t, v);
      FoldOfWord(t, w);
      ByteRunInjective();
      IterateInjective(ByteRun, |v|, xor(t, Word(v)), xor(t, Word(w)));
      WordInjective(v, w);
    }

    lemma FeedByteInjective()
      requires Mixes() && WidensBytes() && ZeroIsNeutral() && Injective(step) && Cancels()
      ensures InjectiveInState(FeedByte)
    {
      forall x, y, b | FeedByte(x, b) == FeedByte(y, b)
        ensures x == y
      {
        MixedByte(x, b);
        MixedByte(y, b);
        IterateInjective(step, 8, xor(x, widen(b)), xor(y, widen(b)));
      }
    }

    /** Messages differing only within four consecutive bytes leave different registers. */
    lemma BurstShows(s: W, before: seq<byte>, v: seq<byte>, w: seq<byte>, after: seq<byte>)
      requires InjectiveInState(FeedByte)
      requires Fold(FeedByte, s, before + v + after) == Fold(FeedByte, s, before + w + after)
      ensures Fold(FeedByte, Fold(FeedByte, s, before), v) == Fold(FeedByte, Fold(FeedByte, s, before), w)
    {
      FoldAppends(FeedByte, s, before + v, after);
      FoldAppends(FeedByte, s, before + w, after);
      FoldAppends(FeedByte, s, before, v);
      FoldAppends(FeedByte, s, before, w);
      FoldInjective(FeedByte, Fold(FeedByte, s, before + v), Fold(FeedByte, s, before + w), after);
    }
  }
}

/**
 * The reflected CRC-32 of section 3.2.9 of IEEE 802.3: as the standard defines it, a
 * message bit at a time, and as the station computes it, a nibble at a time from a
 * sixteen-entry table.
 */
module Crc32 {
  import opened Bytes
  import opened Machines

  /** The seed of a fresh run. */
  const INIT: u32 := 0

  const POLYNOMIAL: bv32 := 0xedb88320

  const NIBBLE_TABLE: seq<bv32> := [
    0x00000000, 0x1db71064, 0x3b6e20c8, 0x26d930ac,
    0x76dc4190, 0x6b6b51f4, 0x4db26158, 0x5005713c,
    0xedb88320, 0xf00f9344, 0xd6d6a3e8, 0xcb61b38c,
    0x9b64c2b0, 0x86d3d2d4, 0xa00ae278, 0xbdbdf21c
  ]

  function Xor(a: bv32, b: bv32): bv32 { a ^ b }
  function Low(s: bv32): bool { s & 1 == 1 }
  function ShiftRight(s: bv32): bv32 { s >> 1 }
  function MakeRoom(s: bv32): bv32 { s << 8 }

  /** The `n` low bits of `v`, as the low bits of a word. */
  function Bits(n: nat, v: nat): bv32 {
    if n == 0 then 0 else Append(Bits(n - 1, v / 2), v % 2 == 1)
  }

  function Append(w: bv32, bit: bool): bv32 { if bit then (w << 1) | 1 else w << 1 }
  function Widen(b: byte): bv32 { Bits(8, b) }

  function BitStep(s: bv32): bv32 {
    if Low(s) then Xor(ShiftRight(s), POLYNOMIAL) else ShiftRight(s)
  }

  function FeedBit(s: bv32, bit: bool): bv32 {
    if Low(s) != bit then Xor(ShiftRight(s), POLYNOMIAL) else ShiftRight(s)
  }

  function Fits(w: bv32, k: nat): bool {
    w <= if k == 0 then 0 else if k == 1 then 0xff else if k == 2 then 0xffff else if k == 3 then 0xff_ffff else 0xffff_ffff
  }

  /** The standard's register; `REGISTER.FeedByte` takes in one byte, low bit first. */
  const REGISTER: ShiftRegister<bv32> :=
    ShiftRegister(0, Xor, Low, ShiftRight, MakeRoom, BitStep, FeedBit, Widen, Fits)

  function Seed(crc: u32): bv32 { !(crc as bv32) }
  function Result(s: bv32): u32 { (!s) as int }

  /** CRC-32 of `data`, continuing from the earlier result `crc`. */
  function Crc(crc: u32, data: seq<byte>): u32 {
    Result(Fold(REGISTER.FeedByte, Seed(crc), data))
  }

  // --- the laws, for 32-bit words ---

  lemma XorAssociative(a: bv32, b: bv32, c: bv32)
    ensures Xor(Xor(a, b), c) == Xor(a, Xor(b, c))
  {
  }

  lemma XorCancels(a: bv32, b: bv32, c: bv32)
    ensures Xor(a, b) == Xor(a, c) ==> b == c
  {
  }

  lemma XorSymmetric(a: bv32, b: bv32)
    ensures Xor(a, b) == Xor(b, a)
  {
  }

  lemma ShiftOfXor(s: bv32, w: bv32)
    ensures (s ^ w) >> 1 == (s >> 1) ^ (w >> 1)
  {
  }

  lemma LowBitOfXor(s: bv32, w: bv32)
    ensures ((s ^ w) & 1 == 1) == ((s & 1 == 1) != (w & 1 == 1))
  {
  }

  lemma XorSwaps(a: bv32, b: bv32, p: bv32)
    ensures (a ^ b) ^ p == (a ^ p) ^ b
  {
  }

  lemma RegisterIsBuilt()
    ensures REGISTER.BuiltFrom(POLYNOMIAL)
  {
  }

  lemma ShiftLinear()
    ensures REGISTER.ShiftIsLinear()
  {
    forall s: bv32, w: bv32
      ensures ShiftRight(Xor(s, w)) == Xor(ShiftRight(s), ShiftRight(w))
    {
      ShiftOfXor(s, w);
    }
  }

  lemma LowLinear()
    ensures REGISTER.LowIsLinear()
  {
    forall s: bv32, w: bv32
      ensures Low(Xor(s, w)) == (Low(s) != Low(w))
    {
      LowBitOfXor(s, w);
    }
  }

  lemma XorHasSwaps()
    ensures REGISTER.Swaps()
  {
    forall a: bv32, b: bv32, c: bv32
      ensures Xor(Xor(a, b), c) == Xor(Xor(a, c), b)
    {
      XorSwaps(a, b, c);
    }
  }

  lemma BitStepInjective(x: bv32, y: bv32)
    requires BitStep(x) == BitStep(y)
    ensures x == y
  {
  }

  lemma XorAssociates()
    ensures REGISTER.Associative()
  {
    forall a, b, c
      ensures Xor(Xor(a, b), c) == Xor(a, Xor(b, c))
    {
      XorAssociative(a, b, c);
    }
  }

  lemma XorHasCancellation()
    ensures REGISTER.Cancels()
  {
    forall a, b, c
      ensures Xor(a, b) == Xor(a, c) ==> b == c
      ensures Xor(a, c) == Xor(b, c) ==> a == b
    {
      XorCancels(a, b, c);
      XorCancels(c, a, b);
      XorSymmetric(a, c);
      XorSymmetric(b, c);
    }
  }

  lemma GroupLaws()
    ensures REGISTER.Associative() && REGISTER.ZeroIsNeutral() && REGISTER.Cancels()
  {
    XorAssociates();
    XorHasCancellation();
  }

  lemma StepMixes()
    ensures REGISTER.Mixes() && REGISTER.FeedsZero()
  {
    RegisterIsBuilt();
    ShiftLinear();
    LowLinear();
    XorHasSwaps();
    REGISTER.LinearMixes(POLYNOMIAL);
  }

  lemma StepInjective()
    ensures Injective(BitStep)
  {
    forall x, y | BitStep(x) == BitStep(y)
      ensures x == y
    {
      BitStepInjective(x, y);
    }
  }

  lemma EightShifts(w: bv32)
    ensures Iterate(ShiftRight, 8, w) == w >> 8
  {
    IterateAdds(ShiftRight, 4, 4, w);
    IterateFour(ShiftRight, w);
    IterateFour(ShiftRight, w >> 4);
  }

  lemma AppendSplits(v: bv32, w: bv32, i: bool, j: bool)
    requires v <= 0x7f && w <= 0x7f
    ensures Append(v, i) == Append(w, j) ==> v == w && i == j
  {
    if i {
      if j {} else {}
    } else {
      if j {} else {}
    }
  }

  lemma AppendGrows(w: bv32, bit: bool, bound: bv32)
    requires w <= bound <= 0x7f
    ensures Append(w, bit) <= (bound << 1) | 1
  {
  }

  function Ones(n: nat): bv32 {
    if n == 0 then 0 else (Ones(n - 1) << 1) | 1
  }

  lemma OnesUpToEight(n: nat)
    requires n < 8
    ensures Ones(n) <= 0x7f && Ones(8) == 0xff
  {
    assert Ones(1) == 0x1 && Ones(2) == 0x3;
    assert Ones(3) == 0x7 && Ones(4) == 0xf;
    assert Ones(5) == 0x1f && Ones(6) == 0x3f;
    assert Ones(7) == 0x7f;
  }

  lemma {:induction false} BitsFit(n: nat, v: nat)
    requires n <= 8
    ensures Bits(n, v) <= Ones(n)
  {
    if n > 0 {
      BitsFit(n - 1, v / 2);
      OnesUpToEight(n - 1);
      AppendGrows(Bits(n - 1, v / 2), v % 2 == 1, Ones(n - 1));
    }
  }

  function Power(n: nat): nat {
    if n == 0 then 1 else 2 * Power(n - 1)
  }

  lemma {:induction false} BitsInjective(n: nat, v: nat, w: nat)
    requires n <= 8 && v < Power(n) && w < Power(n) && Bits(n, v) == Bits(n, w)
    ensures v == w
  {
    if n > 0 {
      BitsFit(n - 1, v / 2);
      BitsFit(n - 1, w / 2);
      OnesUpToEight(n - 1);
      AppendSplits(Bits(n - 1, v / 2), Bits(n - 1, w / 2), v % 2 == 1, w % 2 == 1);
      BitsInjective(n - 1, v / 2, w / 2);
    }
  }

  lemma WidenInjective(a: byte, b: byte)
    requires Widen(a) == Widen(b)
    ensures a == b
  {
    assert Power(4) == 16 && Power(8) == 16 * Power(4);
    BitsInjective(8, a, b);
  }

  lemma ByteLaws()
    ensures REGISTER.WidensBytes()
  {
    forall b
      ensures Iterate(ShiftRight, 8, Widen(b)) == 0
    {
      EightShifts(Widen(b));
      ByteHasEightBits(b);
      NothingLeft(Widen(b));
    }
    forall b, c | Widen(b) == Widen(c)
      ensures b == c
    {
      WidenInjective(b, c);
    }
  }

  lemma ByteHasEightBits(b: byte)
    ensures Widen(b) <= 0xff
  {
    BitsFit(8, b);
    OnesUpToEight(0);
  }

  lemma NothingLeft(w: bv32)
    requires w <= 0xff
    ensures w >> 8 == 0
  {
  }

  lemma WordGrows(b: bv32, r: bv32, k: nat)
    requires b <= 0xff && k < 4 && Fits(r, k)
    ensures Fits(Xor(b, MakeRoom(r)), k + 1)
  {
    if k == 0 {} else if k == 1 {} else if k == 2 {} else { assert k == 3; }
  }

  lemma UpAndDown(r: bv32, k: nat)
    requires k < 4 && Fits(r, k)
    ensures (r << 8) >> 8 == r
  {
  }

  lemma LowBitsOf(r: bv32)
    ensures (r << 8) & 0xff == 0
  {
  }

  lemma LowNibble(z: bv32)
    requires z & 0xf == 0
    ensures z & 1 != 1 && (z >> 1) & 1 != 1 && (z >> 1 >> 1) & 1 != 1 && (z >> 1 >> 1 >> 1) & 1 != 1
  {
  }

  lemma TwoNibbles(z: bv32)
    requires z & 0xff == 0
    ensures z & 0xf == 0 && (z >> 1 >> 1 >> 1 >> 1) & 0xf == 0
  {
  }

  lemma LowByteClear(r: bv32)
    ensures REGISTER.LowClear(8, MakeRoom(r))
  {
    var z := r << 8;
    var y := z >> 1 >> 1 >> 1 >> 1;
    LowBitsOf(r);
    TwoNibbles(z);
    NibbleClear(0, y);
    NibbleClear(4, z);
  }

  lemma NibbleClear(n: nat, z: bv32)
    requires z & 0xf == 0
    requires REGISTER.LowClear(n, z >> 1 >> 1 >> 1 >> 1)
    ensures REGISTER.LowClear(n + 4, z)
  {
    LowNibble(z);
    REGISTER.FourClear(n, z);
  }

  lemma WordsGrow()
    ensures REGISTER.Grows()
  {
    forall b, r, k: nat | k < 4 && Fits(r, k)
      ensures Fits(Xor(Widen(b), MakeRoom(r)), k + 1)
    {
      ByteHasEightBits(b);
      WordGrows(Widen(b), r, k);
    }
  }

  lemma WordsGoUpAndDown()
    ensures REGISTER.UpAndDown()
  {
    forall r, k: nat | k < 4 && Fits(r, k)
      ensures Iterate(ShiftRight, 8, MakeRoom(r)) == r
    {
      EightShifts(MakeRoom(r));
      UpAndDown(r, k);
    }
  }

  lemma WordsClearLow()
    ensures REGISTER.ClearsLow()
  {
    forall r
      ensures REGISTER.LowClear(8, MakeRoom(r))
    {
      LowByteClear(r);
    }
  }

  lemma AtMostThreeBytes(x: bv32, k: nat)
    requires k < 4 && Fits(x, k)
    ensures x <= 0xff_ffff
  {
  }

  lemma HighPart(b: bv32, x: bv32)
    requires b <= 0xff && x <= 0xff_ffff
    ensures Xor(b, MakeRoom(x)) >> 8 == x
  {
  }

  lemma SplitMixture(b: bv32, c: bv32, x: bv32, y: bv32)
    requires b <= 0xff && c <= 0xff && x <= 0xff_ffff && y <= 0xff_ffff
    requires Xor(b, MakeRoom(x)) == Xor(c, MakeRoom(y))
    ensures b == c && x == y
  {
    assert x == y by {
      HighPart(b, x);
      HighPart(c, y);
    }
    SameLowPart(b, c, MakeRoom(x));
  }

  lemma SameLowPart(b: bv32, c: bv32, z: bv32)
    requires Xor(b, z) == Xor(c, z)
    ensures b == c
  {
  }

  lemma WordsSplit()
    ensures REGISTER.Splits()
  {
    forall b, c, x, y, k: nat | k < 4 && Fits(x, k) && Fits(y, k) && Xor(Widen(b), MakeRoom(x)) == Xor(Widen(c), MakeRoom(y))
      ensures Widen(b) == Widen(c) && x == y
    {
      ByteHasEightBits(b);
      ByteHasEightBits(c);
      AtMostThreeBytes(x, k);
      AtMostThreeBytes(y, k);
      SplitMixture(Widen(b), Widen(c), x, y);
    }
  }

  lemma SeedOfResult(s: bv32)
    ensures Seed(Result(s)) == s
  {
    WordRoundTrip(!s);
    DoubleNot(s);
  }

  lemma DoubleNot(s: bv32)
    ensures !!s == s
  {
  }

  lemma WordRoundTrip(x: bv32)
    ensures (x as int) as bv32 == x
  {
  }

  // --- continuing a checksum ---

  lemma CrcOfNothing()
    ensures Crc(INIT, []) == INIT
  {
    SeedOfResult(Seed(INIT));
    EndsOfZero();
  }

  lemma EndsOfZero()
    ensures Result(Seed(0)) == 0
  {
    assert (0 as bv32) as int == 0;
    DoubleNot(0);
  }

  /** A prefix's CRC is all a resumed transfer needs to go on from. */
  lemma CrcContinues(c: u32, a: seq<byte>, b: seq<byte>)
    ensures Crc(Crc(c, a), b) == Crc(c, a + b)
  {
    FoldAppends(REGISTER.FeedByte, Seed(c), a, b);
    SeedOfResult(Fold(REGISTER.FeedByte, Seed(c), a));
  }

  lemma RegisterMixesEarly()
    ensures REGISTER.MixesEarly()
  {
    GroupLaws();
    StepMixes();
    StepInjective();
    ByteLaws();
    WordsGoUpAndDown();
    WordsClearLow();
    REGISTER.EarlyMixing();
  }

  lemma ByteInjective()
    ensures InjectiveInState(REGISTER.FeedByte)
  {
    GroupLaws();
    StepMixes();
    StepInjective();
    ByteLaws();
    REGISTER.FeedByteInjective();
  }

  lemma ShortMessages(t: bv32, v: seq<byte>, w: seq<byte>)
    requires |v| == |w| <= 4 && Fold(REGISTER.FeedByte, t, v) == Fold(REGISTER.FeedByte, t, w)
    ensures v == w
  {
    RegisterMixesEarly();
    WordsGrow();
    WordsSplit();
    GroupLaws();
    ByteLaws();
    StepInjective();
    REGISTER.ShortMessages(t, v, w);
  }

  /** Two messages that differ only within four consecutive bytes never share a CRC. */
  lemma BurstIsDetected(c: u32, before: seq<byte>, v: seq<byte>, w: seq<byte>, after: seq<byte>)
    requires |v| == |w| <= 4 && v != w
    ensures Crc(c, before + v + after) != Crc(c, before + w + after)
  {
    if Crc(c, before + v + after) == Crc(c, before + w + after) {
      SeedOfResult(Fold(REGISTER.FeedByte, Seed(c), before + v + after));
      SeedOfResult(Fold(REGISTER.FeedByte, Seed(c), before + w + after));
      ByteInjective();
      REGISTER.BurstShows(Seed(c), before, v, w, after);
      ShortMessages(Fold(REGISTER.FeedByte, Seed(c), before), v, w);
    }
  }

  // --- the station's loop: a nibble at a time ---

  function Lookup(x: bv32): bv32
    requires x <= 0xf
  {
    NIBBLE_TABLE[x as int]
  }

  function NibbleStep(s: bv32): bv32 {
    Xor(s >> 4, Lookup(s & 0xf))
  }

  function FourSteps(s: bv32): bv32 {
    BitStep(BitStep(BitStep(BitStep(s))))
  }

  lemma TableEntry(x: bv32)
    requires x <= 0xf
    ensures Lookup(x) == FourSteps(x)
  {
    if x == 0 {} else if x == 1 {} else if x == 2 {} else if x == 3 {}
    else if x == 4 {} else if x == 5 {} else if x == 6 {} else if x == 7 {}
    else if x == 8 {} else if x == 9 {} else if x == 10 {} else if x == 11 {}
    else if x == 12 {} else if x == 13 {} else if x == 14 {} else { assert x == 15; }
  }

  lemma LookupIsFourSteps(x: bv32)
    requires x <= 0xf
    ensures Lookup(x) == Iterate(BitStep, 4, x)
  {
    TableEntry(x);
    IterateFour(BitStep, x);
  }

  lemma NibbleParts(s: bv32)
    ensures Xor(s & 0xf, s & 0xffff_fff0) == s
    ensures (s & 0xffff_fff0) & 0xf == 0
    ensures (s & 0xffff_fff0) >> 1 >> 1 >> 1 >> 1 == s >> 4
  {
  }

  lemma SplitNibble(x: bv32, z: bv32)
    requires z & 0xf == 0
    ensures Iterate(BitStep, 4, Xor(x, z)) == Xor(Iterate(BitStep, 4, x), Iterate(ShiftRight, 4, z))
  {
    NibbleClear(0, z);
    StepMixes();
    REGISTER.HighBitsWait(4, x, z);
  }

  lemma FourShifts(z: bv32)
    ensures Iterate(ShiftRight, 4, z) == z >> 1 >> 1 >> 1 >> 1
  {
    IterateFour(ShiftRight, z);
  }

  /** One table look-up is exactly four shifts of the register. */
  lemma NibbleIsFourBits(s: bv32)
    ensures NibbleStep(s) == Iterate(BitStep, 4, s)
  {
    LookupIsFourSteps(s & 0xf);
    NibbleParts(s);
    var x, z := s & 0xf, s & 0xffff_fff0;
    SplitNibble(x, z);
    FourShifts(z);
    Exchange(s >> 4, Iterate(BitStep, 4, x), Iterate(ShiftRight, 4, z));
  }

  lemma Exchange(a: bv32, b: bv32, c: bv32)
    requires a == c
    ensures Xor(a, b) == Xor(b, c)
  {
    XorSymmetric(a, b);
  }

  lemma NibblesFeedByte(s: bv32, b: byte)
    ensures NibbleStep(NibbleStep(Xor(s, Widen(b)))) == REGISTER.FeedByte(s, b)
  {
    NibbleIsFourBits(Xor(s, Widen(b)));
    NibbleIsFourBits(NibbleStep(Xor(s, Widen(b))));
    IterateAdds(BitStep, 4, 4, Xor(s, Widen(b)));
    GroupLaws();
    StepMixes();
    ByteLaws();
    REGISTER.MixedByte(s, b);
  }

  // --- the check value every CRC-32 is recognised by ---

  /** The first `n` of the characters "123456789". */
  function Digits(n: nat): (s: seq<byte>)
    requires n <= 9
    ensures |s| == n
  {
    seq(n, i requires 0 <= i < n => 0x31 + i)
  }

  lemma NextDigit(n: nat)
    requires n < 9
    ensures Digits(n) + [0x31 + n] == Digits(n + 1)
  {
  }

  function DigitWord(n: nat): bv32 {
    if n == 0 then 0x31 else if n == 1 then 0x32 else if n == 2 then 0x33 else if n == 3 then 0x34
    else if n == 4 then 0x35 else if n == 5 then 0x36 else if n == 6 then 0x37 else if n == 7 then 0x38 else 0x39
  }

  lemma WideDigit(n: nat)
    requires n < 9
    ensures Widen(0x31 + n) == DigitWord(n)
  {
    if n == 0 { assert Widen(0x31) == 0x31; } else if n == 1 { assert Widen(0x32) == 0x32; }
    else if n == 2 { assert Widen(0x33) == 0x33; } else if n == 3 { assert Widen(0x34) == 0x34; }
    else if n == 4 { assert Widen(0x35) == 0x35; } else if n == 5 { assert Widen(0x36) == 0x36; }
    else if n == 6 { assert Widen(0x37) == 0x37; } else if n == 7 { assert Widen(0x38) == 0x38; }
    else { assert Widen(0x39) == 0x39; }
  }

  /** Eight shifts with a byte mixed in first. */
  function TakeIn(s: bv32, w: bv32): bv32 {
    FourSteps(FourSteps(Xor(s, w)))
  }

  /** The register after the first `n` digits. */
  ghost predicate After(n: nat, s: bv32)
    requires n <= 9
  {
    Fold(REGISTER.FeedByte, 0xffff_ffff, Digits(n)) == s
  }

  lemma EightSteps(s: bv32, b: byte)
    ensures REGISTER.FeedByte(s, b) == TakeIn(s, Widen(b))
  {
    var x := Xor(s, Widen(b));
    IterateAdds(BitStep, 4, 4, x);
    IterateFour(BitStep, x);
    IterateFour(BitStep, FourSteps(x));
    GroupLaws();
    StepMixes();
    ByteLaws();
    REGISTER.MixedByte(s, b);
  }

  lemma DigitFed(n: nat, s: bv32, t: bv32)
    requires n < 9 && t == TakeIn(s, DigitWord(n))
    ensures REGISTER.FeedByte(s, 0x31 + n) == t
  {
    WideDigit(n);
    EightSteps(s, 0x31 + n);
  }

  lemma OneMoreDigit(n: nat, s: bv32, t: bv32)
    requires n < 9 && After(n, s) && REGISTER.FeedByte(s, 0x31 + n) == t
    ensures After(n + 1, t)
  {
    FoldAppendsOne(REGISTER.FeedByte, 0xffff_ffff, Digits(n), 0x31 + n);
    NextDigit(n);
  }

  /** What the register then holds. */
  function Held(n: nat): bv32 {
    if n == 0 then 0xffff_ffff else if n == 1 then 0x7c23_1048 else if n == 2 then 0xb0ac_bb32
    else if n == 3 then 0x77b7_9c2d else if n == 4 then 0x641c_1f5c else if n == 5 then 0x340a_c5e3
    else if n == 6 then 0xf68d_2c9e else if n == 7 then 0xaffc_9660 else if n == 8 then 0x651f_2550
    else 0x340b_c6d9
  }

  lemma HeldNext(n: nat)
    requires n < 9
    ensures TakeIn(Held(n), DigitWord(n)) == Held(n + 1)
  {
    if n == 0 {} else if n == 1 {} else if n == 2 {} else if n == 3 {} else if n == 4 {}
    else if n == 5 {} else if n == 6 {} else if n == 7 {} else { assert n == 8; }
  }

  lemma {:induction false} HeldAfter(n: nat)
    requires n <= 9
    ensures After(n, Held(n))
  {
    if n > 0 {
      HeldAfter(n - 1);
      HeldNext(n - 1);
      DigitFed(n - 1, Held(n - 1), Held(n));
      OneMoreDigit(n - 1, Held(n - 1), Held(n));
    }
  }

  lemma HeldAtLast(n: nat)
    requires n == 9
    ensures Held(n) == 0x340b_c6d9
  {
  }

  /** The CRC of the nine characters "123456789". */
  lemma CheckValue(digits: seq<byte>)
    requires digits == [0x31, 0x32, 0x33, 0x34, 0x35, 0x36, 0x37, 0x38, 0x39]
    ensures Crc(INIT, digits) == 0xcbf4_3926
  {
    assert digits == Digits(|digits|);
    HeldAfter(|digits|);
    HeldAtLast(|digits|);
    Inverted();
  }

  lemma Inverted()
    ensures Seed(INIT) == 0xffff_ffff && Result(0x340b_c6d9) == 0xcbf4_3926
  {
  }

  /** The nibble-table loop computes the standard's CRC-32 of every message. */
  method Compute(crc: u32, data: seq<byte>) returns (r: u32)
    ensures r == Crc(crc, data)
  {
    var c := Seed(crc);
    for i := 0 to |data|
      invariant c == Fold(REGISTER.FeedByte, Seed(crc), data[..i])
    {
      assert data[..i] + [data[i]] == data[..i + 1];
      FoldAppendsOne(REGISTER.FeedByte, Seed(crc), data[..i], data[i]);
      NibblesFeedByte(c, data[i]);
      c := Xor(c, Widen(data[i]));
      c := NibbleStep(c);
      c := NibbleStep(c);
    }
    assert data[..|data|] == data;
    r := Result(c);
  }
}
