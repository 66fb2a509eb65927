/** Bytes, fixed-width words, audio samples, and the little-endian form of words on the wire. */
module Bytes {
  type byte = x: int | 0 <= x < 0x100
  type u16 = x: int | 0 <= x < 0x1_0000
  type u32 = x: int | 0 <= x < 0x1_0000_0000
  type sample = x: int | -0x8000 <= x < 0x8000

  datatype Option<+T> = None | Some(value: T)

  function Min(a: nat, b: nat): nat {
    if a < b then a else b
  }

  function PutU16(v: u16): (s: seq<byte>)
    ensures |s| == 2
  {
    [v % 0x100, v / 0x100]
  }

  function PutU32(v: u32): (s: seq<byte>)
    ensures |s| == 4
  {
    [v % 0x100, v / 0x100 % 0x100, v / 0x1_0000 % 0x100, v / 0x100_0000]
  }

  function GetU16(s: seq<byte>): u16
    requires |s| >= 2
  {
    (s[0] as int) + 0x100 * (s[1] as int)
  }

  function GetU32(s: seq<byte>): u32
    requires |s| >= 4
  {
    (s[0] as int) + 0x100 * (s[1] as int) + 0x1_0000 * (s[2] as int) + 0x100_0000 * (s[3] as int)
  }

  /** Whatever follows it, an encoded word reads back as itself. */
  lemma U16RoundTrip(v: u16, rest: seq<byte>)
    ensures GetU16(PutU16(v) + rest) == v
  {
    assert (PutU16(v) + rest)[0] == v % 0x100;
  }

  lemma U32RoundTrip(v: u32, rest: seq<byte>)
    ensures GetU32(PutU32(v) + rest) == v
  {
    var s := PutU32(v) + rest;
    var low, high := v % 0x1_0000, v / 0x1_0000;
    assert s[0] == low % 0x100 && s[1] == low / 0x100;
    assert s[2] == high % 0x100 && s[3] == high / 0x100;
  }

  /** What a C reader sees of `s`: everything before the first NUL. */
  function CString(s: seq<byte>): (r: seq<byte>)
    ensures 0 !in r && r <= s
    ensures 0 !in s ==> r == s
    ensures |r| < |s| ==> s[|r|] == 0
  {
    if s == [] || s[0] == 0 then [] else [s[0]] + CString(s[1..])
  }

  /** `snprintf(buf, n + 1, "%s", s)`: a C string cut to at most `n` bytes. */
  function Clip(s: seq<byte>, n: nat): (r: seq<byte>)
    ensures |r| <= n && r <= s
  {
    s[..Min(|s|, n)]
  }

  /** The images of a list, end to end. */
  function FlatMap<T>(f: T -> seq<byte>, ts: seq<T>): seq<byte> {
    if ts == [] then [] else f(ts[0]) + FlatMap(f, ts[1..])
  }

  lemma {:induction false} FlatMapAppends<T>(f: T -> seq<byte>, ts: seq<T>, t: T)
    ensures FlatMap(f, ts + [t]) == FlatMap(f, ts) + f(t)
  {
    if ts == [] {
      assert (ts + [t])[1..] == [];
    } else {
      FlatMapAppends(f, ts[1..], t);
      assert (ts + [t])[1..] == ts[1..] + [t];
    }
  }
}
