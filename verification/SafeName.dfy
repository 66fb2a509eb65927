/** Reducing a peer-supplied filename to something safe to create. */
module SafeNames {
  import opened Bytes

  const UNDERSCORE: byte := 0x5f
  const DOT: byte := 0x2e
  const SPACE: byte := 0x20

  const RESERVED: seq<seq<byte>> := [
    [0x43, 0x4f, 0x4e], [0x50, 0x52, 0x4e], [0x41, 0x55, 0x58], [0x4e, 0x55, 0x4c],  // CON PRN AUX NUL
    COM + [0x31], COM + [0x32], COM + [0x33], COM + [0x34], COM + [0x35],
    COM + [0x36], COM + [0x37], COM + [0x38], COM + [0x39],
    LPT + [0x31], LPT + [0x32], LPT + [0x33], LPT + [0x34], LPT + [0x35],
    LPT + [0x36], LPT + [0x37], LPT + [0x38], LPT + [0x39]
  ]
  const COM: seq<byte> := [0x43, 0x4f, 0x4d]
  const LPT: seq<byte> := [0x4c, 0x50, 0x54]

  /** '/', '\' and ':' all end a directory or drive part, on every platform. */
  predicate Separator(c: byte) {
    c == 0x2f || c == 0x5c || c == 0x3a
  }

  /** Control characters and the set Windows refuses: < > " | ? * */
  predicate Forbidden(c: byte) {
    c < 0x20 || c == 0x7f || c == 0x3c || c == 0x3e || c == 0x22 || c == 0x7c || c == 0x3f || c == 0x2a
  }

  predicate Edge(c: byte) {
    c == DOT || c == SPACE
  }

  function Clean(c: byte): byte {
    if Forbidden(c) then UNDERSCORE else c
  }

  function CleanAll(s: seq<byte>): (r: seq<byte>)
    ensures |r| == |s|
  {
    if s == [] then [] else [Clean(s[0])] + CleanAll(s[1..])
  }

  /** Everything after the last separator. */
  function BaseName(s: seq<byte>): (r: seq<byte>)
    ensures |r| <= |s|
  {
    if s == [] || Separator(s[|s| - 1]) then [] else BaseName(s[..|s| - 1]) + [s[|s| - 1]]
  }

  function TrimFront(s: seq<byte>): (r: seq<byte>)
    ensures |r| <= |s|
  {
    if s == [] || !Edge(s[0]) then s else TrimFront(s[1..])
  }

  function TrimBack(s: seq<byte>): (r: seq<byte>)
    ensures |r| <= |s|
  {
    if s == [] || !Edge(s[|s| - 1]) then s else TrimBack(s[..|s| - 1])
  }

  /** The name up to its first dot. */
  function Stem(s: seq<byte>): seq<byte> {
    if s == [] || s[0] == DOT then [] else [s[0]] + Stem(s[1..])
  }

  function Upper(c: byte): byte {
    if 0x61 <= c <= 0x7a then c - 0x20 else c
  }

  predicate SameIgnoringCase(s: seq<byte>, r: seq<byte>) {
    |s| == |r| && forall i :: 0 <= i < |s| ==> Upper(s[i]) == r[i]
  }

  /** The device names Windows will not let anyone create, with or without an extension. */
  predicate ReservedDevice(s: seq<byte>) {
    exists k :: 0 <= k < |RESERVED| && SameIgnoringCase(Stem(s), RESERVED[k])
  }

  /** The name after stripping, cleaning and trimming, before the device check. */
  function Reduced(name: seq<byte>, cap: nat): seq<byte>
    requires cap >= 1
  {
    TrimBack(TrimFront(CleanAll(Clip(BaseName(CString(name)), cap - 1))))
  }

  /** The safe form of `name` in a buffer of `cap` bytes, terminator included. */
  function SafeName(name: seq<byte>, cap: nat): Option<seq<byte>> {
    if cap < 2 then None
    else
      var r := Reduced(name, cap);
      if r == [] then None
      else if !ReservedDevice(r) then Some(r)
      else if |r| + 2 > cap then None
      else Some(r + [UNDERSCORE])
  }

  predicate SafeByte(c: byte) {
    !Separator(c) && !Forbidden(c)
  }

  predicate AllSafe(s: seq<byte>) {
    forall i :: 0 <= i < |s| ==> SafeByte(s[i])
  }

  /** What a receiver asks of a name it is about to create. */
  predicate Harmless(s: seq<byte>) {
    s != [] && AllSafe(s) && !Edge(s[0]) && !Edge(s[|s| - 1])
  }

  lemma {:induction false} BaseNameHasNoSeparator(s: seq<byte>, i: nat)
    requires i < |BaseName(s)|
    ensures !Separator(BaseName(s)[i])
  {
    if i < |BaseName(s)| - 1 {
      BaseNameHasNoSeparator(s[..|s| - 1], i);
    }
  }

  lemma {:induction false} CleanAllAt(s: seq<byte>, i: nat)
    requires i < |s|
    ensures CleanAll(s)[i] == Clean(s[i])
  {
    if i > 0 {
      CleanAllAt(s[1..], i - 1);
    }
  }

  lemma {:induction false} TrimFrontKeepsSafe(s: seq<byte>)
    requires AllSafe(s)
    ensures AllSafe(TrimFront(s)) && (TrimFront(s) != [] ==> !Edge(TrimFront(s)[0]))
  {
    if s != [] && Edge(s[0]) {
      TrimFrontKeepsSafe(s[1..]);
    }
  }

  lemma {:induction false} TrimBackKeepsSafe(s: seq<byte>)
    requires AllSafe(s) && (s != [] ==> !Edge(s[0]))
    ensures AllSafe(TrimBack(s)) && (TrimBack(s) != [] ==> !Edge(TrimBack(s)[0]) && !Edge(TrimBack(s)[|TrimBack(s)| - 1]))
  {
    if s != [] && Edge(s[|s| - 1]) {
      TrimBackKeepsSafe(s[..|s| - 1]);
    }
  }

  lemma CleanedIsSafe(s: seq<byte>, cap: nat)
    ensures AllSafe(CleanAll(Clip(BaseName(s), cap)))
  {
    var b := Clip(BaseName(s), cap);
    forall i | 0 <= i < |b|
      ensures SafeByte(CleanAll(b)[i])
    {
      CleanAllAt(b, i);
      BaseNameHasNoSeparator(s, i);
    }
  }

  /** Whatever a stranger sends, what survives fits and is harmless. */
  lemma SafeNameIsHarmless(name: seq<byte>, cap: nat)
    requires SafeName(name, cap).Some?
    ensures |SafeName(name, cap).value| < cap && Harmless(SafeName(name, cap).value)
  {
    var c := CleanAll(Clip(BaseName(CString(name)), cap - 1));
    CleanedIsSafe(CString(name), cap - 1);
    TrimFrontKeepsSafe(c);
    TrimBackKeepsSafe(TrimFront(c));
  }

  lemma {:induction false} CleanNameKept(s: seq<byte>)
    requires AllSafe(s)
    ensures CleanAll(s) == s
  {
    if s != [] {
      CleanNameKept(s[1..]);
    }
  }

  lemma {:induction false} BaseNameKept(s: seq<byte>)
    requires AllSafe(s)
    ensures BaseName(s) == s
  {
    if s != [] {
      BaseNameKept(s[..|s| - 1]);
    }
  }

  /** A harmless name that fits is already reduced. */
  lemma HarmlessIsReduced(s: seq<byte>, cap: nat)
    requires Harmless(s) && |s| < cap
    ensures Reduced(s, cap) == s
  {
    CStringKept(s);
    BaseNameKept(s);
    assert Clip(s, cap - 1) == s;
    CleanNameKept(s);
    assert TrimFront(s) == s && TrimBack(s) == s;
  }

  lemma CStringKept(s: seq<byte>)
    requires AllSafe(s)
    ensures CString(s) == s
  {
    assert !SafeByte(0);
    assert forall i :: 0 <= i < |s| ==> s[i] != 0;
  }

  /** A harmless name that fits and names no device is taken as it is. */
  lemma HarmlessIsKept(name: seq<byte>, cap: nat)
    requires Harmless(name) && |name| < cap && !ReservedDevice(name)
    ensures SafeName(name, cap) == Some(name)
  {
    HarmlessIsReduced(name, cap);
  }

  // --- what is left of a name, without the functions that reduce it ---

  lemma {:induction false} BaseIsSuffix(s: seq<byte>) returns (k: nat)
    ensures k <= |s| && BaseName(s) == s[k..]
    ensures k == 0 || Separator(s[k - 1])
    ensures forall i :: k <= i < |s| ==> !Separator(s[i])
  {
    if s == [] || Separator(s[|s| - 1]) {
      k := |s|;
    } else {
      k := BaseIsSuffix(s[..|s| - 1]);
    }
  }

  lemma {:induction false} FrontIsDropped(s: seq<byte>) returns (i: nat)
    ensures i <= |s| && TrimFront(s) == s[i..]
    ensures forall x :: 0 <= x < i ==> Edge(s[x])
    ensures i < |s| ==> !Edge(s[i])
  {
    i := 0;
    if s != [] && Edge(s[0]) {
      i := FrontIsDropped(s[1..]);
      i := i + 1;
    }
  }

  lemma {:induction false} BackIsDropped(s: seq<byte>) returns (j: nat)
    ensures j <= |s| && TrimBack(s) == s[..j]
    ensures forall x :: j <= x < |s| ==> Edge(s[x])
    ensures j > 0 ==> !Edge(s[j - 1])
  {
    j := |s|;
    if s != [] && Edge(s[|s| - 1]) {
      j := BackIsDropped(s[..|s| - 1]);
      assert s[..|s| - 1][..j] == s[..j];
    }
  }

  lemma EdgesAreDropped(s: seq<byte>) returns (i: nat, j: nat)
    ensures i <= j <= |s| && TrimBack(TrimFront(s)) == s[i..j]
    ensures forall x :: 0 <= x < i || j <= x < |s| ==> Edge(s[x])
    ensures i < j ==> !Edge(s[i]) && !Edge(s[j - 1])
  {
    i := FrontIsDropped(s);
    var n := BackIsDropped(s[i..]);
    j := i + n;
    assert s[i..][..n] == s[i..j];
    forall x | j <= x < |s| ensures Edge(s[x]) {
      assert s[i..][x - i] == s[x];
    }
  }

  /** What follows the last separator of `s` starts at `base`. */
  predicate Component(s: seq<byte>, base: nat) {
    base <= |s| && (base == 0 || Separator(s[base - 1])) && forall x :: base <= x < |s| ==> !Separator(s[x])
  }

  /** `left` is the letters of `b` from `i` to `j`, forbidden ones replaced, with nothing but dots and spaces to either side. */
  predicate LeftOf(b: seq<byte>, i: nat, j: nat, left: seq<byte>) {
    && i <= j <= |b| && |left| == j - i
    && (forall x :: 0 <= x < |left| ==> left[x] == if Forbidden(b[i + x]) then UNDERSCORE else b[i + x])
    && (forall x :: 0 <= x < |b| && !(i <= x < j) ==> b[x] == DOT || b[x] == SPACE)
    && (i < j ==> b[i] != DOT && b[i] != SPACE && b[j - 1] != DOT && b[j - 1] != SPACE)
  }

  lemma LeftIs(b: seq<byte>) returns (i: nat, j: nat)
    ensures LeftOf(b, i, j, TrimBack(TrimFront(CleanAll(b))))
  {
    i, j := EdgesAreDropped(CleanAll(b));
    CleanedAt(b);
  }

  /**
   * What becomes of a name: of its last component, as much as fits, all but the dots and spaces
   * at either end is left. It is refused if and only if that is nothing, or a device's name with
   * no room for the underscore.
   */
  lemma SafeNameIs(name: seq<byte>, cap: nat) returns (base: nat, i: nat, j: nat, left: seq<byte>)
    requires cap >= 2
    ensures Component(CString(name), base) && LeftOf(Clip(CString(name)[base..], cap - 1), i, j, left)
    ensures SafeName(name, cap) ==
      if left == [] || (ReservedDevice(left) && |left| + 2 > cap) then None
      else Some(if ReservedDevice(left) then left + [UNDERSCORE] else left)
  {
    base := BaseIsSuffix(CString(name));
    var b := Clip(CString(name)[base..], cap - 1);
    i, j := LeftIs(b);
    left := TrimBack(TrimFront(CleanAll(b)));
  }

  lemma CleanedAt(b: seq<byte>)
    ensures forall x :: 0 <= x < |b| ==> CleanAll(b)[x] == Clean(b[x]) && Edge(CleanAll(b)[x]) == Edge(b[x])
  {
    forall x | 0 <= x < |b| ensures CleanAll(b)[x] == Clean(b[x]) {
      CleanAllAt(b, x);
    }
  }

  lemma {:induction false} StemOfMore(s: seq<byte>, c: byte)
    requires c != DOT
    ensures Stem(s + [c]) == if DOT in s then Stem(s) else s + [c]
  {
    if s == [] {
      assert (s + [c])[1..] == [];
    } else if s[0] != DOT {
      StemOfMore(s[1..], c);
      assert (s + [c])[1..] == s[1..] + [c];
      assert DOT in s <==> DOT in s[1..];
    }
  }

  /** No device name ends in an underscore. */
  lemma UnderscoreNamesNoDevice(s: seq<byte>)
    ensures forall k :: 0 <= k < |RESERVED| ==> !SameIgnoringCase(s + [UNDERSCORE], RESERVED[k])
  {
    forall k | 0 <= k < |RESERVED| ensures !SameIgnoringCase(s + [UNDERSCORE], RESERVED[k]) {
      assert RESERVED[k][|RESERVED[k]| - 1] != UNDERSCORE;
      assert (s + [UNDERSCORE])[|s|] == UNDERSCORE;
    }
  }

  /** The result still names a device exactly when the name, reduced, names one and has an extension. */
  lemma ResultReserved(name: seq<byte>, cap: nat)
    requires SafeName(name, cap).Some?
    ensures ReservedDevice(SafeName(name, cap).value) <==>
      ReservedDevice(Reduced(name, cap)) && DOT in Reduced(name, cap)
  {
    var r := Reduced(name, cap);
    StemOfMore(r, UNDERSCORE);
    UnderscoreNamesNoDevice(r);
  }

  /** Reducing a result again changes nothing, unless the name reduces to a device's name with an extension. */
  lemma SafeNameIdempotent(name: seq<byte>, cap: nat)
    requires SafeName(name, cap).Some?
    ensures var r := SafeName(name, cap).value;
      SafeName(r, cap) == Some(r) <==> !(ReservedDevice(Reduced(name, cap)) && DOT in Reduced(name, cap))
  {
    SafeNameIsHarmless(name, cap);
    HarmlessIsReduced(SafeName(name, cap).value, cap);
    ResultReserved(name, cap);
  }

  lemma DeviceWithExtension(device: seq<byte>, extension: seq<byte>, k: nat)
    requires k < |RESERVED| && DOT !in device && SameIgnoringCase(device, RESERVED[k])
    ensures ReservedDevice(device + [DOT] + extension)
  {
    StemUpToDot(device, extension);
  }

  /**
   * A device's name with an extension gains its underscore after the extension, so the stem of
   * the result is still a device's: "CON.txt" becomes "CON.txt_".
   */
  lemma DeviceStemSurvives(device: seq<byte>, extension: seq<byte>, k: nat, cap: nat)
    requires k < |RESERVED| && DOT !in device && SameIgnoringCase(device, RESERVED[k])
    requires Harmless(device + [DOT] + extension) && |device| + |extension| + 3 <= cap
    ensures var name := device + [DOT] + extension;
      SafeName(name, cap) == Some(name + [UNDERSCORE]) && ReservedDevice(name + [UNDERSCORE])
  {
    var name := device + [DOT] + extension;
    HarmlessIsReduced(name, cap);
    DeviceWithExtension(device, extension, k);
    DeviceWithExtension(device, extension + [UNDERSCORE], k);
    assert name + [UNDERSCORE] == device + [DOT] + (extension + [UNDERSCORE]);
  }

  /** Such a name exists: "CON.txt". */
  lemma ConTxt(cap: nat)
    requires cap >= 9
    ensures var name: seq<byte> := [0x43, 0x4f, 0x4e] + [DOT] + [0x74, 0x78, 0x74];
      SafeName(name, cap) == Some(name + [UNDERSCORE]) && ReservedDevice(name + [UNDERSCORE])
  {
    var con: seq<byte>, txt: seq<byte> := [0x43, 0x4f, 0x4e], [0x74, 0x78, 0x74];
    DeviceStemSurvives(con, txt, 0, cap);
  }

  lemma {:induction false} StemUpToDot(stem: seq<byte>, rest: seq<byte>)
    requires DOT !in stem
    ensures Stem(stem + [DOT] + rest) == stem
  {
    if stem != [] {
      StemUpToDot(stem[1..], rest);
      assert (stem + [DOT] + rest)[1..] == stem[1..] + [DOT] + rest;
    }
  }

  // --- the loops ---

  lemma CStringGoesOn(s: seq<byte>, k: nat)
    requires k < |s| && s[k] != 0
    ensures s[..k] + CString(s[k..]) == s[..k + 1] + CString(s[k + 1..])
  {
    var rest := CString(s[k + 1..]);
    assert s[k..][1..] == s[k + 1..];
    assert CString(s[k..]) == [s[k]] + rest;
    assert s[..k + 1] == s[..k] + [s[k]];
    assert s[..k] + ([s[k]] + rest) == s[..k] + [s[k]] + rest;
  }

  lemma BaseNameGoesOn(s: seq<byte>, base: nat, k: nat)
    requires base <= k < |s| && s[base..k] == BaseName(s[..k])
    ensures BaseName(s[..k + 1]) == if Separator(s[k]) then [] else s[base..k + 1]
  {
    assert s[..k + 1][..k] == s[..k];
  }

  /** The first loop: where the last component starts. */
  method FindBase(name: seq<byte>) returns (base: nat, end: nat)
    requires 0 in name
    ensures base <= end < |name| && name[end] == 0
    ensures name[..end] == CString(name) && name[base..end] == BaseName(CString(name))
  {
    base, end := 0, 0;
    while name[end] != 0
      invariant base <= end < |name| && exists i :: end <= i < |name| && name[i] == 0
      invariant name[..end] + CString(name[end..]) == CString(name)
      invariant name[base..end] == BaseName(name[..end])
      decreases |name| - end
    {
      CStringGoesOn(name, end);
      BaseNameGoesOn(name, base, end);
      if Separator(name[end]) {
        base := end + 1;
      }
      end := end + 1;
    }
    assert name[..end] + [] == name[..end];
  }

  lemma {:induction false} CleanAllAppends(s: seq<byte>, c: byte)
    ensures CleanAll(s + [c]) == CleanAll(s) + [Clean(c)]
  {
    if s == [] {
      assert (s + [c])[1..] == [];
    } else {
      CleanAllAppends(s[1..], c);
      assert (s + [c])[1..] == s[1..] + [c];
    }
  }

  /** The second loop: the component, cleaned, as much of it as fits. */
  method CopyClean(base: seq<byte>, out: array<byte>, cap: nat) returns (n: nat)
    requires 1 <= cap <= out.Length
    modifies out
    ensures n < cap && out[..n] == CleanAll(Clip(base, cap - 1)) && out[n] == 0
  {
    n := 0;
    while n < |base| && n + 1 < cap
      invariant n <= |base| && n < cap
      invariant out[..n] == CleanAll(base[..n])
    {
      CleanAllAppends(base[..n], base[n]);
      assert base[..n + 1] == base[..n] + [base[n]];
      ghost var before := out[..n];
      out[n] := Clean(base[n]);
      assert out[..n + 1] == before + [out[n]];
      n := n + 1;
    }
    out[n] := 0;
  }

  /** Leading dots and spaces go, by moving the rest down. */
  method DropLeading(out: array<byte>, n: nat) returns (m: nat)
    requires n < out.Length && out[n] == 0
    modifies out
    ensures m <= n && out[..m] == TrimFront(old(out[..n])) && out[m] == 0
  {
    ghost var s := out[..n];
    var start := 0;
    while Edge(out[start])
      invariant start <= n
      invariant TrimFront(s) == TrimFront(s[start..])
      decreases n - start
    {
      assert s[start..][0] == out[start] && s[start..][1..] == s[start + 1..];
      start := start + 1;
    }
    assert start < n ==> s[start..][0] == out[start];
    m := n - start;
    assert out[start..n] == s[start..];
    MoveDown(out, start, m);
  }

  /** The letters from `start` on, and the terminator after them, to the front. */
  method MoveDown(out: array<byte>, start: nat, m: nat)
    requires start + m < out.Length
    modifies out
    ensures out[..m] == old(out[start..start + m]) && out[m] == old(out[start + m])
  {
    forall i | 0 <= i <= m {
      out[i] := out[start + i];
    }
  }

  /** Trailing dots and spaces go, by moving the terminator. */
  method DropTrailing(out: array<byte>, n: nat) returns (m: nat)
    requires n < out.Length && out[n] == 0
    modifies out
    ensures m <= n && out[..m] == TrimBack(old(out[..n])) && out[m] == 0
  {
    ghost var s := out[..n];
    m := n;
    while m > 0 && Edge(out[m - 1])
      invariant m <= n && out[..m] == s[..m] && out[m] == 0
      invariant TrimBack(s) == TrimBack(s[..m])
    {
      assert s[..m][m - 1] == out[m - 1] && s[..m][..m - 1] == s[..m - 1];
      m := m - 1;
      out[m] := 0;
    }
    assert m > 0 ==> s[..m][m - 1] == out[m - 1];
  }

  /** Letter-by-letter comparison with one reserved name, letter case aside. */
  method Matches(name: seq<byte>, device: seq<byte>) returns (r: bool)
    ensures r <==> SameIgnoringCase(name, device)
  {
    if |device| != |name| {
      return false;
    }
    var j := 0;
    while j < |name| && Upper(name[j]) == device[j]
      invariant j <= |name| && forall k :: 0 <= k < j ==> Upper(name[k]) == device[k]
    {
      j := j + 1;
    }
    return j == |name|;
  }

  method FindStem(name: seq<byte>) returns (stem: nat)
    ensures stem <= |name| && name[..stem] == Stem(name)
  {
    stem := 0;
    while stem < |name| && name[stem] != DOT
      invariant stem <= |name| && name[..stem] + Stem(name[stem..]) == Stem(name)
    {
      assert name[stem..][1..] == name[stem + 1..];
      assert name[..stem] + ([name[stem]] + Stem(name[stem + 1..])) == name[..stem + 1] + Stem(name[stem + 1..]);
      stem := stem + 1;
    }
  }

  /** The device check: the stem against every reserved name. */
  method IsReserved(name: seq<byte>) returns (r: bool)
    ensures r <==> ReservedDevice(name)
  {
    var stem := FindStem(name);
    for i := 0 to |RESERVED|
      invariant forall k :: 0 <= k < i ==> !SameIgnoringCase(Stem(name), RESERVED[k])
    {
      r := Matches(name[..stem], RESERVED[i]);
      if r {
        return;
      }
    }
    r := false;
  }

  /** Stripping, cleaning and trimming, one loop after another. */
  method ReduceOnly(name: seq<byte>, out: array<byte>, cap: nat) returns (n: nat)
    requires 0 in name && 1 <= cap <= out.Length
    modifies out
    ensures n < cap && out[..n] == Reduced(name, cap) && out[n] == 0
  {
    var base, end := FindBase(name);
    n := CopyClean(name[base..end], out, cap);
    n := DropLeading(out, n);
    n := DropTrailing(out, n);
  }

  /** Working in place in a buffer of `cap` bytes, the loops compute `SafeName`. */
  method Reduce(name: seq<byte>, out: array<byte>, cap: nat) returns (ok: bool, n: nat)
    requires 0 in name && cap <= out.Length
    modifies out
    ensures ok <==> SafeName(name, cap).Some?
    ensures ok ==> n < cap && out[..n] == SafeName(name, cap).value && out[n] == 0
  {
    ok, n := false, 0;
    if cap < 2 {
      return;
    }
    n := ReduceOnly(name, out, cap);
    if n == 0 {
      return;
    }
    var device := IsReserved(out[..n]);
    if device {
      if n + 2 > cap {
        return;
      }
      ghost var r := out[..n];
      out[n] := UNDERSCORE;
      out[n + 1] := 0;
      n := n + 1;
      assert out[..n] == r + [UNDERSCORE];
    }
    ok := true;
  }
}
