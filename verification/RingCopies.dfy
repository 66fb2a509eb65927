/** The wrapping copies into and out of a circular buffer. */
module RingCopies {
  import opened Bytes
  import opened RingSeam

  lemma CellOneLapOn(at: nat, cap: nat)
    requires cap > 0
    ensures Cell(at + cap, cap) == Cell(at, cap)
  {
    var laps := at / cap;
    assert (laps + 1) * cap == laps * cap + cap;
    Unique(at + cap, laps + 1, at % cap, cap);
  }

  /** Nothing less than a lap behind the end of a copy to `at` has changed. */
  ghost predicate LapKept<T>(before: seq<T>, after: seq<T>, at: nat, n: nat) {
    && |before| == |after| > 0
    && forall k :: 0 <= k < at && at + n <= k + |after| ==> after[Cell(k, |after|)] == before[Cell(k, |after|)]
  }

  /**
   * Copy `src` in at absolute index `at`, in at most two runs. Nothing of the lap
   * before it changes.
   */
  method Put<T>(buf: array<T>, at: nat, src: seq<T>)
    requires |src| <= buf.Length && buf.Length > 0
    modifies buf
    ensures Gather(buf[..], at, |src|) == src
    ensures LapKept(old(buf[..]), buf[..], at, |src|)
  {
    var n, cap := |src|, buf.Length;
    var off := at % cap;
    var first := Min(cap - off, n);
    forall i | 0 <= i < first {
      buf[off + i] := src[i];
    }
    if n > first {
      forall i | 0 <= i < n - first {
        buf[i] := src[first + i];
      }
    }
    forall i | 0 <= i < n ensures buf[Cell(at + i, cap)] == src[i] {
      CellAfter(at, i, cap);
    }
    forall k | 0 <= k < at && at + n <= k + cap ensures buf[Cell(k, cap)] == old(buf[Cell(k, cap)]) {
      CellAfter(at, k + cap - at, cap);
      CellOneLapOn(k, cap);
    }
  }

  /** Copy `n` elements out from absolute index `at`, in at most two runs. */
  method Get<T>(buf: array<T>, at: nat, dst: array<T>, n: nat)
    requires 0 < buf.Length && n <= buf.Length && n <= dst.Length && dst != buf
    modifies dst
    ensures dst[..n] == Gather(buf[..], at, n) && dst[n..] == old(dst[n..])
  {
    var cap := buf.Length;
    var off := at % cap;
    var first := Min(cap - off, n);
    forall i | 0 <= i < first {
      dst[i] := buf[off + i];
    }
    if n > first {
      forall i | 0 <= i < n - first {
        dst[first + i] := buf[i];
      }
    }
    forall i | 0 <= i < n ensures dst[i] == buf[Cell(at + i, cap)] {
      CellAfter(at, i, cap);
    }
  }

  lemma StillHolds<T>(s: Ring<T>, buf: seq<T>, n: nat)
    requires RingSeam.Inv(s) && s.w - s.r + n <= |buf| && LapKept(s.buf, buf, s.w, n)
    ensures Holds(s.(buf := buf))
  {
    forall k | s.r <= k < s.w ensures buf[Cell(k, |buf|)] == s.stream[k] {
      assert s.buf[Cell(k, |buf|)] == s.stream[k];
    }
  }

  lemma BlockIn<T>(buf: seq<T>, at: nat, block: seq<T>)
    requires |buf| > 0 && Gather(buf, at, |block|) == block
    ensures forall j :: at <= j < at + |block| ==> buf[Cell(j, |buf|)] == block[j - at]
  {
    forall j | at <= j < at + |block| ensures buf[Cell(j, |buf|)] == block[j - at] {
      assert Gather(buf, at, |block|)[j - at] == buf[Cell(at + (j - at), |buf|)];
    }
  }

  /** With the whole block copied in, all that is left is to publish it. */
  lemma CopiedIn<T>(s: Ring<T>, buf: seq<T>, block: seq<T>)
    requires RingSeam.Inv(s) && s.w - s.r + |block| <= |buf|
    requires LapKept(s.buf, buf, s.w, |block|) && Gather(buf, s.w, |block|) == block
    ensures RingSeam.Inv(s.(buf := buf, p := Copying(s.r, block, |block|)))
  {
    StillHolds(s, buf, |block|);
    BlockIn(buf, s.w, block);
  }

  /** What is gathered from the read counter on is what was published from there on. */
  lemma GatherIsStream<T>(s: Ring<T>, n: nat)
    requires RingSeam.Inv(s) && s.r + n <= s.w
    ensures Gather(s.buf, s.r, n) == s.stream[s.r..s.r + n]
  {
    forall i | 0 <= i < n ensures Gather(s.buf, s.r, n)[i] == s.stream[s.r + i] {
      assert s.buf[Cell(s.r + i, |s.buf|)] == s.stream[s.r + i];
    }
  }
}
