/** The ring of audio samples: the same seam, carrying a stream in which short reads and writes are normal. */
module SampleRings {
  import opened Bytes
  import opened RingCopies
  import opened RingSeam

  /** Reads give up exactly what they copied out. */
  ghost predicate GivesWhatItTakes<T>(s: Ring<T>, a: Step<T>) {
    a.PublishR? && s.c.Taking? ==> a.n == |s.c.got|
  }

  /** The reads of a run, end to end. */
  ghost function Output<T>(s: Ring<T>, path: seq<Step<T>>, t: Ring<T>): seq<T>
    requires |s.buf| > 0 && Run(s, path, t)
    decreases |path|
  {
    if path == [] then []
    else (if path[0].PublishR? then s.c.got else []) + Output(Next(s, path[0]), path[1..], t)
  }

  /** The writes of a run, end to end. */
  ghost function Input<T>(s: Ring<T>, path: seq<Step<T>>, t: Ring<T>): seq<T>
    requires |s.buf| > 0 && Run(s, path, t)
    decreases |path|
  {
    if path == [] then []
    else (if path[0].PublishW? then s.p.block else []) + Input(Next(s, path[0]), path[1..], t)
  }

  ghost predicate HonestReads<T>(s: Ring<T>, path: seq<Step<T>>, t: Ring<T>)
    requires |s.buf| > 0 && Run(s, path, t)
    decreases |path|
  {
    path != [] ==> GivesWhatItTakes(s, path[0]) && HonestReads(Next(s, path[0]), path[1..], t)
  }

  lemma {:induction false} InputIsStream<T>(s: Ring<T>, path: seq<Step<T>>, t: Ring<T>)
    requires Inv(s) && Run(s, path, t)
    ensures t.stream == s.stream + Input(s, path, t)
    decreases |path|
  {
    if path != [] {
      StepKeeps(s, path[0]);
      InputIsStream(Next(s, path[0]), path[1..], t);
      Associative(s.stream, if path[0].PublishW? then s.p.block else [], Input(Next(s, path[0]), path[1..], t));
    }
  }

  lemma Associative<T>(a: seq<T>, b: seq<T>, c: seq<T>)
    ensures a + b + c == a + (b + c)
    ensures a + [] == a
  {
  }

  lemma OneRead<T>(s: Ring<T>, a: Step<T>)
    requires Inv(s) && Enabled(s, a) && GivesWhatItTakes(s, a)
    ensures Inv(Next(s, a))
    ensures Next(s, a).stream[..Next(s, a).r] == s.stream[..s.r] + if a.PublishR? then s.c.got else []
  {
    StepKeeps(s, a);
  }

  lemma {:induction false} OutputIsRead<T>(s: Ring<T>, path: seq<Step<T>>, t: Ring<T>)
    requires Inv(s) && Run(s, path, t) && HonestReads(s, path, t)
    ensures Inv(t) && t.stream[..t.r] == s.stream[..s.r] + Output(s, path, t)
    decreases |path|
  {
    if path != [] {
      var next := Next(s, path[0]);
      OneRead(s, path[0]);
      OutputIsRead(next, path[1..], t);
      Associative(s.stream[..s.r], if path[0].PublishR? then s.c.got else [], Output(next, path[1..], t));
    }
  }

  /**
   * Whatever the interleaving, the samples read are the samples written, in order, with
   * none lost, repeated or made up; the rest are waiting, and are no more than the buffer holds.
   */
  lemma SamplesAreAStream<T>(storage: seq<T>, path: seq<Step<T>>, t: Ring<T>)
    requires |storage| > 0 && Run(Fresh(storage), path, t) && HonestReads(Fresh(storage), path, t)
    ensures var input, output := Input(Fresh(storage), path, t), Output(Fresh(storage), path, t);
      output <= input && |input| - |output| <= |storage|
  {
    FreshInv(storage);
    RunKeeps(Fresh(storage), path, t);
    InputIsStream(Fresh(storage), path, t);
    OutputIsRead(Fresh(storage), path, t);
    var input, output := Input(Fresh(storage), path, t), Output(Fresh(storage), path, t);
    assert t.stream == [] + input == input;
    assert t.stream[..t.r] == [] + output == output;
  }

  lemma BlockPublished<T>(s: Ring<T>, buf: seq<T>, block: seq<T>)
    requires Inv(s) && s.p.Resting? && s.c.Waiting? && s.w - s.r + |block| <= |buf|
    requires LapKept(s.buf, buf, s.w, |block|) && Gather(buf, s.w, |block|) == block
    ensures Inv(Ring(buf, s.w + |block|, s.r, Resting, Waiting, s.stream + block))
  {
    CopiedIn(s, buf, block);
    PublishWKeeps(s.(buf := buf, p := Copying(s.r, block, |block|)));
  }

  class SampleRing {
    const buf: array<sample>
    var w: nat
    var r: nat
    ghost var stream: seq<sample>

    ghost function View(): Ring<sample>
      reads this, buf
    {
      Ring(buf[..], w, r, Resting, Waiting, stream)
    }

    ghost predicate Valid()
      reads this, buf
    {
      Inv(View())
    }

    /** The samples waiting to be read. */
    ghost function Contents(): seq<sample>
      requires Valid()
      reads this, buf
    {
      stream[r..]
    }

    constructor (storage: array<sample>)
      requires storage.Length > 0
      ensures buf == storage && Valid() && Contents() == []
    {
      buf := storage;
      w, r, stream := 0, 0, [];
      new;
      FreshInv(buf[..]);
    }

    /** Append as many of the samples as there is room for. */
    method Write(src: seq<sample>) returns (n: nat)
      requires Valid()
      modifies this, buf
      ensures Valid() && r == old(r)
      ensures n == Min(|src|, buf.Length - |old(Contents())|)
      ensures Contents() == old(Contents()) + src[..n]
    {
      var space := buf.Length - (w - r);
      n := Min(|src|, space);
      if n == 0 {
        return;
      }
      ghost var before := View();
      Put(buf, w, src[..n]);
      BlockPublished(before, buf[..], src[..n]);
      w := w + n;
      stream := stream + src[..n];
    }

    /** Remove as many samples as are wanted and waiting. */
    method Read(dst: array<sample>, want: nat) returns (n: nat)
      requires Valid() && dst != buf && want <= dst.Length
      modifies this`r, dst
      ensures Valid() && n == Min(want, |old(Contents())|)
      ensures dst[..n] == old(Contents())[..n] && dst[n..] == old(dst[n..])
      ensures Contents() == old(Contents())[n..]
    {
      n := Min(want, w - r);
      if n == 0 {
        return;
      }
      GatherIsStream(View(), n);
      Get(buf, r, dst, n);
      r := r + n;
    }
  }
}
