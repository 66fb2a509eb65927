/** What one end of a transfer concludes about the other end's bytes. */
module AspVerdicts {
  import opened Bytes
  import opened Wire
  import opened AspSpec
  import Reassembly
  import Crc32

  function Checksum(s: seq<byte>): u32 {
    Crc32.Crc(Crc32.INIT, s)
  }

  /** The same bytes but for one run of at most four. */
  ghost predicate Burst(a: seq<byte>, b: seq<byte>) {
    exists before, v, w, after ::
      |v| == |w| <= 4 && v != w && a == before + v + after && b == before + w + after
  }

  lemma BurstShows(a: seq<byte>, b: seq<byte>)
    requires Burst(a, b)
    ensures |a| == |b| && Checksum(a) != Checksum(b)
  {
    var before, v, w, after :|
      |v| == |w| <= 4 && v != w && a == before + v + after && b == before + w + after;
    Crc32.BurstIsDetected(Crc32.INIT, before, v, w, after);
  }

  // --- the receiver's verdict ---

  /** DATA after DATA, every write succeeding. */
  function Taking(s: Session, chunks: seq<seq<byte>>, ans: Answers): Session
    decreases |chunks|
  {
    if chunks == [] then s else Taking(Dispatch(s, DATA, chunks[0], ans).s, chunks[1..], ans)
  }

  /** The receiver's counter and running checksum are those of the bytes it has. */
  predicate Sums(rx: Inbound, got: seq<byte>) {
    rx.have == |got| % 0x1_0000_0000 && rx.running == Checksum(got)
  }

  lemma Wraps(n: nat, k: nat)
    ensures (n % 0x1_0000_0000 + k) % 0x1_0000_0000 == (n + k) % 0x1_0000_0000
  {
  }

  lemma OneTaken(s: Session, chunk: seq<byte>, ans: Answers)
    requires s.rx.state == Receiving && ans.writeOk
    ensures Dispatch(s, DATA, chunk, ans).s ==
      s.(rx := s.rx.(have := (s.rx.have + |chunk|) % 0x1_0000_0000, running := Crc32.Crc(s.rx.running, chunk)))
  {
  }

  lemma OneMoreSummed(s: Session, held: seq<byte>, chunk: seq<byte>, ans: Answers)
    requires s.rx.state == Receiving && ans.writeOk && Sums(s.rx, held)
    ensures var s' := Dispatch(s, DATA, chunk, ans).s;
      s' == s.(rx := s.rx.(have := s'.rx.have, running := s'.rx.running)) && Sums(s'.rx, held + chunk)
  {
    OneTaken(s, chunk, ans);
    Wraps(|held|, |chunk|);
    Crc32.CrcContinues(Crc32.INIT, held, chunk);
  }

  lemma {:induction false} TakenIsSummed(s: Session, held: seq<byte>, chunks: seq<seq<byte>>, ans: Answers)
    requires s.rx.state == Receiving && ans.writeOk && Sums(s.rx, held)
    ensures var s' := Taking(s, chunks, ans);
      && s' == s.(rx := s.rx.(have := s'.rx.have, running := s'.rx.running))
      && Sums(s'.rx, held + Reassembly.Flatten(chunks))
    decreases |chunks|
  {
    if chunks == [] {
      assert held + [] == held;
    } else {
      var c, rest := chunks[0], Reassembly.Flatten(chunks[1..]);
      OneMoreSummed(s, held, c, ans);
      TakenIsSummed(Dispatch(s, DATA, c, ans).s, held + c, chunks[1..], ans);
      assert held + c + rest == held + (c + rest);
    }
  }

  /** The verdict a DONE gets, on what was held and everything taken in since. */
  function VerdictOn(s: Session, chunks: seq<seq<byte>>, ans: Answers): Outcome {
    Dispatch(Taking(s, chunks, ans), DONE, Payload(Done(s.rx.id)), ans)
  }

  lemma DoneIsJudged(s: Session, ans: Answers)
    requires s.rx.state == Receiving
    ensures Dispatch(s, DONE, Payload(Done(s.rx.id)), ans).effects == [TransferDone(true, s.rx.id, Verdict(s.rx))]
  {
    PayloadRoundTrip(Done(s.rx.id));
  }

  /** What a verdict says of the bytes it was given on. */
  predicate Right(verdict: byte, got: seq<byte>, file: seq<byte>) {
    && (verdict == SHORT <==> |got| % 0x1_0000_0000 != |file|)
    && (verdict == RESULT_OK <==> |got| % 0x1_0000_0000 == |file| && Checksum(got) == Checksum(file))
    && verdict in {SHORT, RESULT_OK, CRC_MISMATCH}
  }

  lemma SumsDecide(rx: Inbound, got: seq<byte>, file: seq<byte>)
    requires rx.size == |file| && rx.crc == Checksum(file) && Sums(rx, got)
    ensures Right(Verdict(rx), got, file)
  {
  }

  lemma DamageShows(verdict: byte, got: seq<byte>, file: seq<byte>)
    requires Right(verdict, got, file) && |file| < 0x1_0000_0000
    ensures got == file ==> verdict == RESULT_OK
    ensures Burst(got, file) ==> verdict == CRC_MISMATCH
  {
    if Burst(got, file) {
      BurstShows(got, file);
    }
  }

  /**
   * A reception of `file`, from whatever partial was held and whatever chunks came in: the whole
   * file is reported OK; a file of that length damaged within four consecutive bytes is reported
   * as a checksum mismatch; any other length, up to the 32-bit counter, is reported short.
   */
  lemma VerdictIsRight(s: Session, file: seq<byte>, held: seq<byte>, chunks: seq<seq<byte>>, ans: Answers) returns (verdict: byte)
    requires s.rx.state == Receiving && ans.writeOk && |file| < 0x1_0000_0000
    requires s.rx.size == |file| && s.rx.crc == Checksum(file) && Sums(s.rx, held)
    ensures VerdictOn(s, chunks, ans).effects == [TransferDone(true, s.rx.id, verdict)]
    ensures Right(verdict, held + Reassembly.Flatten(chunks), file)
    ensures held + Reassembly.Flatten(chunks) == file ==> verdict == RESULT_OK
    ensures Burst(held + Reassembly.Flatten(chunks), file) ==> verdict == CRC_MISMATCH
  {
    TakenIsSummed(s, held, chunks, ans);
    var rx := Taking(s, chunks, ans).rx;
    verdict := Verdict(rx);
    DoneIsJudged(Taking(s, chunks, ans), ans);
    SumsDecide(rx, held + Reassembly.Flatten(chunks), file);
    DamageShows(verdict, held + Reassembly.Flatten(chunks), file);
  }

  // --- the sender's choice of a start ---

  /**
   * The receiver reports the length and checksum of the partial it holds, and the sender reads
   * that much of the file back. It goes on after a true prefix; it starts over when the partial
   * is damaged within four consecutive bytes, is longer than the file, or cannot be checked.
   */
  lemma ResumeIsChecked(s: Session, file: seq<byte>, partial: seq<byte>, ans: Answers)
    requires s.tx.state == Offered && s.pending == [] && s.tx.size == |file| && |partial| < 0x1_0000_0000
    requires ans.prefix.None? || (|partial| <= |file| && ans.prefix == Some(file[..|partial|]))
    ensures var o := Dispatch(s, ACCEPT, Payload(Accept(s.tx.id, |partial|, Checksum(partial))), ans);
      && o.s.tx.state == Running && o.s.tx.offset in {0, |partial|} && o.queued == Some(Start(s.tx.id, o.s.tx.offset))
      && (partial <= file && ans.prefix.Some? ==> o.s.tx.offset == |partial|)
      && (|partial| <= |file| && Burst(partial, file[..|partial|]) ==> o.s.tx.offset == 0)
      && (|partial| > |file| || ans.prefix.None? ==> o.s.tx.offset == 0)
  {
    PayloadRoundTrip(Accept(s.tx.id, |partial|, Checksum(partial)));
    if partial <= file {
      assert file[..|partial|] == partial;
    }
    if |partial| <= |file| && Burst(partial, file[..|partial|]) {
      BurstShows(partial, file[..|partial|]);
    }
  }

  // --- a stop that hits the wrong transfer ---

  /** A station sending one file and receiving another, both under the same id. */
  function Busy(id: u16): Session {
    Session(LinkState.Asp, [], 1, [], [], Outbound(Running, id, 1, 0, 0), Inbound(Receiving, id, 1, 0, 0, 0, [0x66]), 2)
  }

  /** The peer gives up what it sends, and it is this station's own sending that stops. */
  lemma WrongTransferCanStop(id: u16, reason: byte, ans: Answers)
    ensures var s := Busy(id);
      Dispatch(s, CANCEL, Payload(Cancel(id, reason)), ans) ==
        Outcome(s.(tx := s.tx.(state := NoTransfer)), None, [], [], [TransferDone(false, id, SHORT)])
  {
    PayloadRoundTrip(Cancel(id, reason));
  }
}
