/**
 * Transmit credit: the modem thread publishes how many bytes the link could have taken in
 * all, the submitting thread compares its own total against it, and the two never share a
 * lock. Steps of the two threads interleave in any order.
 */
module TxCredits {
  import opened Bytes
  import opened HostLines

  const TX_CHUNK := 4096

  /** What may have been submitted, as far as one loaded limit tells. */
  function Credit(limit: nat, offered: nat): (n: nat)
    ensures n <= TX_CHUNK && (n > 0 ==> offered + n <= limit)
  {
    if limit <= offered then 0 else Min(limit - offered, TX_CHUNK)
  }

  /** The limit to publish: all the link could have taken by now, or nothing more at all. */
  function Limit(applied: nat, cap: nat, queue: seq<byte>, cut: bool): (limit: nat)
    requires |queue| <= cap
    ensures applied <= limit <= applied + cap - |queue|
  {
    if cut then applied else applied + (cap - |queue|)
  }

  /** What the link takes of `n` bytes offered to it: all that there is room for. */
  function Taken(cap: nat, queue: seq<byte>, n: nat): (took: nat)
    requires |queue| <= cap
    ensures took <= n && |queue| + took <= cap
  {
    Min(n, cap - |queue|)
  }

  /** Where the submitting thread is: between calls; holding the limit it loaded; or written, not yet counted. */
  datatype Submitter = Idle | Loaded(data: seq<byte>, limit: nat) | Written(take: nat)

  /**
   * `limit` is the one shared number; `cmdq` is the command ring, a FIFO of records. `offered`
   * belongs to the submitter, `applied` and the link's transmit queue to the modem thread.
   * A guest may own the link, and put payload of its own in that queue. `accepted`, `entered`,
   * `lost`, `missed` and `guest` record what submissions promised, what of it went into the
   * link's queue, how much was thrown away, how much was cut off records for want of room, and
   * how much the guests put in.
   */
  datatype State = State(
    limit: nat, cmdq: seq<Command>,
    offered: nat, submitter: Submitter, accepted: seq<byte>,
    faulted: bool, owned: bool, applied: nat, queue: seq<byte>, cap: nat,
    entered: seq<byte>, lost: nat, missed: nat, guest: nat)

  datatype Step =
    | Load(data: seq<byte>)       // submit: load the limit
    | Write(room: bool)           // write the record, if the ring has room for it
    | Count                       // and only then count it
    | SubmitOther(c: Command)     // anything but payload
    | Apply                       // modem: take one record out and act on it
    | Drain(from: nat, to: nat)   // the link gives up a stretch of its queue
    | Publish(cut: bool)          // publish the limit; `cut` when there is no device, or congestion
    | SetFault(on: bool)          // a device fault is latched, or cleared
    | SetOwner(on: bool)          // a guest is seen to attach, or to leave
    | GuestSend(bytes: seq<byte>) // a guest's payload, as far as there is room

  function Opened(cap: nat): State {
    State(cap, [], 0, Idle, [], false, false, 0, [], cap, [], 0, 0, 0)
  }

  function TakeOf(s: State): (n: nat)
    requires s.submitter.Loaded?
    ensures n <= |s.submitter.data|
  {
    Min(Credit(s.submitter.limit, s.offered), |s.submitter.data|)
  }

  ghost predicate Enabled(s: State, a: Step) {
    match a
    case Load(_) => s.submitter.Idle?
    case Write(_) => s.submitter.Loaded?
    case Count => s.submitter.Written?
    case SubmitOther(c) => s.submitter.Idle? && !c.Payload?
    case Apply => s.cmdq != [] && |s.queue| <= s.cap
    case Drain(from, to) => from <= to <= |s.queue|
    case Publish(_) => |s.queue| <= s.cap
    case GuestSend(_) => |s.queue| <= s.cap
    case _ => true
  }

  /** Payload is thrown away, and no credit is given: a fault, or a guest owning the link. */
  predicate Barred(s: State) {
    s.faulted || s.owned
  }

  function Next(s: State, a: Step): State
    requires Enabled(s, a)
  {
    match a
    case Load(data) => s.(submitter := Loaded(data, s.limit))
    case Write(room) =>
      var take := TakeOf(s);
      if take == 0 || !room then s.(submitter := Idle)
      else
        var bytes := s.submitter.data[..take];
        s.(submitter := Written(take), cmdq := s.cmdq + [Payload(bytes)], accepted := s.accepted + bytes)
    case Count => s.(submitter := Idle, offered := s.offered + s.submitter.take)
    case SubmitOther(c) => s.(cmdq := s.cmdq + [c])
    case Apply =>
      if !s.cmdq[0].Payload? then s.(cmdq := s.cmdq[1..])
      else if Barred(s) then s.(cmdq := s.cmdq[1..], lost := s.lost + |s.cmdq[0].bytes|)
      else
        var bytes := s.cmdq[0].bytes;
        var took := Taken(s.cap, s.queue, |bytes|);
        s.(cmdq := s.cmdq[1..], applied := s.applied + |bytes|, queue := s.queue + bytes[..took],
           entered := s.entered + bytes[..took], missed := s.missed + |bytes| - took)
    case Drain(from, to) => s.(queue := s.queue[..from] + s.queue[to..])
    case Publish(cut) => s.(limit := Limit(s.applied, s.cap, s.queue, cut || Barred(s)))
    case SetFault(on) => s.(faulted := on)
    case SetOwner(on) => s.(owned := on)
    case GuestSend(bytes) =>
      var took := Taken(s.cap, s.queue, |bytes|);
      s.(queue := s.queue + bytes[..took], guest := s.guest + took)
  }

  // --- the invariant ---

  /** Payload written and not yet applied. */
  function Inflight(cmdq: seq<Command>): seq<byte> {
    FlatMap(PayloadOf, cmdq)
  }

  function PayloadOf(c: Command): seq<byte> {
    if c.Payload? then c.bytes else []
  }

  /** The most the link could have taken in all by now. */
  function Ceiling(s: State): int {
    s.applied + s.cap - |s.queue|
  }

  /** The submitter's total, counting what it has written but not yet counted. */
  function Promised(s: State): nat {
    s.offered + if s.submitter.Written? then s.submitter.take else 0
  }

  ghost predicate Inv(s: State) {
    && |s.queue| <= s.cap && s.missed <= s.guest
    && s.limit + s.missed <= Ceiling(s) + s.guest
    && (s.submitter.Loaded? ==> s.submitter.limit + s.missed <= Ceiling(s) + s.guest)
    && Promised(s) + s.missed <= Ceiling(s) + s.guest
    && s.applied == |s.entered| + s.missed
    && s.applied + s.lost + |Inflight(s.cmdq)| == Promised(s) == |s.accepted|
    && (s.lost == 0 && s.missed == 0 ==> s.accepted == s.entered + Inflight(s.cmdq))
  }

  lemma OpenedInv(cap: nat)
    ensures Inv(Opened(cap))
  {
  }

  lemma WriteKeeps(s: State, room: bool)
    requires Inv(s) && s.submitter.Loaded?
    ensures Inv(Next(s, Write(room)))
  {
    FlatMapAppends(PayloadOf, s.cmdq, Payload(s.submitter.data[..TakeOf(s)]));
  }

  lemma ApplyOther(s: State)
    requires Inv(s) && s.cmdq != [] && !s.cmdq[0].Payload?
    ensures Inv(Next(s, Apply))
  {
    assert Inflight(s.cmdq) == [] + Inflight(s.cmdq[1..]);
  }

  lemma ApplyBarred(s: State)
    requires Inv(s) && s.cmdq != [] && s.cmdq[0].Payload? && Barred(s)
    ensures Inv(Next(s, Apply))
  {
  }

  lemma ApplyTaken(s: State)
    requires Inv(s) && s.cmdq != [] && s.cmdq[0].Payload? && !Barred(s)
    ensures Inv(Next(s, Apply))
  {
    var bytes := s.cmdq[0].bytes;
    assert |bytes| <= |Inflight(s.cmdq)|;
    if Taken(s.cap, s.queue, |bytes|) == |bytes| {
      assert bytes[..|bytes|] == bytes;
    }
  }

  lemma ApplyKeeps(s: State)
    requires Inv(s) && s.cmdq != []
    ensures Inv(Next(s, Apply))
  {
    if !s.cmdq[0].Payload? {
      ApplyOther(s);
    } else if Barred(s) {
      ApplyBarred(s);
    } else {
      ApplyTaken(s);
    }
  }

  lemma SubmitKeeps(s: State, c: Command)
    requires Inv(s) && Enabled(s, SubmitOther(c))
    ensures Inv(Next(s, SubmitOther(c)))
  {
    FlatMapAppends(PayloadOf, s.cmdq, c);
  }

  lemma CountKeeps(s: State)
    requires Inv(s) && Enabled(s, Count)
    ensures Inv(Next(s, Count))
  {
  }

  lemma GuestKeeps(s: State, bytes: seq<byte>)
    requires Inv(s)
    ensures Inv(Next(s, GuestSend(bytes)))
  {
  }

  lemma InvKeeps(s: State, a: Step)
    requires Inv(s) && Enabled(s, a)
    ensures Inv(Next(s, a))
  {
    match a
    case Write(room) => WriteKeeps(s, room);
    case Count => CountKeeps(s);
    case SubmitOther(c) => SubmitKeeps(s, c);
    case Apply => ApplyKeeps(s);
    case GuestSend(bytes) => GuestKeeps(s, bytes);
    case _ =>
  }

  /** No step lowers the most the link could have taken, but a guest's payload, by what of it is taken. */
  lemma StepKeeps(s: State, a: Step)
    requires Inv(s) && Enabled(s, a)
    ensures Inv(Next(s, a))
    ensures if a.GuestSend? then Ceiling(Next(s, a)) == Ceiling(s) - Taken(s.cap, s.queue, |a.bytes|)
            else Ceiling(Next(s, a)) >= Ceiling(s) && Next(s, a).guest == s.guest
    ensures Ceiling(s) + s.guest <= Ceiling(Next(s, a)) + Next(s, a).guest
  {
    InvKeeps(s, a);
    CeilingStep(s, a);
  }

  lemma CeilingStep(s: State, a: Step)
    requires |s.queue| <= s.cap && Enabled(s, a)
    ensures if a.GuestSend? then Ceiling(Next(s, a)) == Ceiling(s) - Taken(s.cap, s.queue, |a.bytes|)
            else Ceiling(Next(s, a)) >= Ceiling(s) && Next(s, a).guest == s.guest
    ensures Ceiling(s) + s.guest <= Ceiling(Next(s, a)) + Next(s, a).guest
  {
  }

  ghost predicate Run(s: State, path: seq<Step>, t: State)
    decreases |path|
  {
    if path == [] then t == s else Enabled(s, path[0]) && Run(Next(s, path[0]), path[1..], t)
  }

  lemma {:induction false} RunOn(s: State, path: seq<Step>, t: State, more: seq<Step>, u: State)
    requires Run(s, path, t) && Run(t, more, u)
    ensures Run(s, path + more, u)
    decreases |path|
  {
    if path == [] {
      assert path + more == more;
    } else {
      RunOn(Next(s, path[0]), path[1..], t, more, u);
      assert (path + more)[1..] == path[1..] + more;
    }
  }

  /** One submission with nothing in between: load, write, count. */
  function Submitted(s: State, data: seq<byte>, room: bool): State
    requires s.submitter.Idle?
  {
    var written := Next(Next(s, Load(data)), Write(room));
    if written.submitter.Written? then Next(written, Count) else written
  }

  /** What can only have grown, and the ceiling, lower by no more than what guests put in. */
  predicate Onward(s: State, t: State) {
    && s.cap == t.cap && s.entered <= t.entered && s.guest <= t.guest
    && Ceiling(s) <= Ceiling(t) + (t.guest - s.guest)
  }

  lemma StepOnward(s: State, a: Step)
    requires |s.queue| <= s.cap && Enabled(s, a)
    ensures Onward(s, Next(s, a))
  {
    CeilingStep(s, a);
  }

  lemma OnwardTwice(s: State, t: State, u: State)
    requires Onward(s, t) && Onward(t, u)
    ensures Onward(s, u)
  {
  }

  /** However low the published limit dips, the most the link could have taken never shrinks but by what guests put in. */
  lemma {:induction false} CeilingNeverFalls(s: State, path: seq<Step>, t: State)
    requires Inv(s) && Run(s, path, t)
    ensures Inv(t) && Onward(s, t)
    decreases |path|
  {
    if path != [] {
      var next := Next(s, path[0]);
      InvKeeps(s, path[0]);
      StepOnward(s, path[0]);
      CeilingNeverFalls(next, path[1..], t);
      OnwardTwice(s, next, t);
    }
  }

  /**
   * In every interleaving of submissions, the modem's steps, faults, guests and a link that
   * drains as it likes: what is cut off records for want of room is, all told, no more than
   * guests have put in the link's queue. Without them every record fits when it is applied.
   */
  lemma CreditNeverTruncates(cap: nat, path: seq<Step>, s: State)
    requires Run(Opened(cap), path, s)
    ensures s.missed <= s.guest && |s.queue| <= cap && Promised(s) == |s.accepted|
    ensures s.cmdq != [] && s.cmdq[0].Payload? ==> |s.queue| + |s.cmdq[0].bytes| <= cap + s.guest - s.missed
    ensures s.limit <= s.applied + cap - |s.queue| + s.guest - s.missed
    ensures s.lost == 0 && s.missed == 0 <==> |s.accepted| == |s.entered| + |Inflight(s.cmdq)|
    ensures s.lost == 0 && s.missed == 0 ==> s.accepted == s.entered + Inflight(s.cmdq)
  {
    OpenedInv(cap);
    CeilingNeverFalls(Opened(cap), path, s);
    if s.cmdq != [] && s.cmdq[0].Payload? {
      assert |s.cmdq[0].bytes| <= |Inflight(s.cmdq)|;
    }
  }

  /** A run in which nothing is barred and no guest sends. */
  predicate Undisturbed(path: seq<Step>) {
    forall a :: a in path ==> a != SetFault(true) && a != SetOwner(true) && !a.GuestSend?
  }

  lemma {:induction false} NothingIsLost(s: State, path: seq<Step>, t: State)
    requires Run(s, path, t) && !Barred(s) && Undisturbed(path)
    ensures t.lost == s.lost && t.guest == s.guest && !Barred(t)
    decreases |path|
  {
    if path != [] {
      assert path[0] in path && forall a :: a in path[1..] ==> a in path;
      NothingIsLost(Next(s, path[0]), path[1..], t);
    }
  }

  /** Without a fault and without a guest, nothing accepted is ever lost or cut. */
  lemma AcceptedBytesEnterOnce(cap: nat, path: seq<Step>, s: State)
    requires Run(Opened(cap), path, s) && Undisturbed(path)
    ensures s.accepted == s.entered + Inflight(s.cmdq)
  {
    NothingIsLost(Opened(cap), path, s);
    CreditNeverTruncates(cap, path, s);
  }

  /**
   * Bytes thrown away while barred are never credited back: when nothing is in flight and the
   * full limit is published, the submitter's credit falls short of the link's room by exactly
   * that much. It is whole if and only if nothing was thrown away.
   */
  lemma FaultsCostCredit(cap: nat, path: seq<Step>, s: State)
    requires Run(Opened(cap), path, s) && s.submitter.Idle? && Inflight(s.cmdq) == []
    requires s.limit == s.applied + cap - |s.queue|
    ensures s.limit - s.offered == cap - |s.queue| - s.lost
    ensures s.guest == 0 ==> s.limit >= s.offered
  {
    OpenedInv(cap);
    CeilingNeverFalls(Opened(cap), path, s);
  }

  /**
   * The published limit is not monotonic. Where credit is cut or barred it falls exactly when
   * some was still showing; otherwise it can fall only by what guests have put in the queue.
   */
  lemma LimitFallsExactly(cap: nat, path: seq<Step>, s: State, cut: bool)
    requires Run(Opened(cap), path, s)
    ensures Enabled(s, Publish(cut))
    ensures cut || Barred(s) ==> (Next(s, Publish(cut)).limit < s.limit <==> s.applied < s.limit)
    ensures !cut && !Barred(s) ==> Next(s, Publish(cut)).limit + (s.guest - s.missed) >= s.limit
    ensures s.guest == 0 ==> (Next(s, Publish(cut)).limit < s.limit <==> (cut || Barred(s)) && s.applied < s.limit)
  {
    OpenedInv(cap);
    CeilingNeverFalls(Opened(cap), path, s);
  }

  // --- how much a submission takes ---

  /**
   * A submission that meets nothing else takes of its data the longest front that is at most 4096
   * bytes and does not bring the submitter's total past the limit; nothing if there is none, or if
   * the command ring has no room. What it takes is one record, counted once.
   */
  lemma SubmissionTakes(s: State, data: seq<byte>, room: bool) returns (n: nat)
    requires s.submitter.Idle?
    ensures n <= |data| && n <= 4096 && (n > 0 ==> room && s.offered + n <= s.limit)
    ensures var t := Submitted(s, data, room);
      && t == s.(offered := s.offered + n, accepted := s.accepted + data[..n], cmdq := t.cmdq)
      && t.cmdq == s.cmdq + if n > 0 then [Payload(data[..n])] else []
    ensures room ==> n == |data| || n == 4096 || s.offered + n == s.limit || (n == 0 && s.limit <= s.offered)
  {
    var loaded := Next(s, Load(data));
    n := if room then TakeOf(loaded) else 0;
    assert n == 0 ==> data[..n] == [] && s.accepted + [] == s.accepted && s.cmdq + [] == s.cmdq;
  }

  /**
   * With full credit just published, nothing in flight, nothing lost and no guest, a submission
   * takes as much of its data as the link has room for, up to 4096 bytes.
   */
  lemma FreshCreditIsRoom(cap: nat, path: seq<Step>, s: State, data: seq<byte>)
    requires Run(Opened(cap), path, s) && s.submitter.Idle? && Inflight(s.cmdq) == []
    requires s.lost == 0 && s.guest == 0 && !Barred(s)
    ensures |s.queue| <= cap && Enabled(s, Publish(false))
    ensures var p := Next(s, Publish(false)); var n := Min(Min(|data|, 4096), cap - |s.queue|);
      && p.submitter.Idle? && Submitted(p, data, true).offered == p.offered + n
      && Submitted(p, data, true).accepted == p.accepted + data[..n]
  {
    OpenedInv(cap);
    CeilingNeverFalls(Opened(cap), path, s);
    var n := SubmissionTakes(Next(s, Publish(false)), data, true);
  }

  // --- runs that show the bounds are met ---

  /** The limit does fall: at once, if the first thing to happen is that credit is cut. */
  lemma LimitCanFall(cap: nat)
    requires cap > 0
    ensures Next(Opened(cap), Publish(true)).limit < Opened(cap).limit
    ensures Ceiling(Next(Opened(cap), Publish(true))) == Ceiling(Opened(cap))
  {
  }

  lemma RunStep(s: State, a: Step, path: seq<Step>, t: State)
    requires Enabled(s, a) && Run(Next(s, a), path, t)
    ensures Run(s, [a] + path, t)
  {
    assert ([a] + path)[1..] == path;
  }

  /** A fault between a submission and its application loses the bytes, and with them the credit. */
  lemma CreditCanBeLost(cap: nat, b: byte) returns (path: seq<Step>, s: State)
    requires cap > 0
    ensures Run(Opened(cap), path, s) && s.lost == 1 && s.queue == [] && !Barred(s)
    ensures s.limit == cap && s.offered == 1 && s.submitter.Idle? && s.cmdq == []
  {
    var s1 := Next(Opened(cap), Load([b]));
    var s2 := Next(s1, Write(true));
    var s3 := Next(s2, Count);
    var s4 := Next(s3, SetFault(true));
    var s5 := Next(s4, Apply);
    s := Next(s5, SetFault(false));
    assert [b][..1] == [b] && s2.cmdq == [Payload([b])] && s2.cmdq[1..] == [];
    RunStep(s5, SetFault(false), [], s);
    RunStep(s4, Apply, [SetFault(false)] + [], s);
    RunStep(s3, SetFault(true), [Apply] + ([SetFault(false)] + []), s);
    RunStep(s2, Count, [SetFault(true)] + ([Apply] + ([SetFault(false)] + [])), s);
    RunStep(s1, Write(true), [Count] + ([SetFault(true)] + ([Apply] + ([SetFault(false)] + []))), s);
    path := [Load([b])] + ([Write(true)] + ([Count] + ([SetFault(true)] + ([Apply] + ([SetFault(false)] + [])))));
    RunStep(Opened(cap), Load([b]), [Write(true)] + ([Count] + ([SetFault(true)] + ([Apply] + ([SetFault(false)] + [])))), s);
  }

  /** A guest that fills the link between the load of a limit and its use: the record is cut by all the guest put in. */
  lemma GuestCanTruncate(b: byte) returns (path: seq<Step>, s: State)
    ensures Run(Opened(1), path, s) && s.accepted == [b] && s.entered == [] && s.missed == s.guest == 1 && s.lost == 0
  {
    var s1 := Next(Opened(1), Load([b]));
    var s2 := Next(s1, GuestSend([b]));
    var s3 := Next(s2, Write(true));
    var s4 := Next(s3, Count);
    s := Next(s4, Apply);
    assert [b][..1] == [b] && s3.cmdq == [Payload([b])] && s3.cmdq[1..] == [];
    RunStep(s4, Apply, [], s);
    RunStep(s3, Count, [Apply] + [], s);
    RunStep(s2, Write(true), [Count] + ([Apply] + []), s);
    RunStep(s1, GuestSend([b]), [Write(true)] + ([Count] + ([Apply] + [])), s);
    path := [Load([b])] + ([GuestSend([b])] + ([Write(true)] + ([Count] + ([Apply] + []))));
    RunStep(Opened(1), Load([b]), [GuestSend([b])] + ([Write(true)] + ([Count] + ([Apply] + []))), s);
  }
}
