/** The spine between an application and the modem: both threads' calls, on the real fields. */
module Spines {
  import opened Bytes
  import opened HostLines
  import opened TxCredits
  import Events
  import EventQueues
  import RecordRings

  datatype RunState = RunOk | Faulted | Closing

  datatype Reason = TxOk | TxFull | TncOwns | Congested | NoRoom | TxFaulted | NoDevice | Closed

  /** The link as the spine sees it: a bounded queue of payload, and a record of what it was told. */
  class Link {
    const cap: nat
    const facts: Facts
    var queue: seq<byte>
    var inputs: seq<Input>

    ghost predicate Valid()
      reads this
    {
      |queue| <= cap
    }

    constructor (cap: nat, facts: Facts)
      ensures Valid() && this.cap == cap && this.facts == facts && queue == [] && inputs == []
    {
      this.cap, this.facts, queue, inputs := cap, facts, [], [];
    }

    /** Payload joins the queue as far as there is room; anything else may drain it. */
    method Host(input: Input) returns (ghost from: nat, ghost to: nat)
      requires Valid()
      modifies this
      ensures Valid() && inputs == old(inputs) + [input]
      ensures from <= to <= |old(queue)|
      ensures input.SendData? ==> queue == old(queue) + input.bytes[..Taken(cap, old(queue), |input.bytes|)]
      ensures !input.SendData? ==> queue == old(queue)[..from] + old(queue)[to..]
    {
      inputs := inputs + [input];
      from, to := 0, 0;
      if input.SendData? {
        queue := queue + input.bytes[..Taken(cap, queue, |input.bytes|)];
      } else {
        var a, b :| 0 <= a <= b <= |queue|;
        from, to := a, b;
        queue := queue[..a] + queue[b..];
      }
    }

    /** A command line: the parser's effect, and a reply or none. */
    method Line(line: string) returns (reply: seq<byte>, ghost from: nat, ghost to: nat)
      requires Valid()
      modifies this
      ensures Valid() && inputs == old(inputs) + Injected(LineEffect(line, facts))
      ensures Drained(old(queue), queue, from, to, LineEffect(line, facts))
    {
      var e := LineEffect(line, facts);
      from, to := 0, 0;
      match e {
        case Nothing =>
        case Inject(input) => from, to := Host(input);
        case Purge =>
          to := |queue|;
          queue := [];
      }
      reply := *;
    }
  }

  function Reply(text: seq<byte>): Events.Event {
    Events.Event(1, 0, false, [], text, [])
  }

  const REFUSAL := Reply(Events.Ascii("FAULT TNC client owns the link"))

  const CONFIG_MAX := 64

  /** The variable part of a downward record. */
  function TailLength(c: Command): nat {
    match c
    case Payload(bytes) => |bytes|
    case HostCmd(_) => 0
    case HostLine(line) => |line|
    case Config(setting) =>
      if setting.MyCall? || setting.GridSquare? || setting.ArqBw? || setting.ProtocolMode? || setting.FecMode?
      then |setting.str| else 0
  }

  class Spine {
    const link: Link
    const events: EventQueues.EventQueue
    const cmdBytes: nat  // size of the command ring
    const cmdHead: nat   // size of a command record's fixed part

    var cmdq: seq<Command>
    var txOffered: nat
    var txApplied: nat
    var txLimit: nat
    var txReason: Reason
    var run: RunState
    var owned: bool
    var congested: bool
    var bound: bool  // an audio backend is bound

    ghost var accepted: seq<byte>
    ghost var entered: seq<byte>
    ghost var lost: nat
    ghost var missed: nat
    ghost var guest: nat

    ghost predicate Ready()
      reads this, link
    {
      && link.Valid()
      && (forall c :: c in cmdq ==> Submittable(c)) && Waiting(cmdq) <= cmdBytes
    }

    ghost predicate Valid()
      reads this, link, events, events.ring, events.ring.buf
    {
      Ready() && events.Valid()
    }

    /** The spine as a state of the two-thread machine, the submitter being between calls. */
    ghost function View(): State
      reads this, link
    {
      State(txLimit, cmdq, txOffered, Idle, accepted, run != RunOk, owned, txApplied, link.queue, link.cap,
            entered, lost, missed, guest)
    }

    /** Bytes of the command ring in use. */
    function Waiting(q: seq<Command>): nat {
      if q == [] then 0 else RecordRings.OVERHEAD + cmdHead + TailLength(q[0]) + Waiting(q[1..])
    }

    lemma {:induction false} WaitingAppends(q: seq<Command>, c: Command)
      ensures Waiting(q + [c]) == Waiting(q) + RecordRings.OVERHEAD + cmdHead + TailLength(c)
    {
      if q == [] {
        assert (q + [c])[1..] == [];
      } else {
        WaitingAppends(q[1..], c);
        assert (q + [c])[1..] == q[1..] + [c];
      }
    }

    /** A new spine: an empty link, no backend, and the link's whole room as credit once one is bound. */
    constructor (link: Link, events: EventQueues.EventQueue, cmdBytes: nat, cmdHead: nat)
      requires link.Valid() && link.queue == [] && events.Valid()
      ensures Valid() && View() == Next(Opened(link.cap), Publish(true)) && txReason == NoDevice
      ensures this.link == link && this.events == events && !owned && run == RunOk
    {
      this.link, this.events, this.cmdBytes, this.cmdHead := link, events, cmdBytes, cmdHead;
      cmdq, txOffered, txApplied, txLimit, txReason := [], 0, 0, 0, NoDevice;
      run, owned, congested, bound := RunOk, false, false, false;
      accepted, entered, lost, missed, guest := [], [], 0, 0, 0;
    }

    // --- submitting thread ---

    /** Queue one record, if the ring has room for all of it. */
    method Submit(c: Command) returns (ok: bool)
      requires Ready() && Submittable(c)
      modifies `cmdq
      ensures Ready() && ok == RecordRings.Fits(cmdBytes, Waiting(old(cmdq)), cmdHead + TailLength(c), 0)
      ensures cmdq == old(cmdq) + if ok then [c] else []
    {
      ok := RecordRings.Fits(cmdBytes, Waiting(cmdq), cmdHead + TailLength(c), 0);
      if ok {
        WaitingAppends(cmdq, c);
        cmdq := cmdq + [c];
      }
    }

    /** The reason to give a submitter that has run out: its own bytes in flight are what filled the queue. */
    function Told(r: Reason): Reason {
      if r == TxOk then TxFull else r
    }

    /** Offer bytes for transmission; the caller keeps what is not taken. */
    method TxSubmit(data: seq<byte>) returns (take: nat, why: Reason, ghost room: bool)
      requires Ready()
      modifies `cmdq, `txOffered, `accepted
      ensures Ready() && View() == Submitted(old(View()), data, room)
      ensures take == txOffered - old(txOffered)
      ensures take <= Min(|data|, 4096) && (take > 0 ==> txOffered <= txLimit)
      ensures room ==> take == |data| || take == 4096 || txOffered == txLimit || (take == 0 && txLimit <= txOffered)
      ensures room == RecordRings.Fits(cmdBytes, Waiting(old(cmdq)), cmdHead + Min(Credit(txLimit, old(txOffered)), |data|), 0)
              || Min(Credit(txLimit, old(txOffered)), |data|) == 0
      ensures why == if take == |data| && take > 0 then TxOk
                     else if Credit(txLimit, old(txOffered)) > 0 && data != [] && !room then NoRoom
                     else if txReason == TxOk then TxFull else txReason
    {
      take, room := Min(Credit(txLimit, txOffered), |data|), true;
      if take == 0 {
        why := Told(txReason);
        return;
      }
      var ok := Submit(Payload(data[..take]));
      room := ok;
      if !ok {
        take, why := 0, NoRoom;
        return;
      }
      txOffered := txOffered + take;
      accepted := accepted + data[..take];
      why := if take == |data| then TxOk else Told(txReason);
    }

    /** A typed command; payload is not accepted this way, since it would bypass the credit. */
    method SubmitCmd(input: Input) returns (ok: bool)
      requires Ready()
      modifies `cmdq
      ensures Ready() && ok == (!input.SendData? && RecordRings.Fits(cmdBytes, Waiting(old(cmdq)), cmdHead, 0))
      ensures cmdq == old(cmdq) + if ok then [HostCmd(input)] else []
    {
      if input.SendData? {
        return false;
      }
      ok := Submit(HostCmd(input));
    }

    method SubmitLine(line: string) returns (ok: bool)
      requires Ready()
      modifies `cmdq
      ensures Ready()
      ensures var n := |Before(line, '\0')|;
        ok == (n < LINE_MAX && RecordRings.Fits(cmdBytes, Waiting(old(cmdq)), cmdHead + n, 0))
      ensures cmdq == old(cmdq) + if ok then [HostLine(Before(line, '\0'))] else []
    {
      var text := Before(line, '\0');
      if |text| >= LINE_MAX {
        return false;
      }
      ok := Submit(HostLine(text));
    }

    method SubmitConfig(setting: Setting) returns (ok: bool)
      requires Ready()
      modifies `cmdq
      ensures Ready()
      ensures var n := TailLength(Config(setting));
        ok == (n < CONFIG_MAX && RecordRings.Fits(cmdBytes, Waiting(old(cmdq)), cmdHead + n, 0))
      ensures cmdq == old(cmdq) + if ok then [Config(setting)] else []
    {
      if TailLength(Config(setting)) >= CONFIG_MAX {
        return false;
      }
      ok := Submit(Config(setting));
    }

    // --- modem thread ---

    /** Payload: refused while a guest owns the link or transmission is not permitted. */
    method ApplyPayload(bytes: seq<byte>) returns (took: Option<nat>)
      requires Ready() && cmdq != [] && cmdq[0] == Payload(bytes)
      modifies this, link
      ensures Ready() && owned == old(owned) && run == old(run) && cmdq == old(cmdq)[1..]
      ensures link.inputs == old(link.inputs) + Injected(ApplyEffect(Payload(bytes), owned, run == RunOk, link.facts))
      ensures View() == Next(old(View()), Apply)
      ensures took == if owned || run != RunOk then None else Some(Taken(link.cap, old(link.queue), |bytes|))
    {
      assert forall c :: c in cmdq[1..] ==> c in cmdq;
      cmdq := cmdq[1..];
      if owned || run != RunOk {
        lost := lost + |bytes|;
        return None;
      }
      var before := |link.queue|;
      ghost var from, to := link.Host(SendData(bytes));
      took := Some(|link.queue| - before);
      entered := entered + bytes[..took.value];
      missed := missed + |bytes| - took.value;
      txApplied := txApplied + |bytes|;
    }

    /** Anything else that does not depend on who owns the link: run one line. */
    method RunLine(line: string) returns (reply: seq<byte>, ghost from: nat, ghost to: nat)
      requires link.Valid()
      modifies link
      ensures link.Valid() && link.inputs == old(link.inputs) + Injected(LineEffect(line, link.facts))
      ensures Drained(old(link.queue), link.queue, from, to, LineEffect(line, link.facts))
    {
      reply, from, to := link.Line(line);
    }

    /** What a record makes the spine do to the link, as things stand. */
    function Effect(c: Command): HostLines.Effect
      reads this
    {
      ApplyEffect(c, owned, run == RunOk, link.facts)
    }

    /** A record that is not payload. `said` is the text of the reply to queue, if any. */
    method ApplyOther(c: Command) returns (said: seq<byte>, ghost from: nat, ghost to: nat)
      requires Ready() && Submittable(c) && !c.Payload?
      modifies link
      ensures Ready() && link.inputs == old(link.inputs) + Injected(Effect(c))
      ensures Refuses(c) ==> said == REFUSAL.text
      ensures !Refuses(c) && (c.HostCmd? || run != RunOk) ==> said == []
      ensures Drained(old(link.queue), link.queue, from, to, Effect(c))
    {
      said, from, to := [], 0, 0;
      NothingDrained(link.queue);
      match c {
        case HostCmd(input) =>
          if owned && InputIsSession(input) {
            said := REFUSAL.text;
          } else if run == RunOk {
            from, to := link.Host(input);
          }
        case HostLine(tail) =>
          var line := Before(tail[..Min(|tail|, LINE_MAX - 1)], '\0');
          var session := TestLine(Upper(line));
          if owned && session {
            said := REFUSAL.text;
          } else if run == RunOk {
            said, from, to := RunLine(line);
          }
        case Config(setting) =>
          if run == RunOk {
            said, from, to := RunLine(SettingLine(setting));
          }
      }
    }

    /** Session commands while a guest owns the link. */
    predicate Refuses(c: Command)
      reads this
    {
      owned && ((c.HostCmd? && InputIsSession(c.input))
                || (c.HostLine? && LineIsSession(Upper(Before(c.line[..Min(|c.line|, LINE_MAX - 1)], '\0')))))
    }

    /** How much of the payload record next to be applied there is no room for. */
    ghost function Missing(s: State): nat
      requires Enabled(s, Apply)
    {
      Next(s, Apply).missed - s.missed
    }

    /** The event an applied record gives rise to, `short` bytes of it having found no room. */
    predicate Answers(c: Command, short: nat, said: Option<Events.Event>)
      reads this
    {
      if Refuses(c) then said == Some(REFUSAL)
      else if c.Payload? then said == if 0 < short <= |c.bytes| then Some(Shortfall(|c.bytes| - short, |c.bytes|)) else None
      else said.Some? ==> !c.HostCmd? && run == RunOk && said == Some(Reply(said.value.text)) && said.value.text != []
    }

    method PayloadNext() returns (said: Option<Events.Event>)
      requires Ready() && cmdq != [] && cmdq[0].Payload?
      modifies this, link
      ensures Ready() && owned == old(owned) && run == old(run) && cmdq == old(cmdq)[1..]
      ensures link.inputs == old(link.inputs) + Injected(Effect(old(cmdq)[0]))
      ensures Effect(old(cmdq)[0]).Purge? ==> link.queue == []
      ensures Effect(old(cmdq)[0]).Nothing? ==> link.queue == old(link.queue)
      ensures View() == Next(old(View()), Apply)
      ensures Answers(old(cmdq)[0], Missing(old(View())), said)
    {
      var n := |cmdq[0].bytes|;
      var took := ApplyPayload(cmdq[0].bytes);
      said := if took.Some? && took.value != n then Some(Shortfall(took.value, n)) else None;
    }

    method OtherNext() returns (said: Option<Events.Event>, ghost from: nat, ghost to: nat)
      requires Ready() && cmdq != [] && !cmdq[0].Payload?
      modifies `cmdq, link
      ensures Ready() && cmdq == old(cmdq)[1..]
      ensures link.inputs == old(link.inputs) + Injected(Effect(old(cmdq)[0]))
      ensures Drained(old(link.queue), link.queue, from, to, Effect(old(cmdq)[0]))
      ensures Answers(old(cmdq)[0], 0, said)
    {
      var c := cmdq[0];
      assert c in cmdq && forall d :: d in cmdq[1..] ==> d in cmdq;
      cmdq := cmdq[1..];
      var text;
      text, from, to := ApplyOther(c);
      said := if text != [] then Some(Reply(text)) else None;
    }

    /** Take one record out of the command ring and act on it; `said` is the event to queue, if any. */
    method ApplyNext() returns (said: Option<Events.Event>, ghost from: nat, ghost to: nat)
      requires Ready() && cmdq != []
      modifies this, link
      ensures Ready() && owned == old(owned) && run == old(run) && cmdq == old(cmdq)[1..]
      ensures link.inputs == old(link.inputs) + Injected(Effect(old(cmdq)[0]))
      ensures Effect(old(cmdq)[0]).Purge? ==> link.queue == []
      ensures Effect(old(cmdq)[0]).Nothing? ==> link.queue == old(link.queue)
      ensures Enabled(Next(old(View()), Apply), Drain(from, to))
      ensures View() == Next(Next(old(View()), Apply), Drain(from, to))
      ensures Answers(old(cmdq)[0], Missing(old(View())), said)
    {
      if cmdq[0].Payload? {
        DrainNothing(Next(View(), Apply));
        from, to := 0, 0;
        said := PayloadNext();
      } else {
        said, from, to := OtherNext();
      }
    }

    /**
     * The guest has been polled. One that leaves mid-call, before anyone answered, has the call aborted.
     * `said` is the event to queue.
     */
    method SeeGuest(now: bool, calling: bool) returns (said: Option<Events.Event>, ghost from: nat, ghost to: nat)
      requires Ready()
      modifies `owned, link
      ensures Ready() && from <= to <= |old(link.queue)| && owned == now
      ensures View() == Next(Next(old(View()), SetOwner(now)), Drain(from, to))
      ensures link.inputs == old(link.inputs) + if old(owned) && !now && calling then [Abort] else []
      ensures said == if now == old(owned) then None else Some(OwnerEvent(now))
    {
      DrainNothing(Next(View(), SetOwner(now)));
      said, from, to := None, 0, 0;
      if now != owned {
        owned := now;
        if !now && calling {
          from, to := link.Host(Abort);
        }
        said := Some(OwnerEvent(now));
      }
    }

    /** Publish the credit the submitter compares against. */
    method PublishCredit()
      requires Ready()
      modifies `txLimit, `txReason
      ensures Ready() && View() == Next(old(View()), Publish(!bound || congested))
      ensures (txReason == Closed <==> run == Closing) && (txReason == TxFaulted <==> run == Faulted)
      ensures txReason == TncOwns <==> run == RunOk && owned
      ensures txReason == Congested <==> run == RunOk && !owned && congested
      ensures txReason == NoDevice <==> run == RunOk && !owned && !congested && !bound
      ensures txReason == TxOk <==> run == RunOk && !owned && !congested && bound && |link.queue| < link.cap
      ensures txLimit == txApplied + if txReason == TxOk then link.cap - |link.queue| else 0
    {
      var room := link.cap - |link.queue|;
      var lim, why := txApplied + room, if room > 0 then TxOk else TxFull;
      if !bound {
        lim, why := txApplied, NoDevice;
      }
      if congested {
        lim, why := txApplied, Congested;
      }
      if owned {
        lim, why := txApplied, TncOwns;
      }
      if run == Faulted {
        lim, why := txApplied, TxFaulted;
      }
      if run == Closing {
        lim, why := txApplied, Closed;
      }
      txReason, txLimit := why, lim;
    }

    /** Half full cuts the credit, under a quarter restores it. */
    method Weigh()
      requires Valid()
      modifies `congested
      ensures Valid() && View() == old(View())
      ensures var used := Events.Used(events.ledger.waiting);
        congested == if used > events.ring.buf.Length / 2 then true
                     else if used < events.ring.buf.Length / 4 then false else old(congested)
    {
      EventQueues.UsedIsStream(events.ledger.waiting);
      var used := events.ring.Used();
      if used > events.ring.buf.Length / 2 {
        congested := true;
      } else if used < events.ring.buf.Length / 4 {
        congested := false;
      }
    }

    /** Everything queued, one record after another: a run of the two-thread machine with the submitter idle. */
    method DrainCommands() returns (ghost path: seq<Step>)
      requires Valid()
      modifies this, link, events, events.ring, events.ring.buf
      ensures Valid() && cmdq == [] && owned == old(owned) && Run(old(View()), path, View())
    {
      path := [];
      while cmdq != []
        invariant Valid() && owned == old(owned) && Run(old(View()), path, View())
        decreases |cmdq|
      {
        path := DrainStep(old(View()), path);
      }
    }

    method DrainStep(ghost s: State, ghost path0: seq<Step>) returns (ghost path: seq<Step>)
      requires Valid() && cmdq != [] && Run(s, path0, View())
      modifies this, link, events, events.ring, events.ring.buf
      ensures Valid() && owned == old(owned) && cmdq == old(cmdq)[1..] && Run(s, path, View())
    {
      var said;
      said, path := DrainOne(s, path0);
      if said.Some? {
        events.Emit(said.value);
      }
    }

    method DrainOne(ghost s: State, ghost path0: seq<Step>) returns (said: Option<Events.Event>, ghost path: seq<Step>)
      requires Ready() && cmdq != [] && Run(s, path0, View())
      modifies this, link
      ensures Ready() && owned == old(owned) && cmdq == old(cmdq)[1..] && Run(s, path, View())
    {
      ghost var before := View();
      ghost var from, to;
      said, from, to := ApplyNext();
      ApplyRun(s, path0, before, from, to);
      path := path0 + [Apply, Drain(from, to)];
    }

    /** Permit transmission again. */
    method Permit()
      requires Ready() && run == Faulted
      modifies `run, `txLimit, `txReason
      ensures Ready() && run == RunOk
      ensures View() == Next(Next(old(View()), SetFault(false)), Publish(!bound || congested))
    {
      run := RunOk;
      PublishCredit();
    }

    method ClearFault() returns (was: RunState)
      requires Valid()
      modifies this, events
      ensures Ready() && was == old(run) && run == if was == Faulted then RunOk else was
      ensures was == Faulted ==>
        View() == Next(Next(old(View()), SetFault(false)), Publish(!bound || congested))
        && events.ledger == Events.Next(old(events.ledger), Events.Rearming)
      ensures was != Faulted ==> View() == old(View()) && events.ledger == old(events.ledger)
    {
      was := run;
      if run == Faulted {
        events.Rearm();
        Permit();
      }
    }
  }

  /** An effect other than payload leaves of the queue all but one stretch: all of it, or nothing, when that much is known. */
  predicate Drained(was: seq<byte>, queue: seq<byte>, from: nat, to: nat, e: Effect) {
    && from <= to <= |was| && queue == was[..from] + was[to..]
    && (e.Nothing? ==> queue == was) && (e.Purge? ==> queue == [])
  }

  lemma NothingDrained(queue: seq<byte>)
    ensures Drained(queue, queue, 0, 0, Nothing)
  {
  }

  /** What an effect adds to the inputs the link has been given. */
  function Injected(e: Effect): seq<Input> {
    if e.Inject? then [e.input] else []
  }

  function OwnerEvent(now: bool): Events.Event {
    Events.Event(3, 0, now, [], Events.Ascii(if now then "TNC client attached; it owns the link" else "TNC client left"), [])
  }

  function Shortfall(took: nat, n: nat): Events.Event {
    var text := "FAULT transmit queue took " + Number(took) + " of " + Number(n) + " bytes";
    Events.Event(Events.EV_FAULT, 5, false, [], Events.Ascii(text), [])
  }

  lemma DrainNothing(s: State)
    ensures Next(s, Drain(0, 0)) == s
  {
    assert s.queue[..0] + s.queue[0..] == s.queue;
  }

  lemma ApplyRun(s: State, path: seq<Step>, t: State, from: nat, to: nat)
    requires Run(s, path, t) && TxCredits.Enabled(t, Apply) && TxCredits.Enabled(Next(t, Apply), Drain(from, to))
    ensures Run(s, path + [Apply, Drain(from, to)], Next(Next(t, Apply), Drain(from, to)))
  {
    var more := [Apply, Drain(from, to)];
    assert more[1..] == [Drain(from, to)] && more[1..][1..] == [];
    RunOn(s, path, t, more, Next(Next(t, Apply), Drain(from, to)));
  }
}
