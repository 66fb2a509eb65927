/**
 * The half-duplex driver: the runtime keys and unkeys the transmitter around whatever an
 * arbitrary link and modulator make it send, and one loop moves samples in one direction at
 * a time and counts them.
 */
module HalfDuplex {
  import opened Bytes

  const MAX_ACTIONS := 8
  const MAX_EVENTS := 8
  const LOOP_BLOCK := 1200

  /** A link step's action: a frame, with how the modulator takes it, or something else. */
  datatype Action = SendFrame(accepted: bool, samples: nat) | OtherAction

  /** What a link step is taken for: a host command, a frame heard, the passing of time, or the end of a frame sent. */
  datatype Cause = ForCommand | ForFrame | ForTimer | ForEnd

  /**
   * What can be seen from outside the runtime: keying, the host asked for a command, samples captured,
   * frames found in them, a step of the link and its answer, and samples pulled and played.
   */
  datatype Obs =
    | Ptt(key: bool)
    | Polled(more: bool)
    | Read(n: nat)
    | Found(frames: nat)
    | Stepped(why: Cause, acts: seq<Action>)
    | Pull(n: nat)
    | Write(n: nat)

  // --- traces ---

  /** The state of the keying line at the end of a trace; it starts unkeyed. */
  function Keyed(trace: seq<Obs>): bool {
    if trace == [] then false
    else var last := trace[|trace| - 1]; if last.Ptt? then last.key else Keyed(trace[..|trace| - 1])
  }

  /** Key and unkey strictly take turns. */
  predicate Alternates(trace: seq<Obs>) {
    trace != [] ==>
      var last, before := trace[|trace| - 1], trace[..|trace| - 1];
      Alternates(before) && (last.Ptt? ==> last.key != Keyed(before))
  }

  /** Samples are pulled and played only while keyed. */
  predicate PlaysKeyed(trace: seq<Obs>) {
    trace != [] ==>
      var last, before := trace[|trace| - 1], trace[..|trace| - 1];
      PlaysKeyed(before) && (last.Pull? || last.Write? ==> Keyed(before))
  }

  /** Samples are captured only while unkeyed. */
  predicate HearsUnkeyed(trace: seq<Obs>) {
    trace != [] ==>
      var last, before := trace[|trace| - 1], trace[..|trace| - 1];
      HearsUnkeyed(before) && (last.Read? ==> !Keyed(before))
  }

  /** Samples captured and samples pulled. */
  function Moved(trace: seq<Obs>): nat {
    if trace == [] then 0
    else
      var last := trace[|trace| - 1];
      Moved(trace[..|trace| - 1]) + if last.Read? || last.Pull? then last.n else 0
  }

  function Edges(trace: seq<Obs>, key: bool): nat {
    if trace == [] then 0
    else Edges(trace[..|trace| - 1], key) + if trace[|trace| - 1] == Ptt(key) then 1 else 0
  }

  lemma OneMore(trace: seq<Obs>, o: Obs)
    ensures Keyed(trace + [o]) == if o.Ptt? then o.key else Keyed(trace)
    ensures Alternates(trace + [o]) <==> Alternates(trace) && (o.Ptt? ==> o.key != Keyed(trace))
    ensures PlaysKeyed(trace + [o]) <==> PlaysKeyed(trace) && (o.Pull? || o.Write? ==> Keyed(trace))
    ensures HearsUnkeyed(trace + [o]) <==> HearsUnkeyed(trace) && (o.Read? ==> !Keyed(trace))
    ensures Moved(trace + [o]) == Moved(trace) + if o.Read? || o.Pull? then o.n else 0
  {
    assert (trace + [o])[..|trace|] == trace;
  }

  /** Turn and turn about: there is one unkeying for every keying but the one still in force. */
  lemma {:induction false} EdgesBalance(trace: seq<Obs>)
    requires Alternates(trace)
    ensures Edges(trace, true) == Edges(trace, false) + if Keyed(trace) then 1 else 0
  {
    if trace != [] {
      EdgesBalance(trace[..|trace| - 1]);
    }
  }

  // --- the driver, on values ---

  function Frames(acts: seq<Action>): nat {
    if acts == [] then 0 else (if acts[0].SendFrame? then 1 else 0) + Frames(acts[1..])
  }

  /** A link emits at most one frame a step, and an accepted frame has samples to send. */
  predicate Plausible(acts: seq<Action>) {
    && |acts| <= MAX_ACTIONS && Frames(acts) <= 1
    && forall a :: a in acts && a.SendFrame? && a.accepted ==> a.samples > 0
  }

  /** What the runtime keeps, the samples of the frame still to be pulled, and what the backend has seen. */
  datatype Modem = Modem(active: bool, keyed: bool, left: nat, trace: seq<Obs>)

  const QUIET := Modem(false, false, 0, [])

  /** Begin modulating a frame, keying if need be; one the modulator refuses is dropped. */
  function Send(m: Modem, accepted: bool, samples: nat): Modem {
    if !accepted then m.(left := samples)
    else Modem(true, true, samples, m.trace + if m.keyed then [] else [Ptt(true)])
  }

  /** Everything one link step asks for. */
  function Perform(m: Modem, acts: seq<Action>): Modem
    decreases |acts|
  {
    if acts == [] then m
    else Perform(if acts[0].SendFrame? then Send(m, acts[0].accepted, acts[0].samples) else m, acts[1..])
  }

  function Note(m: Modem, o: Obs): Modem {
    m.(trace := m.trace + [o])
  }

  /** A link step, and everything it asks for. */
  function StepFor(m: Modem, why: Cause, acts: seq<Action>): Modem {
    Perform(Note(m, Stepped(why, acts)), acts)
  }

  /** A link step for each of a number of received frames. */
  function Receive(m: Modem, frames: seq<seq<Action>>): Modem
    decreases |frames|
  {
    if frames == [] then m else Receive(StepFor(m, ForFrame, frames[0]), frames[1..])
  }

  /** A link step for each of a number of host commands, as it is polled. */
  function Poll(m: Modem, hosts: seq<seq<Action>>): Modem
    decreases |hosts|
  {
    if hosts == [] then m else Poll(StepFor(Note(m, Polled(true)), ForCommand, hosts[0]), hosts[1..])
  }

  /** All the commands there are, if the backend supplies any. */
  function PollAll(m: Modem, hosts: seq<seq<Action>>, hasHost: bool): Modem {
    if hasHost then Note(Poll(m, hosts), Polled(false)) else m
  }

  function Take(m: Modem, max: nat): (Modem, nat) {
    var n := Min(m.left, max);
    (m.(left := m.left - n, trace := m.trace + [Pull(n)]), n)
  }

  /**
   * Pull samples to play. An exhausted frame is reported to the link, which answers `next`; if
   * that starts another one it follows without unkeying, and otherwise the transmitter is unkeyed.
   */
  function PullFrom(m: Modem, max: nat, next: seq<Action>): (Modem, nat) {
    if !m.active then (m, 0)
    else if Min(m.left, max) > 0 then Take(m, max)
    else
      var m' := StepFor(m.(active := false), ForEnd, next);
      if m'.active then Take(m', max) else (m'.(keyed := false, trace := m'.trace + [Ptt(false)]), 0)
  }

  /**
   * What an iteration meets: the link's answers to the host commands polled, the samples captured,
   * its answers to the frames found in them and to the passing of time, or, when transmitting, its
   * answer to a frame's end.
   */
  datatype Turn = Turn(hosts: seq<seq<Action>>, captured: nat, frames: seq<seq<Action>>, tick: seq<Action>, next: seq<Action>)

  /** A backend: whether it supplies host commands, whether it plays audio, and its block. */
  datatype Backend = Backend(hasHost: bool, plays: bool, block: nat)

  /** What the backend and the link can come up with. */
  predicate Possible(x: Turn, b: Backend) {
    && (forall h :: h in x.hosts ==> Plausible(h)) && (!b.hasHost ==> x.hosts == [])
    && x.captured <= b.block && Plausible(x.tick) && Plausible(x.next)
    && |x.frames| <= MAX_EVENTS && forall f :: f in x.frames ==> Plausible(f)
  }

  function Played(m: Modem, n: nat, plays: bool): Modem {
    if n > 0 && plays then Note(m, Write(n)) else m
  }

  /** Captured samples: each frame the demodulator finds in them is put to the link. */
  function Demodulated(m: Modem, frames: seq<seq<Action>>): Modem {
    Receive(Note(m, Found(|frames|)), frames)
  }

  /** The receiving half of an iteration: poll, capture, demodulate, and serve the link's timers. */
  function Listen(m: Modem, x: Turn, hasHost: bool): Modem {
    var heard := Note(PollAll(m, x.hosts, hasHost), Read(x.captured));
    StepFor(if x.captured > 0 then Demodulated(heard, x.frames) else heard, ForTimer, x.tick)
  }

  /** One iteration: transmitting takes priority, and while it lasts nothing is captured. */
  function Go(m: Modem, x: Turn, b: Backend): Modem {
    if m.active then var p := PullFrom(m, b.block, x.next); Played(p.0, p.1, b.plays) else Listen(m, x, b.hasHost)
  }

  function GoOn(m: Modem, xs: seq<Turn>, b: Backend): Modem {
    if xs == [] then m else Go(GoOn(m, xs[..|xs| - 1], b), xs[|xs| - 1], b)
  }

  // --- what every step keeps ---

  /** What holds even in the middle of a call. */
  predicate Steady(m: Modem) {
    (m.active ==> m.keyed) && m.keyed == Keyed(m.trace) && Alternates(m.trace) && PlaysKeyed(m.trace)
  }

  /** Between calls: keyed exactly while transmitting. */
  predicate Sound(m: Modem) {
    Steady(m) && m.keyed == m.active
  }

  /** The same as far as listening and the clock go. */
  predicate Silent(m: Modem, m': Modem) {
    HearsUnkeyed(m'.trace) == HearsUnkeyed(m.trace) && Moved(m'.trace) == Moved(m.trace)
  }

  /** A frame the modulator takes is among them. */
  predicate Sends(acts: seq<Action>) {
    exists i :: 0 <= i < |acts| && acts[i].SendFrame? && acts[i].accepted
  }

  /** One of a number of link steps sends a frame the modulator takes. */
  predicate OneSends(steps: seq<seq<Action>>) {
    exists i :: 0 <= i < |steps| && Sends(steps[i])
  }

  lemma SendsSplit(acts: seq<Action>)
    requires acts != []
    ensures Sends(acts) <==> (acts[0].SendFrame? && acts[0].accepted) || Sends(acts[1..])
  {
    if Sends(acts[1..]) {
      var i :| 0 <= i < |acts[1..]| && acts[1..][i].SendFrame? && acts[1..][i].accepted;
      assert acts[i + 1] == acts[1..][i];
    }
    if Sends(acts) {
      var i :| 0 <= i < |acts| && acts[i].SendFrame? && acts[i].accepted;
      assert i > 0 ==> acts[1..][i - 1] == acts[i];
    }
  }

  lemma OneSendsSplit(steps: seq<seq<Action>>)
    requires steps != []
    ensures OneSends(steps) <==> Sends(steps[0]) || OneSends(steps[1..])
  {
    if OneSends(steps[1..]) {
      var i :| 0 <= i < |steps[1..]| && Sends(steps[1..][i]);
      assert steps[i + 1] == steps[1..][i];
    }
    if OneSends(steps) {
      var i :| 0 <= i < |steps| && Sends(steps[i]);
      assert i > 0 ==> steps[1..][i - 1] == steps[i];
    }
  }

  lemma SendKeeps(m: Modem, accepted: bool, samples: nat)
    requires Steady(m)
    ensures var m' := Send(m, accepted, samples);
      Steady(m') && Silent(m, m') && m'.active == (m.active || accepted) && m'.keyed == (m.keyed || accepted)
  {
    OneMore(m.trace, Ptt(true));
    assert m.trace + [] == m.trace;
  }

  /** A link step keys, and starts transmitting, exactly if it sends a frame the modulator takes. */
  lemma {:induction false} PerformKeeps(m: Modem, acts: seq<Action>)
    requires Steady(m)
    ensures var m' := Perform(m, acts);
      Steady(m') && Silent(m, m') && m'.active == (m.active || Sends(acts)) && m'.keyed == (m.keyed || Sends(acts))
    decreases |acts|
  {
    if acts != [] {
      SendsSplit(acts);
      if acts[0].SendFrame? {
        SendKeeps(m, acts[0].accepted, acts[0].samples);
        PerformKeeps(Send(m, acts[0].accepted, acts[0].samples), acts[1..]);
      } else {
        PerformKeeps(m, acts[1..]);
      }
    }
  }

  lemma NoteKeeps(m: Modem, o: Obs)
    requires Steady(m) && (o.Polled? || o.Found? || o.Stepped?)
    ensures Steady(Note(m, o)) && Silent(m, Note(m, o))
  {
    OneMore(m.trace, o);
  }

  lemma StepKeeps(m: Modem, why: Cause, acts: seq<Action>)
    requires Steady(m)
    ensures var m' := StepFor(m, why, acts);
      Steady(m') && Silent(m, m') && m'.active == (m.active || Sends(acts)) && m'.keyed == (m.keyed || Sends(acts))
  {
    NoteKeeps(m, Stepped(why, acts));
    PerformKeeps(Note(m, Stepped(why, acts)), acts);
  }

  lemma {:induction false} NoFrameKeepsAll(m: Modem, acts: seq<Action>)
    requires Frames(acts) == 0
    ensures Perform(m, acts) == m && !Sends(acts)
    decreases |acts|
  {
    if acts != [] {
      SendsSplit(acts);
      NoFrameKeepsAll(m, acts[1..]);
    }
  }

  /** Samples of the frame the modulator takes, if there is one. */
  function Samples(acts: seq<Action>): nat {
    if acts == [] then 0 else if acts[0].SendFrame? && acts[0].accepted then acts[0].samples else Samples(acts[1..])
  }

  /** A frame the modulator takes is there to be pulled, all of it; and no keying is needed when keyed. */
  lemma {:induction false} FrameIsThere(m: Modem, acts: seq<Action>)
    requires Plausible(acts) && Sends(acts)
    ensures var m' := Perform(m, acts);
      m'.active && m'.keyed && m'.left == Samples(acts) > 0 && m'.trace == m.trace + if m.keyed then [] else [Ptt(true)]
    decreases |acts|
  {
    NextAction(acts, 0);
    SendsSplit(acts);
    assert acts[0..] == acts;
    if acts[0].SendFrame? {
      NoFrameKeepsAll(Send(m, acts[0].accepted, acts[0].samples), acts[1..]);
    } else {
      FrameIsThere(m, acts[1..]);
    }
  }

  /** Without one, nothing is keyed and nothing seen. */
  lemma {:induction false} NothingSeen(m: Modem, acts: seq<Action>)
    requires !Sends(acts)
    ensures var m' := Perform(m, acts); m'.active == m.active && m'.keyed == m.keyed && m'.trace == m.trace
    decreases |acts|
  {
    if acts != [] {
      SendsSplit(acts);
      NothingSeen(if acts[0].SendFrame? then Send(m, acts[0].accepted, acts[0].samples) else m, acts[1..]);
    }
  }

  lemma {:induction false} ReceiveKeeps(m: Modem, frames: seq<seq<Action>>)
    requires Sound(m)
    ensures var m' := Receive(m, frames);
      Sound(m') && Silent(m, m') && m'.active == (m.active || OneSends(frames))
    decreases |frames|
  {
    if frames != [] {
      StepKeeps(m, ForFrame, frames[0]);
      ReceiveKeeps(StepFor(m, ForFrame, frames[0]), frames[1..]);
      OneSendsSplit(frames);
    }
  }

  lemma {:induction false} PollKeeps(m: Modem, hosts: seq<seq<Action>>)
    requires Sound(m)
    ensures var m' := Poll(m, hosts);
      Sound(m') && Silent(m, m') && m'.active == (m.active || OneSends(hosts))
    decreases |hosts|
  {
    if hosts != [] {
      var noted := Note(m, Polled(true));
      NoteKeeps(m, Polled(true));
      StepKeeps(noted, ForCommand, hosts[0]);
      PollKeeps(StepFor(noted, ForCommand, hosts[0]), hosts[1..]);
      OneSendsSplit(hosts);
    }
  }

  lemma PollAllKeeps(m: Modem, hosts: seq<seq<Action>>, hasHost: bool)
    requires Sound(m) && (!hasHost ==> hosts == [])
    ensures var m' := PollAll(m, hosts, hasHost);
      Sound(m') && Silent(m, m') && m'.active == (m.active || OneSends(hosts))
  {
    PollKeeps(m, hosts);
    NoteKeeps(Poll(m, hosts), Polled(false));
  }

  lemma TakeKeeps(m: Modem, max: nat)
    requires Sound(m) && m.active
    ensures var p := Take(m, max);
      Sound(p.0) && p.0.active && HearsUnkeyed(p.0.trace) == HearsUnkeyed(m.trace) && Moved(p.0.trace) == Moved(m.trace) + p.1
  {
    OneMore(m.trace, Pull(Min(m.left, max)));
  }

  lemma UnkeyKeeps(m: Modem)
    requires Steady(m) && m.keyed && !m.active
    ensures var m' := m.(keyed := false, trace := m.trace + [Ptt(false)]); Sound(m') && Silent(m, m')
  {
    OneMore(m.trace, Ptt(false));
  }

  /** Samples come while transmitting and only then; without any the transmission is over. */
  lemma PullKeeps(m: Modem, max: nat, next: seq<Action>)
    requires Sound(m) && Plausible(next) && max > 0
    ensures var p := PullFrom(m, max, next);
      && Sound(p.0) && p.1 <= max && (p.1 > 0 <==> p.0.active)
      && HearsUnkeyed(p.0.trace) == HearsUnkeyed(m.trace) && Moved(p.0.trace) == Moved(m.trace) + p.1
  {
    if m.active {
      if Min(m.left, max) > 0 {
        TakeKeeps(m, max);
      } else {
        var m' := StepFor(m.(active := false), ForEnd, next);
        StepKeeps(m.(active := false), ForEnd, next);
        if m'.active {
          FrameIsThere(Note(m.(active := false), Stepped(ForEnd, next)), next);
          TakeKeeps(m', max);
        } else {
          UnkeyKeeps(m');
        }
      }
    }
  }

  /**
   * A transmission is pulled a block at a time to its last sample. At its end the link is asked, and
   * a frame it sends and the modulator takes follows without a gap; otherwise the transmitter is unkeyed.
   */
  lemma PullExactly(m: Modem, max: nat, next: seq<Action>)
    requires Sound(m) && m.active && Plausible(next) && max > 0
    ensures var p := PullFrom(m, max, next);
      if m.left > 0 then
        && p.1 == Min(m.left, max) && p.0.active && p.0.left == m.left - p.1
        && p.0.trace == m.trace + [Pull(p.1)]
      else if Sends(next) then
        && p.1 == Min(Samples(next), max) && p.0.active && p.0.left == Samples(next) - p.1
        && p.0.trace == m.trace + [Stepped(ForEnd, next)] + [Pull(p.1)]
      else
        && p.1 == 0 && !p.0.active
        && p.0.trace == m.trace + [Stepped(ForEnd, next)] + [Ptt(false)]
  {
    var ended := Note(m.(active := false), Stepped(ForEnd, next));
    if m.left == 0 {
      if Sends(next) {
        FrameIsThere(ended, next);
        assert ended.trace + [] == ended.trace;
      } else {
        NothingSeen(ended, next);
      }
    }
  }

  lemma PlayedKeeps(m: Modem, n: nat, plays: bool)
    requires Sound(m) && (n > 0 ==> m.active)
    ensures var m' := Played(m, n, plays);
      Sound(m') && Silent(m, m') && m'.active == m.active
      && m'.trace == m.trace + if n > 0 && plays then [Write(n)] else []
  {
    OneMore(m.trace, Write(n));
    assert m.trace + [] == m.trace;
  }

  lemma HeardKeeps(m: Modem, n: nat)
    requires Sound(m)
    ensures var m' := Note(m, Read(n));
      && Sound(m') && m'.active == m.active && Moved(m'.trace) == Moved(m.trace) + n
      && HearsUnkeyed(m'.trace) == (HearsUnkeyed(m.trace) && !m.active)
  {
    OneMore(m.trace, Read(n));
  }

  lemma DemodulatedKeeps(m: Modem, frames: seq<seq<Action>>)
    requires Sound(m)
    ensures var m' := Demodulated(m, frames);
      Sound(m') && Silent(m, m') && m'.active == (m.active || OneSends(frames))
  {
    NoteKeeps(m, Found(|frames|));
    ReceiveKeeps(Note(m, Found(|frames|)), frames);
  }

  /**
   * Listening is deaf exactly when a host command polled just before the capture has started a
   * transmission. It ends transmitting exactly if a command polled, or a frame found in what was
   * captured, or the timer step is answered with a frame the modulator takes.
   */
  lemma ListenKeeps(m: Modem, x: Turn, hasHost: bool)
    requires Sound(m) && !m.active && (!hasHost ==> x.hosts == [])
    ensures var m' := Listen(m, x, hasHost);
      && Sound(m') && Moved(m'.trace) == Moved(m.trace) + x.captured
      && HearsUnkeyed(m'.trace) == (HearsUnkeyed(m.trace) && !OneSends(x.hosts))
      && m'.active == (OneSends(x.hosts) || (x.captured > 0 && OneSends(x.frames)) || Sends(x.tick))
  {
    var polled := PollAll(m, x.hosts, hasHost);
    var heard := Note(polled, Read(x.captured));
    PollAllKeeps(m, x.hosts, hasHost);
    HeardKeeps(polled, x.captured);
    if x.captured > 0 {
      DemodulatedKeeps(heard, x.frames);
      StepKeeps(Demodulated(heard, x.frames), ForTimer, x.tick);
    } else {
      StepKeeps(heard, ForTimer, x.tick);
    }
  }

  // --- what an iteration does, keying apart ---

  /** All that is seen but the keying. */
  function Doings(trace: seq<Obs>): seq<Obs> {
    if trace == [] then []
    else Doings(trace[..|trace| - 1]) + if trace[|trace| - 1].Ptt? then [] else [trace[|trace| - 1]]
  }

  lemma OneDoing(trace: seq<Obs>, o: Obs)
    ensures Doings(trace + [o]) == Doings(trace) + if o.Ptt? then [] else [o]
  {
    assert (trace + [o])[..|trace|] == trace;
  }

  lemma {:induction false} PerformDoes(m: Modem, acts: seq<Action>)
    ensures Doings(Perform(m, acts).trace) == Doings(m.trace)
    decreases |acts|
  {
    if acts != [] {
      OneDoing(m.trace, Ptt(true));
      assert m.trace + [] == m.trace && Doings(m.trace) + [] == Doings(m.trace);
      PerformDoes(if acts[0].SendFrame? then Send(m, acts[0].accepted, acts[0].samples) else m, acts[1..]);
    }
  }

  lemma StepDoes(m: Modem, why: Cause, acts: seq<Action>)
    ensures Doings(StepFor(m, why, acts).trace) == Doings(m.trace) + [Stepped(why, acts)]
  {
    OneDoing(m.trace, Stepped(why, acts));
    PerformDoes(Note(m, Stepped(why, acts)), acts);
  }

  /** One step of the link for each of `steps`, each with `before` before it. */
  function Steps(before: seq<Obs>, why: Cause, steps: seq<seq<Action>>): seq<Obs> {
    if steps == [] then [] else before + [Stepped(why, steps[0])] + Steps(before, why, steps[1..])
  }

  lemma Regroup(a: seq<Obs>, b: seq<Obs>, c: seq<Obs>)
    ensures a + b + c == a + (b + c)
  {
  }

  lemma {:induction false} ReceiveDoes(m: Modem, frames: seq<seq<Action>>)
    ensures Doings(Receive(m, frames).trace) == Doings(m.trace) + Steps([], ForFrame, frames)
    decreases |frames|
  {
    if frames != [] {
      StepDoes(m, ForFrame, frames[0]);
      ReceiveDoes(StepFor(m, ForFrame, frames[0]), frames[1..]);
      Regroup(Doings(m.trace), [] + [Stepped(ForFrame, frames[0])], Steps([], ForFrame, frames[1..]));
    }
  }

  lemma {:induction false} PollDoes(m: Modem, hosts: seq<seq<Action>>)
    ensures Doings(Poll(m, hosts).trace) == Doings(m.trace) + Steps([Polled(true)], ForCommand, hosts)
    decreases |hosts|
  {
    if hosts != [] {
      var noted := Note(m, Polled(true));
      OneDoing(m.trace, Polled(true));
      StepDoes(noted, ForCommand, hosts[0]);
      PollDoes(StepFor(noted, ForCommand, hosts[0]), hosts[1..]);
      Regroup(Doings(m.trace), [Polled(true)], [Stepped(ForCommand, hosts[0])]);
      Regroup(Doings(m.trace), [Polled(true)] + [Stepped(ForCommand, hosts[0])], Steps([Polled(true)], ForCommand, hosts[1..]));
    }
  }

  lemma PollAllDoes(m: Modem, hosts: seq<seq<Action>>, hasHost: bool)
    requires !hasHost ==> hosts == []
    ensures Doings(PollAll(m, hosts, hasHost).trace) ==
      Doings(m.trace) + Steps([Polled(true)], ForCommand, hosts) + if hasHost then [Polled(false)] else []
  {
    PollDoes(m, hosts);
    OneDoing(Poll(m, hosts).trace, Polled(false));
  }

  lemma DemodulatedDoes(m: Modem, frames: seq<seq<Action>>)
    ensures Doings(Demodulated(m, frames).trace) == Doings(m.trace) + [Found(|frames|)] + Steps([], ForFrame, frames)
  {
    OneDoing(m.trace, Found(|frames|));
    ReceiveDoes(Note(m, Found(|frames|)), frames);
  }

  /**
   * A receiving iteration puts every command there is to the link, captures once, puts every frame
   * found in what was captured to the link, and then steps it once for the passing of time.
   */
  lemma ListenDoes(m: Modem, x: Turn, hasHost: bool)
    requires !hasHost ==> x.hosts == []
    ensures Doings(Listen(m, x, hasHost).trace) ==
      Doings(m.trace)
      + Steps([Polled(true)], ForCommand, x.hosts) + (if hasHost then [Polled(false)] else [])
      + [Read(x.captured)]
      + (if x.captured > 0 then [Found(|x.frames|)] + Steps([], ForFrame, x.frames) else [])
      + [Stepped(ForTimer, x.tick)]
  {
    var polled := PollAll(m, x.hosts, hasHost);
    var heard := Note(polled, Read(x.captured));
    PollAllDoes(m, x.hosts, hasHost);
    OneDoing(polled.trace, Read(x.captured));
    if x.captured > 0 {
      DemodulatedDoes(heard, x.frames);
      Regroup(Doings(heard.trace), [Found(|x.frames|)], Steps([], ForFrame, x.frames));
      StepDoes(Demodulated(heard, x.frames), ForTimer, x.tick);
    } else {
      StepDoes(heard, ForTimer, x.tick);
      assert Doings(heard.trace) + [] == Doings(heard.trace);
    }
  }

  // --- iterations ---

  /** Samples an iteration moves, captured or pulled. */
  function Amount(m: Modem, x: Turn, block: nat): nat {
    if m.active then PullFrom(m, block, x.next).1 else x.captured
  }

  lemma GoKeeps(m: Modem, x: Turn, b: Backend)
    requires Sound(m) && Possible(x, b) && b.block > 0
    ensures var m' := Go(m, x, b);
      && Sound(m') && Moved(m'.trace) == Moved(m.trace) + Amount(m, x, b.block)
      && HearsUnkeyed(m'.trace) == (HearsUnkeyed(m.trace) && (m.active || !OneSends(x.hosts)))
  {
    if m.active {
      var p := PullFrom(m, b.block, x.next);
      PullKeeps(m, b.block, x.next);
      PlayedKeeps(p.0, p.1, b.plays);
    } else {
      ListenKeeps(m, x, b.hasHost);
    }
  }

  /** A transmitting iteration plays exactly what it pulls, if the backend plays at all. */
  lemma PlaysAll(m: Modem, x: Turn, b: Backend)
    requires Sound(m) && m.active && Possible(x, b) && b.block > 0
    ensures var p, m' := PullFrom(m, b.block, x.next), Go(m, x, b);
      m'.trace == p.0.trace + (if p.1 > 0 && b.plays then [Write(p.1)] else []) && m'.active == p.0.active
  {
    var p := PullFrom(m, b.block, x.next);
    PullKeeps(m, b.block, x.next);
    PlayedKeeps(p.0, p.1, b.plays);
  }

  /** An iteration that starts by receiving polls a host command that starts a transmission. */
  predicate Deafened(xs: seq<Turn>, b: Backend, i: nat)
    requires i < |xs|
  {
    !GoOn(QUIET, xs[..i], b).active && OneSends(xs[i].hosts)
  }

  predicate NeverDeafened(xs: seq<Turn>, b: Backend) {
    forall i :: 0 <= i < |xs| ==> !Deafened(xs, b, i)
  }

  lemma DeafenedSplits(xs: seq<Turn>, b: Backend)
    requires xs != []
    ensures var n := |xs| - 1;
      NeverDeafened(xs, b) <==> NeverDeafened(xs[..n], b) && !Deafened(xs, b, n)
  {
    var n := |xs| - 1;
    forall i | 0 <= i < n ensures Deafened(xs, b, i) == Deafened(xs[..n], b, i) {
      assert xs[..n][..i] == xs[..i] && xs[..n][i] == xs[i];
    }
    if NeverDeafened(xs, b) {
      forall i | 0 <= i < n ensures !Deafened(xs[..n], b, i) {
        assert !Deafened(xs, b, i);
      }
    }
  }

  /**
   * Any number of iterations, from the start. Whatever the link, the modulator and the backend do,
   * keying alternates and matches the transmission and nothing is pulled or played unkeyed.
   * Nothing is captured while keyed either, if and only if no iteration that starts by receiving
   * polls a host command to which the link answers with a frame the modulator takes.
   */
  lemma {:induction false} HearsExactly(xs: seq<Turn>, b: Backend)
    requires b.block > 0 && forall x :: x in xs ==> Possible(x, b)
    ensures var m := GoOn(QUIET, xs, b);
      && m.active == Keyed(m.trace) && Alternates(m.trace) && PlaysKeyed(m.trace) && Sound(m)
      && (HearsUnkeyed(m.trace) <==> NeverDeafened(xs, b))
    decreases |xs|
  {
    if xs != [] {
      var n := |xs| - 1;
      assert forall x :: x in xs[..n] ==> x in xs;
      HearsExactly(xs[..n], b);
      assert xs[n] in xs;
      GoKeeps(GoOn(QUIET, xs[..n], b), xs[n], b);
      DeafenedSplits(xs, b);
    }
  }

  /** Without a host nothing is ever captured while keyed. */
  lemma NoHostHears(xs: seq<Turn>, b: Backend)
    requires b.block > 0 && !b.hasHost && forall x :: x in xs ==> Possible(x, b)
    ensures HearsUnkeyed(GoOn(QUIET, xs, b).trace)
  {
    HearsExactly(xs, b);
    assert forall i :: 0 <= i < |xs| ==> xs[i] in xs;
  }

  /** With one it can be: a command that starts a transmission, and then the capture. */
  lemma CapturesKeyed(b: Backend) returns (x: Turn)
    requires b.block > 0 && b.hasHost
    ensures Possible(x, b) && |x.hosts| == 1 && !HearsUnkeyed(GoOn(QUIET, [x], b).trace)
    ensures Doings(GoOn(QUIET, [x], b).trace) ==
      [Polled(true), Stepped(ForCommand, x.hosts[0]), Polled(false), Read(1), Found(0), Stepped(ForTimer, [])]
  {
    var acts: seq<Action> := [SendFrame(true, 1)];
    var hosts: seq<seq<Action>> := [acts];
    x := Turn(hosts, 1, [], [], []);
    assert acts[1..] == [] && hosts[1..] == [] && [x][..0] == [];
    assert acts[0].accepted && Sends(hosts[0]);
    ListenKeeps(QUIET, x, true);
    ListenDoes(QUIET, x, true);
    assert GoOn(QUIET, [x], b) == Listen(QUIET, x, true);
    assert Steps([Polled(true)], ForCommand, hosts) == [Polled(true)] + [Stepped(ForCommand, acts)] + [];
  }

  // --- what surrounds the runtime ---

  class Platform {
    ghost var trace: seq<Obs>
    var waiting: nat  // host commands not yet polled

    constructor ()
      ensures trace == []
    {
      trace, waiting := [], *;
    }

    ghost method Note(o: Obs)
      modifies `trace
      ensures trace == old(trace) + [o]
    {
      trace := trace + [o];
    }

    method SetPtt(key: bool)
      modifies `trace
      ensures trace == old(trace) + [Ptt(key)]
    {
      Note(Ptt(key));
    }

    method PollHost() returns (more: bool)
      modifies this
      ensures trace == old(trace) + [Polled(more)] && waiting <= old(waiting) && (more ==> waiting < old(waiting))
    {
      more := waiting > 0;
      if more {
        waiting := waiting - 1;
      }
      Note(Polled(more));
    }

    /** More commands may come while samples are captured. */
    method ReadAudio(max: nat) returns (n: nat)
      modifies this
      ensures n <= max && trace == old(trace) + [Read(n)]
    {
      n :| 0 <= n <= max;
      waiting := *;
      Note(Read(n));
    }

    /** An arbitrary demodulator: how many frames it finds in what was captured. */
    method Demodulate() returns (frames: nat)
      modifies `trace
      ensures frames <= MAX_EVENTS && trace == old(trace) + [Found(frames)]
    {
      frames :| 0 <= frames <= MAX_EVENTS;
      Note(Found(frames));
    }

    method WriteAudio(n: nat)
      modifies `trace
      ensures trace == old(trace) + [Write(n)]
    {
      Note(Write(n));
    }
  }

  /** An arbitrary link, taking a step and answering. */
  method LinkStep(plat: Platform, why: Cause) returns (acts: seq<Action>)
    modifies plat
    ensures Plausible(acts) && plat.trace == old(plat.trace) + [Stepped(why, acts)]
    ensures plat.waiting == old(plat.waiting)
  {
    var frame: Action, padding: seq<Action> := *, [];
    if frame.SendFrame? && (!frame.accepted || frame.samples > 0) {
      acts := [frame];
    } else {
      acts := [];
    }
    var before: nat, after: nat;
    before, after :| before + after < MAX_ACTIONS;
    Padded(before, acts, after);
    acts := seq(before, _ => OtherAction) + acts + seq(after, _ => OtherAction);
    plat.Note(Stepped(why, acts));
  }

  lemma {:induction false} Padded(before: nat, acts: seq<Action>, after: nat)
    ensures Frames(seq(before, _ => OtherAction) + acts + seq(after, _ => OtherAction)) == Frames(acts)
    decreases before, |acts|, after
  {
    var all := seq(before, _ => OtherAction) + acts + seq(after, _ => OtherAction);
    if before > 0 {
      Padded(before - 1, acts, after);
      assert all[1..] == seq(before - 1, _ => OtherAction) + acts + seq(after, _ => OtherAction);
    } else if acts != [] {
      Padded(0, acts[1..], after);
      assert all[1..] == seq(0, _ => OtherAction) + acts[1..] + seq(after, _ => OtherAction);
    } else if after > 0 {
      Padded(0, [], after - 1);
      assert all[1..] == seq(0, _ => OtherAction) + [] + seq(after - 1, _ => OtherAction);
    }
  }

  // --- the runtime ---

  class Runtime {
    const plat: Platform
    var txActive: bool
    var pttKeyed: bool
    var left: nat  // samples of the frame still to be pulled

    ghost function View(): Modem
      reads this, plat
    {
      Modem(txActive, pttKeyed, left, plat.trace)
    }

    constructor (plat: Platform)
      requires plat.trace == []
      ensures this.plat == plat && View() == QUIET
    {
      this.plat := plat;
      txActive, pttKeyed, left := false, false, 0;
    }

    method StartTx(accepted: bool, samples: nat)
      modifies this, plat
      ensures View() == Send(old(View()), accepted, samples) && plat.waiting == old(plat.waiting)
    {
      left := samples;
      if !accepted {
        return;
      }
      txActive := true;
      if !pttKeyed {
        pttKeyed := true;
        plat.SetPtt(true);
      }
    }

    /** One link step and everything it asks for. */
    method StepAndPerform(why: Cause) returns (ghost acts: seq<Action>)
      modifies this, plat
      ensures Plausible(acts) && View() == StepFor(old(View()), why, acts) && plat.waiting == old(plat.waiting)
    {
      var asked := LinkStep(plat, why);
      ghost var noted := View();
      var i := 0;
      while i < |asked|
        invariant 0 <= i <= |asked| && plat.waiting == old(plat.waiting)
        invariant Perform(View(), asked[i..]) == Perform(noted, asked)
      {
        assert asked[i..][1..] == asked[i + 1..];
        if asked[i].SendFrame? {
          StartTx(asked[i].accepted, asked[i].samples);
        }
        i := i + 1;
      }
      acts := asked;
    }

    /** Captured samples: each frame the demodulator finds in them is delivered. */
    method Rx() returns (ghost frames: seq<seq<Action>>)
      modifies this, plat
      ensures |frames| <= MAX_EVENTS && (forall f :: f in frames ==> Plausible(f))
      ensures View() == Demodulated(old(View()), frames)
    {
      var found := plat.Demodulate();
      ghost var noted := View();
      frames := [];
      var e := 0;
      while e < found
        invariant 0 <= e <= found && |frames| == e && forall f :: f in frames ==> Plausible(f)
        invariant View() == Receive(noted, frames)
      {
        ghost var acts := StepAndPerform(ForFrame);
        OneMoreFrame(noted, frames, acts);
        frames := frames + [acts];
        e := e + 1;
      }
    }

    method PullTx(max: nat) returns (n: nat, ghost next: seq<Action>)
      requires max > 0
      modifies this, plat
      ensures Plausible(next) && (View(), n) == PullFrom(old(View()), max, next)
      decreases if left == 0 then 1 else 0
    {
      n, next := 0, [];
      if !txActive {
        return;
      }
      n := Min(left, max);
      left := left - n;
      if n == 0 {
        txActive := false;
        ghost var ended := View();
        next := StepAndPerform(ForEnd);
        Restarted(ended, next);
        if txActive {
          ghost var none;
          n, none := PullTx(max);
          return;
        }
        pttKeyed := false;
        plat.SetPtt(false);
      } else {
        plat.Note(Pull(n));
      }
    }
  }

  /** A transmission that starts where another ends has samples to send. */
  lemma Restarted(m: Modem, next: seq<Action>)
    requires Plausible(next) && !m.active
    ensures StepFor(m, ForEnd, next).active ==> StepFor(m, ForEnd, next).left > 0
  {
    if Sends(next) {
      FrameIsThere(Note(m, Stepped(ForEnd, next)), next);
    } else {
      NothingSeen(Note(m, Stepped(ForEnd, next)), next);
    }
  }

  lemma {:induction false} OneMoreFrame(m: Modem, frames: seq<seq<Action>>, acts: seq<Action>)
    ensures Receive(m, frames + [acts]) == StepFor(Receive(m, frames), ForFrame, acts)
    decreases |frames|
  {
    if frames == [] {
      assert (frames + [acts])[1..] == [];
    } else {
      assert (frames + [acts])[1..] == frames[1..] + [acts];
      OneMoreFrame(StepFor(m, ForFrame, frames[0]), frames[1..], acts);
    }
  }

  lemma {:induction false} OneMoreHost(m: Modem, hosts: seq<seq<Action>>, acts: seq<Action>)
    ensures Poll(m, hosts + [acts]) == StepFor(Note(Poll(m, hosts), Polled(true)), ForCommand, acts)
    decreases |hosts|
  {
    if hosts == [] {
      assert (hosts + [acts])[1..] == [];
    } else {
      assert (hosts + [acts])[1..] == hosts[1..] + [acts];
      OneMoreHost(StepFor(Note(m, Polled(true)), ForCommand, hosts[0]), hosts[1..], acts);
    }
  }

  lemma NextAction(acts: seq<Action>, i: nat)
    requires i < |acts| && Plausible(acts[i..])
    ensures Plausible(acts[i + 1..]) && Frames(acts[i..]) == (if acts[i].SendFrame? then 1 else 0) + Frames(acts[i + 1..])
    ensures acts[i].SendFrame? && acts[i].accepted ==> acts[i].samples > 0
  {
    assert acts[i..][1..] == acts[i + 1..] && acts[i..][0] == acts[i];
    assert forall a :: a in acts[i + 1..] ==> a in acts[i..];
  }

  // --- the loop ---

  class Loop {
    const rt: Runtime
    const plat: Platform
    const hasHost: bool  // the backend supplies host commands
    const plays: bool    // the backend plays audio
    var t: nat
    var block: nat

    ghost predicate Valid()
      reads this, rt, plat
    {
      rt.plat == plat && Sound(rt.View()) && 1 <= block <= LOOP_BLOCK && t == Moved(plat.trace)
    }

    ghost function Served(): Backend
      reads this
    {
      Backend(hasHost, plays, block)
    }

    constructor (rt: Runtime, plat: Platform, hasHost: bool, plays: bool)
      requires rt.plat == plat && rt.View() == QUIET
      ensures Valid() && this.rt == rt && this.plat == plat && this.hasHost == hasHost && this.plays == plays && t == 0
      ensures rt.View() == QUIET
    {
      this.rt, this.plat, this.hasHost, this.plays := rt, plat, hasHost, plays;
      t, block := 0, LOOP_BLOCK;
    }

    /** Drain one block of a transmission. */
    method ServeTx() returns (ghost next: seq<Action>)
      requires Valid() && rt.txActive
      modifies `t, rt, plat
      ensures Valid() && Plausible(next)
      ensures var p := PullFrom(old(rt.View()), block, next); rt.View() == Played(p.0, p.1, plays)
    {
      ghost var before := rt.View();
      var n;
      n, next := rt.PullTx(block);
      PullKeeps(before, block, next);
      PlayedKeeps(rt.View(), n, plays);
      if n == 0 {
        return;
      }
      t := t + n;
      if plays {
        plat.WriteAudio(n);
      }
    }

    /** Deliver the host commands there are. */
    method PollHost() returns (ghost hosts: seq<seq<Action>>)
      requires rt.plat == plat
      modifies rt, plat
      ensures (forall h :: h in hosts ==> Plausible(h)) && (!hasHost ==> hosts == [])
      ensures rt.View() == PollAll(old(rt.View()), hosts, hasHost)
    {
      hosts := [];
      if !hasHost {
        return;
      }
      var more := plat.PollHost();
      while more
        invariant (forall h :: h in hosts ==> Plausible(h))
        invariant rt.View() == Note(Poll(old(rt.View()), hosts), Polled(more))
        decreases plat.waiting, more
      {
        ghost var acts := rt.StepAndPerform(ForCommand);
        OneMoreHost(old(rt.View()), hosts, acts);
        hosts := hosts + [acts];
        more := plat.PollHost();
      }
    }

    /** Deliver host commands, capture one block, and step the link. */
    method ServeRx() returns (ghost x: Turn)
      requires Valid() && !rt.txActive
      modifies `t, rt, plat
      ensures Valid() && Possible(x, Served()) && rt.View() == Listen(old(rt.View()), x, hasHost)
    {
      ghost var before := rt.View();
      ghost var hosts, frames := [], [];
      hosts := PollHost();
      var n := plat.ReadAudio(block);
      t := t + n;
      if n > 0 {
        frames := rt.Rx();
      }
      ghost var tick := rt.StepAndPerform(ForTimer);
      x := Turn(hosts, n, frames, tick, []);
      ListenKeeps(before, x, hasHost);
    }

    /** One iteration: transmitting takes priority, and while it lasts nothing is captured. */
    method Step() returns (ghost x: Turn)
      requires Valid()
      modifies `t, rt, plat
      ensures Valid() && Possible(x, Served()) && rt.View() == Go(old(rt.View()), x, Served())
    {
      if rt.txActive {
        ghost var next := ServeTx();
        x := Turn([], 0, [], [], next);
      } else {
        x := ServeRx();
      }
    }

    /** Any number of iterations, from the start; the clock counts the samples moved. */
    method Run(steps: nat) returns (ghost xs: seq<Turn>)
      requires Valid() && rt.View() == QUIET
      modifies `t, rt, plat
      ensures |xs| == steps && (forall x :: x in xs ==> Possible(x, Served()))
      ensures rt.View() == GoOn(QUIET, xs, Served()) && t == Moved(plat.trace)
      ensures rt.txActive == Keyed(plat.trace) && Alternates(plat.trace) && PlaysKeyed(plat.trace)
      ensures HearsUnkeyed(plat.trace) <==> NeverDeafened(xs, Served())
    {
      xs := [];
      for i := 0 to steps
        invariant Valid() && |xs| == i && (forall x :: x in xs ==> Possible(x, Served()))
        invariant rt.View() == GoOn(QUIET, xs, Served())
      {
        ghost var x := Step();
        assert (xs + [x])[..|xs|] == xs;
        xs := xs + [x];
      }
      HearsExactly(xs, Served());
    }
  }
}
