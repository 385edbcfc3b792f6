/**
 * The UART broker: callers, the receive interrupt and the transmit thread share two bounded queues.
 * Each of their atomic actions is a step, and every interleaving is a list of steps.
 */
module UartBroker {
  import opened Bytes
  import Serial

  const TX_SIZE: nat := 256
  const RX_SIZE: nat := 1024

  /** A byte put on the wire, by the echo or by the transmit thread. */
  datatype Outgoing = Outgoing(b: byte, echo: bool)

  /** The two queues, the byte the thread has taken and not yet sent, the echo flag, and the wire. */
  datatype State = State(tx: seq<byte>, rx: seq<byte>, held: Option<byte>, echo: bool, wire: seq<Outgoing>)

  datatype Step =
    | Offer(b: byte)
    | Get
    | Purge
    | SetEcho(on: bool)
    | Arrive(b: byte)
    | Pull
    | Push

  predicate Valid(s: State) {
    |s.tx| <= TX_SIZE && |s.rx| <= RX_SIZE
  }

  function Next(s: State, step: Step): State {
    match step
    case Offer(b) => if |s.tx| < TX_SIZE then s.(tx := s.tx + [b]) else s
    case Get => if s.rx != [] then s.(rx := s.rx[1..]) else s
    case Purge => s.(rx := [])
    case SetEcho(on) => s.(echo := on)
    case Arrive(b) =>
      s.(rx := if |s.rx| < RX_SIZE then s.rx + [b] else s.rx,
         wire := if s.echo then s.wire + [Outgoing(b, true)] else s.wire)
    case Pull => if s.held.None? && s.tx != [] then s.(held := Some(s.tx[0]), tx := s.tx[1..]) else s
    case Push => if s.held.Some? then s.(held := None, wire := s.wire + [Outgoing(s.held.value, false)]) else s
  }

  /** Bytes the callers got accepted and read, bytes that arrived, and how many of those were dropped. */
  datatype Seen = Seen(accepted: seq<byte>, read: seq<byte>, heard: seq<byte>, dropped: nat)

  const NOTHING := Seen([], [], [], 0)

  /** The broker together with what callers and line have seen of it so far. */
  datatype World = World(s: State, seen: Seen)

  const START := World(State([], [], None, true, []), NOTHING)

  function See(s: State, step: Step, seen: Seen): Seen {
    match step
    case Offer(b) => if |s.tx| < TX_SIZE then seen.(accepted := seen.accepted + [b]) else seen
    case Get => if s.rx != [] then seen.(read := seen.read + [s.rx[0]]) else seen
    case Arrive(b) =>
      seen.(heard := seen.heard + [b], dropped := if |s.rx| < RX_SIZE then seen.dropped else seen.dropped + 1)
    case _ => seen
  }

  function Move(w: World, step: Step): World {
    World(Next(w.s, step), See(w.s, step, w.seen))
  }

  function Run(w: World, steps: seq<Step>): World
    decreases steps
  {
    if steps == [] then w else Run(Move(w, steps[0]), steps[1..])
  }

  lemma {:induction false} RunAppend(w: World, a: seq<Step>, b: seq<Step>)
    ensures Run(w, a + b) == Run(Run(w, a), b)
    decreases a
  {
    if a == [] {
      assert a + b == b;
    } else {
      RunAppend(Move(w, a[0]), a[1..], b);
      assert (a + b)[0] == a[0] && (a + b)[1..] == a[1..] + b;
    }
  }

  lemma {:induction false} QueuesBounded(w: World, steps: seq<Step>)
    requires Valid(w.s)
    ensures Valid(Run(w, steps).s)
    decreases steps
  {
    if steps != [] {
      QueuesBounded(Move(w, steps[0]), steps[1..]);
    }
  }

  // ---- Outgoing: nothing accepted is lost, doubled or reordered ----------------------------

  /** The bytes of the wire that are not echoes. */
  function Own(wire: seq<Outgoing>): seq<byte> {
    if wire == [] then []
    else
      var o := wire[|wire| - 1];
      Own(wire[..|wire| - 1]) + if o.echo then [] else [o.b]
  }

  function Echoes(wire: seq<Outgoing>): seq<byte> {
    if wire == [] then []
    else
      var o := wire[|wire| - 1];
      Echoes(wire[..|wire| - 1]) + if o.echo then [o.b] else []
  }

  /** All the wire carries, in order. */
  function Carried(wire: seq<Outgoing>): seq<byte> {
    seq(|wire|, i requires 0 <= i < |wire| => wire[i].b)
  }

  lemma OneMore(wire: seq<Outgoing>, o: Outgoing)
    ensures Own(wire + [o]) == Own(wire) + if o.echo then [] else [o.b]
    ensures Echoes(wire + [o]) == Echoes(wire) + if o.echo then [o.b] else []
  {
    assert (wire + [o])[..|wire|] == wire;
  }

  /** Accepted and not yet on the wire. */
  function Pending(s: State): seq<byte> {
    (if s.held.Some? then [s.held.value] else []) + s.tx
  }

  /** Everything accepted so far: what was sent, what the thread holds, what is queued. */
  function Out(s: State): seq<byte> {
    Own(s.wire) + Pending(s)
  }

  /** All accepted bytes are accounted for; `base` were when the run began. */
  predicate AllSent(w: World, base: seq<byte>) {
    Out(w.s) == base + w.seen.accepted
  }

  lemma StepOut(s: State, step: Step)
    ensures Out(Next(s, step)) == Out(s) + if step.Offer? && |s.tx| < TX_SIZE then [step.b] else []
  {
    match step {
      case Offer(b) => RejoinFour(Own(s.wire), if s.held.Some? then [s.held.value] else [], s.tx, [b]);
      case Arrive(b) => OneMore(s.wire, Outgoing(b, true));
      case Pull => PullOut(s);
      case Push => PushOut(s);
      case _ =>
    }
  }

  lemma PullOut(s: State)
    ensures Out(Next(s, Pull)) == Out(s)
  {
    if s.held.None? && s.tx != [] {
      assert Pending(Next(s, Pull)) == [s.tx[0]] + s.tx[1..] == s.tx == Pending(s);
    }
  }

  lemma PushOut(s: State)
    ensures Out(Next(s, Push)) == Out(s)
  {
    if s.held.Some? {
      OneMore(s.wire, Outgoing(s.held.value, false));
      RejoinFour(Own(s.wire), [s.held.value], [], s.tx);
    }
  }

  lemma StepSends(w: World, step: Step, base: seq<byte>)
    requires AllSent(w, base)
    ensures AllSent(Move(w, step), base)
  {
    StepOut(w.s, step);
    if step.Offer? {
      assert (base + w.seen.accepted) + [step.b] == base + (w.seen.accepted + [step.b]);
    }
  }

  lemma RejoinFour(a: seq<byte>, b: seq<byte>, c: seq<byte>, d: seq<byte>)
    ensures a + (b + (c + d)) == (a + (b + c)) + d == (a + b) + (c + d)
  {
  }

  /**
   * In every interleaving, what the thread has sent, what it holds and what is queued make up
   * exactly the bytes accepted, in the order of acceptance.
   */
  lemma {:induction false} SentHeldQueuedIsAccepted(w: World, steps: seq<Step>, base: seq<byte>)
    requires AllSent(w, base)
    ensures AllSent(Run(w, steps), base)
    decreases steps
  {
    if steps != [] {
      StepSends(w, steps[0], base);
      SentHeldQueuedIsAccepted(Move(w, steps[0]), steps[1..], base);
    }
  }

  // ---- Incoming: in order, and lost only at a full queue ------------------------------------

  /** `a` is `b` with some elements left out. */
  predicate Within(a: seq<byte>, b: seq<byte>) {
    if b == [] then a == []
    else Within(a, b[1..]) || (a != [] && a[0] == b[0] && Within(a[1..], b[1..]))
  }

  lemma {:induction false} WithinSelf(a: seq<byte>)
    ensures Within(a, a)
  {
    if a != [] {
      WithinSelf(a[1..]);
    }
  }

  lemma {:induction false} WithinJoin(a: seq<byte>, b: seq<byte>, c: seq<byte>, d: seq<byte>)
    requires Within(a, b) && Within(c, d)
    ensures Within(a + c, b + d)
  {
    if b == [] {
      assert a + c == c && b + d == d;
    } else {
      assert (b + d)[0] == b[0] && (b + d)[1..] == b[1..] + d;
      if Within(a, b[1..]) {
        WithinJoin(a, b[1..], c, d);
      } else {
        WithinJoin(a[1..], b[1..], c, d);
        assert (a + c)[0] == a[0] && (a + c)[1..] == a[1..] + c;
      }
    }
  }

  /**
   * What was read and what waits is an in-order part of what was queued at first (`base`) and has
   * arrived since, and as many bytes are missing as were dropped.
   */
  predicate AllHeard(w: World, base: seq<byte>) {
    && Within(w.seen.read + w.s.rx, base + w.seen.heard)
    && |base| + |w.seen.heard| == |w.seen.read| + |w.s.rx| + w.seen.dropped
  }

  lemma StepHears(w: World, step: Step, base: seq<byte>)
    requires step != Purge && AllHeard(w, base)
    ensures AllHeard(Move(w, step), base)
  {
    var read, rx, heard := w.seen.read, w.s.rx, w.seen.heard;
    match step {
      case Get =>
        if rx != [] {
          assert (read + [rx[0]]) + rx[1..] == read + rx;
        }
      case Arrive(b) =>
        var got: seq<byte> := if |rx| < RX_SIZE then [b] else [];
        assert Within(got, [b]) by { assert Within([], []); }
        WithinJoin(read + rx, base + heard, got, [b]);
        assert (read + rx) + [b] == read + (rx + [b]) && (read + rx) + [] == read + rx;
        assert (base + heard) + [b] == base + (heard + [b]);
      case _ =>
    }
  }

  lemma {:induction false} ReadQueuedIsHeard(w: World, steps: seq<Step>, base: seq<byte>)
    requires Purge !in steps && AllHeard(w, base)
    ensures AllHeard(Run(w, steps), base)
    decreases steps
  {
    if steps != [] {
      StepHears(w, steps[0], base);
      ReadQueuedIsHeard(Move(w, steps[0]), steps[1..], base);
    }
  }

  /** Counted from the last purge, whatever came before it. */
  lemma SincePurge(w: World, before: seq<Step>, after: seq<Step>)
    requires Purge !in after
    ensures var t := Run(World(Run(w, before + [Purge]).s, NOTHING), after);
            t.s == Run(w, before + [Purge] + after).s && AllHeard(t, [])
  {
    var m := Run(w, before + [Purge]);
    RunAppend(w, before, [Purge]);
    assert Run(Run(w, before), [Purge]) == Run(Move(Run(w, before), Purge), []);
    RunAppend(w, before + [Purge], after);
    SeenIsApart(m, World(m.s, NOTHING), after);
    ReadQueuedIsHeard(World(m.s, NOTHING), after, []);
  }

  /** What has been seen never matters to what the broker does. */
  lemma {:induction false} SeenIsApart(v: World, w: World, steps: seq<Step>)
    requires v.s == w.s
    ensures Run(v, steps).s == Run(w, steps).s
    decreases steps
  {
    if steps != [] {
      SeenIsApart(Move(v, steps[0]), Move(w, steps[0]), steps[1..]);
    }
  }

  /** A part as long as the whole is the whole. */
  lemma {:induction false} WithinFull(a: seq<byte>, b: seq<byte>)
    requires Within(a, b)
    ensures |a| <= |b| && (|a| == |b| ==> a == b)
  {
    if b != [] {
      if Within(a, b[1..]) {
        WithinFull(a, b[1..]);
      }
      if a != [] && a[0] == b[0] && Within(a[1..], b[1..]) {
        WithinFull(a[1..], b[1..]);
      }
    }
  }

  predicate NeverFull(w: World, steps: seq<Step>) {
    forall k :: 0 <= k < |steps| && steps[k].Arrive? ==> |Run(w, steps[..k]).s.rx| < RX_SIZE
  }

  /** A run drops nothing exactly when fewer than 1024 bytes are queued at each arrival. */
  lemma {:induction false} DropsNothingIff(w: World, steps: seq<Step>)
    ensures Run(w, steps).seen.dropped >= w.seen.dropped
    ensures Run(w, steps).seen.dropped == w.seen.dropped <==> NeverFull(w, steps)
    decreases steps
  {
    if steps != [] {
      var t, rest := Move(w, steps[0]), steps[1..];
      DropsNothingIff(t, rest);
      forall k | 0 <= k < |rest| ensures rest[k] == steps[k + 1] && Run(t, rest[..k]) == Run(w, steps[..k + 1]) {
        assert steps[..k + 1][0] == steps[0] && steps[..k + 1][1..] == rest[..k];
      }
      assert steps[..0] == [];
      if NeverFull(w, steps) {
        forall k | 0 <= k < |rest| && rest[k].Arrive? ensures |Run(t, rest[..k]).s.rx| < RX_SIZE {
          assert steps[k + 1].Arrive?;
        }
      } else {
        var k :| 0 <= k < |steps| && steps[k].Arrive? && |Run(w, steps[..k]).s.rx| >= RX_SIZE;
        if k > 0 {
          assert rest[k - 1].Arrive? && Run(t, rest[..k - 1]) == Run(w, steps[..k - 1 + 1]);
        }
      }
    }
  }

  /** What was read and what waits is all that came in exactly when no arrival met a full queue. */
  lemma NothingLostIff(s: State, steps: seq<Step>)
    requires Purge !in steps
    ensures var t := Run(World(s, NOTHING), steps);
            t.seen.read + t.s.rx == s.rx + t.seen.heard <==> NeverFull(World(s, NOTHING), steps)
  {
    var w := World(s, NOTHING);
    WithinSelf(s.rx);
    assert [] + s.rx == s.rx == s.rx + [];
    ReadQueuedIsHeard(w, steps, s.rx);
    DropsNothingIff(w, steps);
    WithinFull(Run(w, steps).seen.read + Run(w, steps).s.rx, s.rx + Run(w, steps).seen.heard);
  }

  // ---- The wire ----------------------------------------------------------------------------

  /** `w` is `a` and `b` merged, each in its own order. */
  predicate Shuffle(w: seq<byte>, a: seq<byte>, b: seq<byte>) {
    if w == [] then a == [] && b == []
    else
      var n := |w| - 1;
      || (a != [] && a[|a| - 1] == w[n] && Shuffle(w[..n], a[..|a| - 1], b))
      || (b != [] && b[|b| - 1] == w[n] && Shuffle(w[..n], a, b[..|b| - 1]))
  }

  /** The wire is always a shuffle of what the thread sent and the echoes. */
  lemma {:induction false} WireIsShuffle(wire: seq<Outgoing>)
    ensures Shuffle(Carried(wire), Own(wire), Echoes(wire))
  {
    if wire != [] {
      var n := |wire| - 1;
      WireIsShuffle(wire[..n]);
      var own, echoes := Own(wire[..n]), Echoes(wire[..n]);
      assert Carried(wire)[..n] == Carried(wire[..n]);
      if wire[n].echo {
        assert Own(wire) == own && Echoes(wire)[..|echoes|] == echoes;
      } else {
        assert Echoes(wire) == echoes && Own(wire)[..|own|] == own;
      }
    }
  }

  /** Echoes, from a run that began with `base` of them on the wire. */
  predicate AllEchoed(w: World, base: seq<byte>) {
    Echoes(w.s.wire) == base + w.seen.heard
  }

  lemma EchoStep(w: World, step: Step)
    ensures Echoes(Move(w, step).s.wire) == Echoes(w.s.wire) + if step.Arrive? && w.s.echo then [step.b] else []
  {
    if step.Arrive? {
      OneMore(w.s.wire, Outgoing(step.b, true));
    } else if step.Push? && w.s.held.Some? {
      OneMore(w.s.wire, Outgoing(w.s.held.value, false));
    }
  }

  /** With the echo on throughout, the echoes are the arrivals, dropped or not, in order. */
  lemma {:induction false} EchoOn(w: World, steps: seq<Step>, base: seq<byte>)
    requires w.s.echo && SetEcho(false) !in steps && AllEchoed(w, base)
    ensures AllEchoed(Run(w, steps), base)
    decreases steps
  {
    if steps != [] {
      EchoStep(w, steps[0]);
      if steps[0].Arrive? {
        assert (base + w.seen.heard) + [steps[0].b] == base + (w.seen.heard + [steps[0].b]);
      }
      assert steps[0] in steps;
      EchoOn(Move(w, steps[0]), steps[1..], base);
    }
  }

  /** With the echo off throughout, nothing is echoed. */
  lemma {:induction false} EchoOff(w: World, steps: seq<Step>)
    requires !w.s.echo && SetEcho(true) !in steps
    ensures Echoes(Run(w, steps).s.wire) == Echoes(w.s.wire)
    decreases steps
  {
    if steps != [] {
      EchoStep(w, steps[0]);
      EchoOff(Move(w, steps[0]), steps[1..]);
    }
  }

  lemma {:induction false} NoEchoes(wire: seq<Outgoing>)
    requires Echoes(wire) == []
    ensures Carried(wire) == Own(wire)
  {
    if wire != [] {
      NoEchoes(wire[..|wire| - 1]);
      assert Carried(wire) == Carried(wire[..|wire| - 1]) + [wire[|wire| - 1].b];
    }
  }

  /** From reset, with the echo never switched off: the wire is a shuffle of the arrivals and what was sent. */
  lemma WireWithEcho(steps: seq<Step>)
    requires SetEcho(false) !in steps
    ensures var t := Run(START, steps);
            Shuffle(Carried(t.s.wire), Own(t.s.wire), t.seen.heard) && Own(t.s.wire) + Pending(t.s) == t.seen.accepted
  {
    EchoOn(START, steps, []);
    SentHeldQueuedIsAccepted(START, steps, []);
    var t := Run(START, steps);
    WireIsShuffle(t.s.wire);
    assert [] + t.seen.heard == t.seen.heard && [] + t.seen.accepted == t.seen.accepted;
  }

  /** From the moment the echo is switched, and until it is switched again, all arrivals are echoed, or none. */
  lemma EchoSwitched(w: World, on: bool, steps: seq<Step>)
    requires w.seen.heard == [] && forall s :: s in steps ==> !s.SetEcho?
    ensures Echoes(Run(w, [SetEcho(on)] + steps).s.wire) ==
            Echoes(w.s.wire) + if on then Run(w, [SetEcho(on)] + steps).seen.heard else []
  {
    var w1 := Move(w, SetEcho(on));
    assert ([SetEcho(on)] + steps)[1..] == steps;
    assert Echoes(w.s.wire) + [] == Echoes(w.s.wire);
    if on {
      EchoOn(w1, steps, Echoes(w.s.wire));
    } else {
      EchoOff(w1, steps);
    }
  }

  /** The queues hold 1024 bytes from the line and 256 for it, and take every byte until then. */
  lemma RoomInQueues(w: World, b: byte)
    ensures Move(w, Arrive(b)).s.rx == if |w.s.rx| < 1024 then w.s.rx + [b] else w.s.rx
    ensures Move(w, Arrive(b)).seen.dropped == w.seen.dropped + if |w.s.rx| < 1024 then 0 else 1
    ensures Move(w, Offer(b)).s.tx == if |w.s.tx| < 256 then w.s.tx + [b] else w.s.tx
  {
  }

  /** A block transfer starts by switching the echo off and purging the receive queue. */
  const BEGIN: seq<Step> := [SetEcho(false), Purge]

  lemma Begun(w: World)
    ensures Run(w, BEGIN) == World(w.s.(echo := false, rx := []), w.seen)
  {
    assert BEGIN[1..] == [Purge] && [Purge][1..] == [];
    assert Run(Move(w, SetEcho(false)), [Purge]) == Run(Move(Move(w, SetEcho(false)), Purge), []);
  }

  /**
   * From there until the echo is switched on again, and counting from there: the wire carries
   * exactly what was pending and what the transfer got accepted, in order, and what the transfer
   * reads is an in-order part of what has arrived since.
   */
  lemma TransferChannel(s: State, steps: seq<Step>)
    requires s.wire == [] && SetEcho(true) !in steps && Purge !in steps
    ensures var t := Run(World(s, NOTHING), BEGIN + steps);
            Carried(t.s.wire) + Pending(t.s) == Pending(s) + t.seen.accepted && AllHeard(t, [])
  {
    var w := World(s, NOTHING);
    var m := Run(w, BEGIN);
    Begun(w);
    RunAppend(w, BEGIN, steps);
    SentHeldQueuedIsAccepted(m, steps, Pending(s));
    EchoOff(m, steps);
    NoEchoes(Run(m, steps).s.wire);
    ReadQueuedIsHeard(m, steps, []);
  }

  // ---- The code ------------------------------------------------------------------------------

  /** What can happen while a caller waits: the interrupt and the thread. */
  predicate Background(steps: seq<Step>) {
    forall step :: step in steps ==> step.Arrive? || step.Pull? || step.Push?
  }

  function Wait(waits: seq<seq<Step>>): seq<Step> {
    if waits == [] then [] else waits[0]
  }

  function Later(waits: seq<seq<Step>>): seq<seq<Step>> {
    if waits == [] then [] else waits[1..]
  }

  /** The steps of putting `data`; `waits` says what else happens while each byte waits for room. */
  function PutSteps(w: World, data: seq<byte>, waits: seq<seq<Step>>): seq<Step>
    decreases data
  {
    if data == [] then []
    else
      var one := Wait(waits) + [Offer(data[0])];
      if |Run(w, Wait(waits)).s.tx| < TX_SIZE
      then one + PutSteps(Run(w, one), data[1..], Later(waits))
      else one
  }

  /** The steps of getting up to `n` bytes. */
  function GetSteps(w: World, n: nat, waits: seq<seq<Step>>): seq<Step>
    decreases n
  {
    if n == 0 then []
    else
      var one := Wait(waits) + [Get];
      if Run(w, Wait(waits)).s.rx != []
      then one + GetSteps(Run(w, one), n - 1, Later(waits))
      else one
  }

  lemma {:induction false} BackgroundIsNoCaller(w: World, steps: seq<Step>)
    requires Background(steps)
    ensures Run(w, steps).seen.accepted == w.seen.accepted && Run(w, steps).seen.read == w.seen.read
    decreases steps
  {
    if steps != [] {
      assert steps[0] in steps && forall step :: step in steps[1..] ==> step in steps;
      BackgroundIsNoCaller(Move(w, steps[0]), steps[1..]);
    }
  }

  /** While a caller waits, only the background goes on; then its own step comes. */
  lemma OneCall(w: World, wait: seq<Step>, call: Step)
    requires Background(wait)
    ensures Run(w, wait + [call]) == Move(Run(w, wait), call)
    ensures Run(w, wait).seen.accepted == w.seen.accepted && Run(w, wait).seen.read == w.seen.read
  {
    RunAppend(w, wait, [call]);
    BackgroundIsNoCaller(w, wait);
    assert Run(Run(w, wait), [call]) == Run(Move(Run(w, wait), call), []);
  }

  /** One byte of a put. */
  lemma PutOne(w: World, data: seq<byte>, waits: seq<seq<Step>>)
    requires data != [] && Background(Wait(waits)) && Valid(w.s)
    ensures var mid, t := Run(w, Wait(waits)), Run(w, Wait(waits) + [Offer(data[0])]);
            && t == Move(mid, Offer(data[0])) && mid.seen.accepted == w.seen.accepted && Valid(mid.s)
            && Run(w, PutSteps(w, data, waits)) ==
               if |mid.s.tx| < TX_SIZE then Run(t, PutSteps(t, data[1..], Later(waits))) else t
  {
    var one := Wait(waits) + [Offer(data[0])];
    OneCall(w, Wait(waits), Offer(data[0]));
    QueuesBounded(w, Wait(waits));
    RunAppend(w, one, PutSteps(Run(w, one), data[1..], Later(waits)));
  }

  /** One byte of a get. */
  lemma GetOne(w: World, n: nat, waits: seq<seq<Step>>)
    requires n > 0 && Background(Wait(waits))
    ensures var mid, t := Run(w, Wait(waits)), Run(w, Wait(waits) + [Get]);
            && t == Move(mid, Get) && mid.seen.read == w.seen.read
            && Run(w, GetSteps(w, n, waits)) ==
               if mid.s.rx != [] then Run(t, GetSteps(t, n - 1, Later(waits))) else t
  {
    var one := Wait(waits) + [Get];
    OneCall(w, Wait(waits), Get);
    RunAppend(w, one, GetSteps(Run(w, one), n - 1, Later(waits)));
  }

  /** Which of the bytes put are accepted, up to the first refusal. */
  function Verdicts(w: World, data: seq<byte>, waits: seq<seq<Step>>): seq<bool>
    decreases data
  {
    if data == [] then []
    else if |Run(w, Wait(waits)).s.tx| >= TX_SIZE then [false]
    else [true] + Verdicts(Run(w, Wait(waits) + [Offer(data[0])]), data[1..], Later(waits))
  }

  /**
   * Every put is an offer of the port that the transfer code is modelled over: whatever goes on
   * meanwhile, there is a script of verdicts under which the port accepts just the bytes that the
   * broker accepts.
   */
  lemma {:induction false} PutMeetsVerdicts(w: World, data: seq<byte>, waits: seq<seq<Step>>)
    requires Valid(w.s) && forall v :: v in waits ==> Background(v)
    ensures var verdicts := Verdicts(w, data, waits);
            && Run(w, PutSteps(w, data, waits)).seen.accepted ==
               w.seen.accepted + data[..Serial.Queued(verdicts, |data|)]
            && Serial.AfterOffer(verdicts, |data|) == []
    decreases data
  {
    if data != [] {
      PutOne(w, data, waits);
      var t := Run(w, Wait(waits) + [Offer(data[0])]);
      if |Run(w, Wait(waits)).s.tx| < TX_SIZE {
        var later := Verdicts(t, data[1..], Later(waits));
        PutMeetsVerdicts(t, data[1..], Later(waits));
        assert ([true] + later)[1..] == later;
        Prefixed(w.seen.accepted, data, Serial.Queued(later, |data| - 1));
      }
    }
  }

  /** The steps of one timed read after the other. */
  function GetAll(waits: seq<seq<Step>>): seq<Step> {
    if waits == [] then [] else waits[0] + [Get] + GetAll(waits[1..])
  }

  /** What each of these reads answers. */
  function Answers(w: World, waits: seq<seq<Step>>): seq<Serial.Arrival>
    decreases waits
  {
    if waits == [] then []
    else
      var rx := Run(w, waits[0]).s.rx;
      [if rx != [] then Serial.Byte(rx[0]) else Serial.Silence] + Answers(Run(w, waits[0] + [Get]), waits[1..])
  }

  function BytesIn(arrivals: seq<Serial.Arrival>): seq<byte> {
    if arrivals == [] then []
    else (if arrivals[0].Byte? then [arrivals[0].b] else []) + BytesIn(arrivals[1..])
  }

  /**
   * Likewise every series of timed reads is a script of arrivals for the port: its bytes are those
   * that the broker hands out, in order, and its pauses the reads that time out.
   */
  lemma {:induction false} GetsMeetArrivals(w: World, waits: seq<seq<Step>>)
    requires forall v :: v in waits ==> Background(v)
    ensures |Answers(w, waits)| == |waits|
    ensures Run(w, GetAll(waits)).seen.read == w.seen.read + BytesIn(Answers(w, waits))
    decreases waits
  {
    if waits != [] {
      var one, rest := waits[0] + [Get], waits[1..];
      OneCall(w, waits[0], Get);
      RunAppend(w, one, GetAll(rest));
      GetsMeetArrivals(Run(w, one), rest);
      var later := Answers(Run(w, one), rest);
      assert Answers(w, waits)[1..] == later;
      ReadOn(w.seen.read, Run(w, waits[0]).s.rx, BytesIn(later));
    }
  }

  lemma ReadOn(read: seq<byte>, rx: seq<byte>, later: seq<byte>)
    ensures rx != [] ==> (read + [rx[0]]) + later == read + ([rx[0]] + later)
    ensures read + ([] + later) == read + later
  {
  }

  /** Each byte arrives while its read waits. */
  function Feeding(arrivals: seq<Serial.Arrival>): seq<seq<Step>> {
    seq(|arrivals|, i requires 0 <= i < |arrivals| =>
      if arrivals[i].Byte? then [Arrive(arrivals[i].b)] else [])
  }

  /** And every script without faults happens. */
  lemma {:induction false} EveryScriptHappens(w: World, arrivals: seq<Serial.Arrival>)
    requires w.s.rx == [] && forall i :: 0 <= i < |arrivals| ==> !arrivals[i].Fault?
    ensures Answers(w, Feeding(arrivals)) == arrivals
    decreases arrivals
  {
    if arrivals != [] {
      var waits := Feeding(arrivals);
      assert waits[1..] == Feeding(arrivals[1..]);
      RunAppend(w, waits[0], [Get]);
      if arrivals[0].Byte? {
        FedOne(w, arrivals[0].b);
      } else {
        assert Run(w, [Get]) == Run(Move(w, Get), []);
      }
      EveryScriptHappens(Run(w, waits[0] + [Get]), arrivals[1..]);
    }
  }

  lemma FedOne(w: World, b: byte)
    requires w.s.rx == []
    ensures Run(w, [Arrive(b)]).s.rx == [b] && Run(Run(w, [Arrive(b)]), [Get]).s.rx == []
  {
    var v := Move(w, Arrive(b));
    assert Run(w, [Arrive(b)]) == Run(v, []);
    assert Run(v, [Get]) == Run(Move(v, Get), []);
  }

  lemma Prefixed(a: seq<byte>, data: seq<byte>, n: nat)
    requires n < |data|
    ensures (a + [data[0]]) + data[1..][..n] == a + data[..n + 1]
  {
  }

  // ---- Puts and reads together ----------------------------------------------------------------

  /** One call of a caller; `waits` and `wait` say what goes on before and while it waits. */
  datatype Call = Sends(data: seq<byte>, waits: seq<seq<Step>>) | Reads(wait: seq<Step>)

  /** What a call answers: how many bytes were accepted, or what was read. */
  datatype Answer = Took(n: int) | Got(a: Serial.Arrival)

  predicate Patient(calls: seq<Call>) {
    forall i :: 0 <= i < |calls| ==>
      match calls[i]
      case Sends(_, waits) => forall v :: v in waits ==> Background(v)
      case Reads(wait) => Background(wait)
  }

  /** The broker after one call. */
  function Called(w: World, c: Call): World {
    match c
    case Sends(data, waits) => Run(w, PutSteps(w, data, waits))
    case Reads(wait) => Run(w, wait + [Get])
  }

  /** What the broker answers: how many more bytes it has accepted, or the byte at the front of its queue. */
  function BrokerAnswer(w: World, c: Call): Answer {
    match c
    case Sends(_, _) => Took(|Called(w, c).seen.accepted| - |w.seen.accepted|)
    case Reads(wait) =>
      var rx := Run(w, wait).s.rx;
      Got(if rx != [] then Serial.Byte(rx[0]) else Serial.Silence)
  }

  function BrokerAnswers(w: World, calls: seq<Call>): seq<Answer>
    decreases calls
  {
    if calls == [] then [] else [BrokerAnswer(w, calls[0])] + BrokerAnswers(Called(w, calls[0]), calls[1..])
  }

  function AllCalled(w: World, calls: seq<Call>): World
    decreases calls
  {
    if calls == [] then w else AllCalled(Called(w, calls[0]), calls[1..])
  }

  /** The transfer's port after one call, and what it answers. */
  function PortCalled(io: Serial.Io, c: Call): Serial.Io {
    match c
    case Sends(data, _) => io.Offer(data)
    case Reads(_) => io.Advance()
  }

  function PortAnswer(io: Serial.Io, c: Call): Answer {
    match c
    case Sends(data, _) => Took(Serial.Queued(io.verdicts, |data|))
    case Reads(_) => Got(io.Next())
  }

  function PortAnswers(io: Serial.Io, calls: seq<Call>): seq<Answer>
    decreases calls
  {
    if calls == [] then [] else [PortAnswer(io, calls[0])] + PortAnswers(PortCalled(io, calls[0]), calls[1..])
  }

  /** The verdicts that one call meets. */
  function VerdictsBy(w: World, c: Call): seq<bool> {
    match c
    case Sends(data, waits) => Verdicts(w, data, waits)
    case Reads(_) => []
  }

  /** What one answer says was read. */
  function ReadBy(a: Answer): seq<Serial.Arrival> {
    match a
    case Took(_) => []
    case Got(arrival) => [arrival]
  }

  /** What one answer says was accepted: the front of the data put. */
  function AcceptedBy(c: Call, a: Answer): seq<byte> {
    if c.Sends? && a.Took? && 0 <= a.n <= |c.data| then c.data[..a.n] else []
  }

  /** The one script of verdicts, and the one of arrivals, that the broker's run amounts to. */
  function VerdictsOf(w: World, calls: seq<Call>): seq<bool>
    decreases calls
  {
    if calls == [] then [] else VerdictsBy(w, calls[0]) + VerdictsOf(Called(w, calls[0]), calls[1..])
  }

  function ArrivalsOf(w: World, calls: seq<Call>): seq<Serial.Arrival>
    decreases calls
  {
    if calls == [] then []
    else ReadBy(BrokerAnswer(w, calls[0])) + ArrivalsOf(Called(w, calls[0]), calls[1..])
  }

  function Accepted(calls: seq<Call>, answers: seq<Answer>): seq<byte> {
    if calls == [] || answers == [] then []
    else AcceptedBy(calls[0], answers[0]) + Accepted(calls[1..], answers[1..])
  }

  /** An offer under these verdicts and more: it uses up just these. */
  lemma {:induction false} OfferUses(w: World, data: seq<byte>, waits: seq<seq<Step>>, more: seq<bool>)
    ensures var verdicts := Verdicts(w, data, waits);
            && Serial.Queued(verdicts + more, |data|) == Serial.Queued(verdicts, |data|)
            && Serial.AfterOffer(verdicts + more, |data|) == more
    decreases data
  {
    var verdicts := Verdicts(w, data, waits);
    if data == [] {
      assert verdicts + more == more;
    } else if |Run(w, Wait(waits)).s.tx| >= TX_SIZE {
      assert (verdicts + more)[1..] == more;
    } else {
      var t := Run(w, Wait(waits) + [Offer(data[0])]);
      var later := Verdicts(t, data[1..], Later(waits));
      OfferUses(t, data[1..], Later(waits), more);
      assert ([true] + later)[1..] == later;
      assert (verdicts + more)[1..] == later + more;
    }
  }

  /** The port's answer to one call is the broker's, and the port has the rest of its scripts left. */
  predicate Meets(w: World, c: Call, io: Serial.Io, verdicts: seq<bool>, arrivals: seq<Serial.Arrival>) {
    var a, io1, w1 := BrokerAnswer(w, c), PortCalled(io, c), Called(w, c);
    && PortAnswer(io, c) == a && Valid(w1.s)
    && io1.verdicts == verdicts && io1.pos <= |io1.rx| && io1.rx[io1.pos..] == arrivals
    && w1.seen.accepted == w.seen.accepted + AcceptedBy(c, a)
    && w1.seen.read == w.seen.read + BytesIn(ReadBy(a))
  }

  /** One put, in the broker and at the port. */
  lemma PutMeetsPort(w: World, c: Call, io: Serial.Io, more: seq<bool>, arrivals: seq<Serial.Arrival>)
    requires Valid(w.s) && c.Sends? && forall v :: v in c.waits ==> Background(v)
    requires io.verdicts == VerdictsBy(w, c) + more && io.pos <= |io.rx| && io.rx[io.pos..] == arrivals
    ensures Meets(w, c, io, more, arrivals)
  {
    PutMeetsVerdicts(w, c.data, c.waits);
    OfferUses(w, c.data, c.waits, more);
    QueuesBounded(w, PutSteps(w, c.data, c.waits));
    PutReadsNothing(w, c.data, c.waits);
    assert w.seen.read + [] == w.seen.read;
  }

  lemma {:induction false} PutReadsNothing(w: World, data: seq<byte>, waits: seq<seq<Step>>)
    requires Valid(w.s) && forall v :: v in waits ==> Background(v)
    ensures Run(w, PutSteps(w, data, waits)).seen.read == w.seen.read
    decreases data
  {
    if data != [] {
      PutOne(w, data, waits);
      BackgroundIsNoCaller(w, Wait(waits));
      if |Run(w, Wait(waits)).s.tx| < TX_SIZE {
        PutReadsNothing(Run(w, Wait(waits) + [Offer(data[0])]), data[1..], Later(waits));
      }
    }
  }

  /** One read, in the broker and at the port. */
  lemma ReadMeetsPort(w: World, c: Call, io: Serial.Io, verdicts: seq<bool>, more: seq<Serial.Arrival>)
    requires Valid(w.s) && c.Reads? && Background(c.wait) && io.verdicts == verdicts
    requires io.pos <= |io.rx| && io.rx[io.pos..] == ReadBy(BrokerAnswer(w, c)) + more
    ensures Meets(w, c, io, verdicts, more)
  {
    OneCall(w, c.wait, Get);
    QueuesBounded(w, c.wait + [Get]);
    var a := BrokerAnswer(w, c).a;
    assert io.rx[io.pos..][0] == a && io.rx[io.pos..][1..] == more;
    assert [a][1..] == [] && w.seen.read + [] == w.seen.read && w.seen.accepted + [] == w.seen.accepted;
    assert BytesIn([a]) == (if a.Byte? then [a.b] else []) + BytesIn([]);
  }

  lemma PatientRest(calls: seq<Call>)
    requires Patient(calls) && calls != []
    ensures Patient(calls[1..])
  {
    assert forall i :: 0 <= i < |calls[1..]| ==> calls[1..][i] == calls[i + 1];
  }

  lemma {:induction false} BytesInAppend(a: seq<Serial.Arrival>, b: seq<Serial.Arrival>)
    ensures BytesIn(a + b) == BytesIn(a) + BytesIn(b)
  {
    if a == [] {
      assert a + b == b;
    } else {
      assert (a + b)[0] == a[0] && (a + b)[1..] == a[1..] + b;
      BytesInAppend(a[1..], b);
    }
  }

  /**
   * A caller's puts and timed reads, in any order and with any background activity, are what they would
   * be at the port that the transfer code is modelled over, under one script of verdicts and one of arrivals:
   * each call has the same answer, the bytes accepted are those the answers say, and the bytes read those that
   * arrived. So what holds of the transfer code for all scripts holds over the broker.
   */
  lemma {:induction false} CallsMeetPort(w: World, calls: seq<Call>, io: Serial.Io)
    requires Valid(w.s) && Patient(calls) && io.pos <= |io.rx|
    requires io.verdicts == VerdictsOf(w, calls) && io.rx[io.pos..] == ArrivalsOf(w, calls)
    ensures PortAnswers(io, calls) == BrokerAnswers(w, calls)
    ensures AllCalled(w, calls).seen.accepted == w.seen.accepted + Accepted(calls, BrokerAnswers(w, calls))
    ensures AllCalled(w, calls).seen.read == w.seen.read + BytesIn(ArrivalsOf(w, calls))
    decreases calls
  {
    if calls != [] {
      var c, rest := calls[0], calls[1..];
      assert [c] + rest == calls;
      var w1, io1 := CallMeetsPort(w, calls, io);
      CallsMeetPort(w1, rest, io1);
      Rejoin(w.seen.accepted, AcceptedBy(c, BrokerAnswer(w, c)), Accepted(rest, BrokerAnswers(w1, rest)));
      BytesInAppend(ReadBy(BrokerAnswer(w, c)), ArrivalsOf(w1, rest));
      Rejoin(w.seen.read, BytesIn(ReadBy(BrokerAnswer(w, c))), BytesIn(ArrivalsOf(w1, rest)));
      AnswersCons(w, c, rest, w1);
    }
  }

  lemma CallMeetsPort(w: World, calls: seq<Call>, io: Serial.Io) returns (w1: World, io1: Serial.Io)
    requires Valid(w.s) && Patient(calls) && calls != [] && io.pos <= |io.rx|
    requires io.verdicts == VerdictsOf(w, calls) && io.rx[io.pos..] == ArrivalsOf(w, calls)
    ensures w1 == Called(w, calls[0]) && io1 == PortCalled(io, calls[0]) && Patient(calls[1..])
    ensures Meets(w, calls[0], io, VerdictsOf(w1, calls[1..]), ArrivalsOf(w1, calls[1..]))
  {
    w1, io1 := Called(w, calls[0]), PortCalled(io, calls[0]);
    PatientRest(calls);
    var verdicts, arrivals := VerdictsOf(w1, calls[1..]), ArrivalsOf(w1, calls[1..]);
    if calls[0].Sends? {
      assert [] + arrivals == arrivals;
      PutMeetsPort(w, calls[0], io, verdicts, arrivals);
    } else {
      assert [] + verdicts == verdicts;
      ReadMeetsPort(w, calls[0], io, verdicts, arrivals);
    }
  }

  lemma AnswersCons(w: World, c: Call, rest: seq<Call>, w1: World)
    requires w1 == Called(w, c)
    ensures var a, answers := BrokerAnswer(w, c), BrokerAnswers(w1, rest);
            && BrokerAnswers(w, [c] + rest) == [a] + answers
            && Accepted([c] + rest, [a] + answers) == AcceptedBy(c, a) + Accepted(rest, answers)
  {
    var a, answers := BrokerAnswer(w, c), BrokerAnswers(w1, rest);
    assert ([c] + rest)[1..] == rest && ([a] + answers)[1..] == answers;
  }

  /**
   * The module's state; `seen` records what callers and line have seen since some moment, and no
   * decision depends on it.
   */
  class Broker {
    var msgqTx: seq<byte>
    var msgqRx: seq<byte>
    var taken: Option<byte>
    var isEcho: bool
    var wire: seq<Outgoing>
    ghost var seen: Seen

    ghost function View(): World
      reads this
    {
      World(State(msgqTx, msgqRx, taken, isEcho, wire), seen)
    }

    constructor ()
      ensures View() == START
    {
      msgqTx, msgqRx, taken, isEcho, wire, seen := [], [], None, true, [], NOTHING;
    }

    /** The interrupt, with one byte `b` in the UART. */
    method FifoCallback(b: byte)
      modifies this
      ensures View() == Move(old(View()), Arrive(b))
    {
      seen := See(View().s, Arrive(b), seen);
      if |msgqRx| < RX_SIZE {
        msgqRx := msgqRx + [b];
      }
      if isEcho {
        wire := wire + [Outgoing(b, true)];
      }
    }

    /** The thread takes a byte, or finds none. */
    method ThreadTake()
      modifies this
      ensures View() == Move(old(View()), Pull)
    {
      if taken.None? && msgqTx != [] {
        taken, msgqTx := Some(msgqTx[0]), msgqTx[1..];
      }
    }

    method ThreadSend()
      modifies this
      ensures View() == Move(old(View()), Push)
    {
      if taken.Some? {
        wire, taken := wire + [Outgoing(taken.value, false)], None;
      }
    }

    /** Time passes for a waiting caller. */
    method Elapse(steps: seq<Step>)
      requires Background(steps)
      modifies this
      ensures View() == Run(old(View()), steps)
    {
      var i := 0;
      while i < |steps|
        invariant 0 <= i <= |steps|
        invariant Run(old(View()), steps) == Run(View(), steps[i..])
      {
        assert steps[i] in steps;
        match steps[i] {
          case Arrive(b) => FifoCallback(b);
          case Pull => ThreadTake();
          case Push => ThreadSend();
          case _ => assert false;
        }
        i := i + 1;
      }
    }

    method PutByte(b: byte, wait: seq<Step>) returns (ret: int)
      requires Background(wait)
      modifies this
      ensures View() == Run(old(View()), wait + [Offer(b)])
      ensures ret == if |Run(old(View()), wait).s.tx| < TX_SIZE then 0 else Serial.EAGAIN
    {
      OneCall(View(), wait, Offer(b));
      Elapse(wait);
      seen := See(View().s, Offer(b), seen);
      if |msgqTx| < TX_SIZE {
        msgqTx := msgqTx + [b];
        ret := 0;
      } else {
        ret := Serial.EAGAIN;
      }
    }

    method GetByte(wait: seq<Step>) returns (ret: int, b: byte)
      requires Background(wait)
      modifies this
      ensures View() == Run(old(View()), wait + [Get])
      ensures var rx := Run(old(View()), wait).s.rx; if rx != [] then ret == 0 && b == rx[0] else ret == -11
    {
      OneCall(View(), wait, Get);
      Elapse(wait);
      seen := See(View().s, Get, seen);
      if msgqRx != [] {
        b, msgqRx := msgqRx[0], msgqRx[1..];
        ret := 0;
      } else {
        ret, b := Serial.EAGAIN, 0;
      }
    }

    method ClearReceiveQueue()
      modifies this
      ensures View() == Move(old(View()), Purge)
    {
      msgqRx := [];
    }

    method SetEcho(echo: bool) returns (r: bool)
      modifies this
      ensures View() == Move(old(View()), Step.SetEcho(echo)) && r == echo
    {
      isEcho := echo;
      r := echo;
    }

    /** Puts bytes until one is refused, which only a full queue does, and says how many were accepted. */
    method Put(data: array<byte>, len: nat, waits: seq<seq<Step>>) returns (cnt: nat)
      requires len <= data.Length && Valid(View().s) && forall w :: w in waits ==> Background(w)
      modifies this
      ensures View() == Run(old(View()), PutSteps(old(View()), data[..len], waits))
      ensures cnt <= len && seen.accepted == old(seen).accepted + data[..cnt]
      ensures cnt < len ==> |msgqTx| == TX_SIZE
    {
      ghost var bytes := data[..len];
      ghost var all := Run(View(), PutSteps(View(), bytes, waits));
      cnt := 0;
      var i, rest := 0, waits;
      while i < len
        invariant 0 <= i <= len && cnt == i && Valid(View().s) && forall w :: w in rest ==> Background(w)
        invariant all == Run(View(), PutSteps(View(), bytes[i..], rest))
        invariant seen.accepted == old(seen).accepted + bytes[..i]
      {
        PutOne(View(), bytes[i..], rest);
        assert bytes[i..][1..] == bytes[i + 1..] && bytes[..i] + [bytes[i]] == bytes[..i + 1];
        var ret := PutByte(data[i], Wait(rest));
        if ret != 0 {
          break;
        }
        cnt, i, rest := cnt + 1, i + 1, Later(rest);
      }
      assert data[..cnt] == bytes[..cnt];
    }

    /** Gets up to `len` bytes into `data`, until the queue stays empty, and says how many. */
    method Read(data: array<byte>, len: nat, waits: seq<seq<Step>>) returns (cnt: nat)
      requires len <= data.Length && forall w :: w in waits ==> Background(w)
      modifies this, data
      ensures View() == Run(old(View()), GetSteps(old(View()), len, waits))
      ensures cnt <= len && seen.read == old(seen).read + data[..cnt] && data[cnt..] == old(data[cnt..])
      ensures cnt < len ==> msgqRx == []
    {
      ghost var all := Run(View(), GetSteps(View(), len, waits));
      cnt := 0;
      var i, rest := 0, waits;
      while i < len
        invariant 0 <= i <= len && cnt == i && forall w :: w in rest ==> Background(w)
        invariant all == Run(View(), GetSteps(View(), len - i, rest))
        invariant data[i..] == old(data[i..]) && seen.read == old(seen).read + data[..i]
      {
        GetOne(View(), len - i, rest);
        var ret, b := GetByte(Wait(rest));
        if ret != 0 {
          break;
        }
        data[i] := b;
        cnt, i, rest := cnt + 1, i + 1, Later(rest);
      }
    }
  }
}
