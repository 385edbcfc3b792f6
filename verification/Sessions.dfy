/**
 * Whole sessions: from a run of `Transfer` to the scripts under which the two drivers do what its two
 * ends do, and what that makes of an upload.
 */
module Sessions {
  import opened Bytes
  import opened Serial
  import opened Xmodem
  import opened UploadRuns
  import opened Refinement
  import Upload
  import Download
  import T = Transfer

  // ---- The upload, message by message ---------------------------------------------------

  /** While the first block is awaited, nothing has been taken. */
  predicate Awaiting(io: Io, st: T.State) {
    && st.r.phase == T.First && st.r.bn == 0 && st.r.got == [] && st.r.cnt <= 10
    && Willing(io) && Given(io.trace) == []
  }

  /** The session goes on behind the wait for its first block, which came to `first`, as the system's receiver does. */
  predicate FirstEndsAs(size: nat, from: Io, first: Upload.FirstEnd, st: T.State, more: seq<byte>) {
    match first
    case NotStarted(io, _) =>
      && st.r.phase == T.Stopped && st.r.got == [] == Given(io.trace) && Said(io.trace) == Said(from.trace) + more
    case Started(io, block) =>
      && io.pos <= |io.rx| && |block| == FRAME && st.r.got != []
      && EndsAs(size, from, Upload.Callback(size, io, block), st, more)
  }

  /** The pass `t`, the first of those that come to `first`, ends the loop or leads to its next, and stands at `at`. */
  predicate Passes(io: Io, cnt: nat, t: Upload.FirstTurn, first: Upload.FirstEnd, at: nat) {
    match t
    case Ended(e) => first == e && e.io.rx == io.rx && e.io.pos == at
    case Again(io1, b) =>
      && cnt < 10 && |b| == FRAME && io1.rx == io.rx && io1.pos == at && at <= |io.rx|
      && first == Upload.FirstLoop(io1, cnt + 1, b)
  }

  /** One pass of the first-block loop, on the first of the messages `items`. */
  lemma FirstPass(io: Io, block: seq<byte>, st: T.State, items: seq<T.Item>, first: Upload.FirstEnd)
    returns (t: Upload.FirstTurn, st1: T.State, more: seq<byte>, at: nat)
    requires Awaiting(io, st) && |block| == FRAME && items != [] && ArriveAll(io.rx, io.pos, items)
    requires first == Upload.FirstLoop(io, st.r.cnt, block)
    ensures at <= |io.rx| && ArriveAll(io.rx, at, items[1..])
    ensures Hearing(st, items) == Hearing(st1, items[1..]) && FirstFollows(io, t, st, st1, more)
    ensures Passes(io, st.r.cnt, t, first, at) && (t.Again? ==> Awaiting(t.io, st1) && st1.r.cnt == st.r.cnt + 1)
  {
    t, st1, more, at := ItemPass(io, block, st, items[0], first);
  }

  lemma ItemPass(io: Io, block: seq<byte>, st: T.State, item: T.Item, first: Upload.FirstEnd)
    returns (t: Upload.FirstTurn, st1: T.State, more: seq<byte>, at: nat)
    requires Awaiting(io, st) && |block| == FRAME && Arrives(io, T.BytesOf(item))
    requires first == Upload.FirstLoop(io, st.r.cnt, block)
    ensures at == Behind(io.rx, io.pos, T.BytesOf(item)) && at <= |io.rx|
    ensures st1 == HearItem(st, item) && FirstFollows(io, t, st, st1, more)
    ensures Passes(io, st.r.cnt, t, first, at) && (t.Again? ==> Awaiting(t.io, st1) && st1.r.cnt == st.r.cnt + 1)
  {
    at := Behind(io.rx, io.pos, T.BytesOf(item));
    t, st1, more := ItemHeard(io, block, st, item);
    FirstTurnPlaces(io, st.r.cnt, block, t, first, at);
  }

  lemma ItemHeard(io: Io, block: seq<byte>, st: T.State, item: T.Item)
    returns (t: Upload.FirstTurn, st1: T.State, more: seq<byte>)
    requires Awaiting(io, st) && |block| == FRAME && Arrives(io, T.BytesOf(item))
    ensures t == Upload.FirstReact(st.r.cnt, block, Receive(io, 0)) && st1 == HearItem(st, item)
    ensures FirstFollows(io, t, st, st1, more)
    ensures Receive(io, 0).io.pos == Behind(io.rx, io.pos, T.BytesOf(item))
  {
    st1 := HearItem(st, item);
    more := FirstTurnFollows(io, block, st, T.BytesOf(item), if item.Block? then item.chunk else 0);
    t := Upload.FirstReact(st.r.cnt, block, Receive(io, 0));
  }

  /** A pass leaves the stream where its receive has left it, and the loop goes on or ends with it. */
  lemma FirstTurnPlaces(io: Io, cnt: nat, block: seq<byte>, t: Upload.FirstTurn, first: Upload.FirstEnd, at: nat)
    requires io.pos <= |io.rx| && cnt <= 10 && |block| == FRAME && at == Receive(io, 0).io.pos
    requires t == Upload.FirstReact(cnt, block, Receive(io, 0)) && first == Upload.FirstLoop(io, cnt, block)
    ensures at <= |io.rx| && Passes(io, cnt, t, first, at)
  {
    ReceiveProgress(io, 0);
    FirstReactPlaces(io, cnt, block, Receive(io, 0), t);
  }

  /** The reaction leaves the stream where the receive has left it. */
  lemma FirstReactPlaces(io: Io, cnt: nat, block: seq<byte>, r: Received, t: Upload.FirstTurn)
    requires |block| == FRAME && |r.got| <= FRAME && r.io.rx == io.rx && t == Upload.FirstReact(cnt, block, r)
    ensures t.Ended? ==> t.end.io.rx == io.rx && t.end.io.pos == r.io.pos
    ensures t.Again? ==> t.io.rx == io.rx && t.io.pos == r.io.pos && |t.block| == FRAME && cnt < 10
  {
  }

  /** The callback's whole session, entered with the first block, over the messages behind it. */
  lemma CallbackFollows(size: nat, from: Io, io: Io, block: seq<byte>, st: T.State, items: seq<T.Item>,
                        said: seq<byte>)
    returns (more: seq<byte>)
    requires io.pos <= |io.rx| && |block| == FRAME && Willing(io) && ArriveAll(io.rx, io.pos, items)
    requires var s := Upload.Cb(io.Write(block[3..131]).Offer([ACK]), 1, 0, 128, block);
             Agree(s, st) && Said(s.io.trace) == Said(from.trace) + said && CAN !in said
    requires !T.Awake(Hearing(st, items).r)
    ensures OnlyReceiver(st, Hearing(st, items), more)
    ensures FirstEndsAs(size, from, Upload.Started(io, block), Hearing(st, items), said + more)
  {
    var s := Upload.Cb(io.Write(block[3..131]).Offer([ACK]), 1, 0, 128, block);
    CallbackEnters(size, io, block);
    var n;
    n, more := LoopFollows(size, s, st, items);
    TakenStays(st, items);
    EndsFurther(size, from, s.io, Upload.CbLoop(size, s), Hearing(st, items), said, more);
  }

  lemma EndsFurther(size: nat, from: Io, mid: Io, end: Upload.CbEnd, st: T.State, said: seq<byte>, more: seq<byte>)
    requires EndsAs(size, mid, end, st, more) && Said(mid.trace) == Said(from.trace) + said && CAN !in said
    ensures EndsAs(size, from, end, st, said + more)
  {
    assert (Said(from.trace) + said) + more == Said(from.trace) + (said + more);
  }

  /** What has been taken is never given back. */
  lemma {:induction false} TakenStays(st: T.State, items: seq<T.Item>)
    ensures |st.r.got| <= |Hearing(st, items).r.got|
    decreases |items|
  {
    if items != [] && T.Awake(st.r) {
      TakenStays(HearItem(st, items[0]), items[1..]);
    }
  }

  /** Message after message, up to the end of the session. */
  lemma {:induction false} FirstLoopFollows(size: nat, io: Io, block: seq<byte>, st: T.State, items: seq<T.Item>,
                                            first: Upload.FirstEnd)
    returns (more: seq<byte>)
    requires Awaiting(io, st) && |block| == FRAME && io.pos <= |io.rx| && ArriveAll(io.rx, io.pos, items)
    requires first == Upload.FirstLoop(io, st.r.cnt, block) && !T.Awake(Hearing(st, items).r)
    ensures OnlyReceiver(st, Hearing(st, items), more)
    ensures FirstEndsAs(size, io, first, Hearing(st, items), more)
    decreases |items|
  {
    var t, st1, at;
    t, st1, more, at := FirstPass(io, block, st, items, first);
    match t {
      case Again(io1, b) =>
        var rest := FirstLoopFollows(size, io1, b, st1, items[1..], first);
        FurtherOn(size, io, io1, first, Hearing(st, items), more, rest);
        Joined(st.up, [], more, rest);
        more := more + rest;
      case Ended(Started(io1, b)) =>
        var rest := CallbackFollows(size, io, io1, b, st1, items[1..], more);
        Joined(st.up, [], more, rest);
        more := more + rest;
      case Ended(NotStarted(_, _)) =>
    }
  }

  lemma FurtherOn(size: nat, from: Io, mid: Io, first: Upload.FirstEnd, st: T.State, said: seq<byte>, more: seq<byte>)
    requires FirstEndsAs(size, mid, first, st, more) && Said(mid.trace) == Said(from.trace) + said && CAN !in said
    ensures FirstEndsAs(size, from, first, st, said + more)
  {
    assert (Said(from.trace) + said) + more == Said(from.trace) + (said + more);
    if first.Started? {
      EndsFurther(size, from, mid, Upload.Callback(size, first.io, first.block), st, said, more);
    }
  }

  /**
   * The session `e` has delivered and said what the system's receiver has taken and said, and is reported
   * a success exactly when that receiver has taken a block, did not give up, and took what was declared.
   */
  predicate Reports(size: nat, accepted: bool, e: Upload.FputEnd, st: T.State) {
    && Given(e.io.trace) == st.r.got && Said(e.io.trace) == st.up
    && (e.ok <==> accepted && st.r.got != [] && CAN !in st.up && T.Enough(size, st.r))
    && (st.r.phase == T.Finished ==> st.r.got != [] && CAN !in st.up)
  }

  /** The whole upload, over any list of messages that ends it, is the system's receiver hearing them. */
  lemma FputFollows(size: nat, io: Io, block: seq<byte>, accepted: bool, items: seq<T.Item>)
    requires Willing(io) && io.trace == [] && |block| == FRAME && io.pos <= |io.rx|
    requires ArriveAll(io.rx, io.pos, items) && !T.Awake(Hearing(T.INIT, items).r)
    ensures Reports(size, accepted, Upload.Fput(io, block, size, true, accepted), Hearing(T.INIT, items))
  {
    GivenNothing();
    GivenOffer(io, NAK);
    SaidOffer(io, NAK);
    var io1 := io.Offer([NAK]);
    var first := Upload.FirstLoop(io1, T.INIT.r.cnt, block);
    var more := FirstLoopFollows(size, io1, block, T.INIT, items, first);
    FputReports(size, io, io1, block, accepted, first, Hearing(T.INIT, items), more);
  }

  lemma FputReports(size: nat, io: Io, io1: Io, block: seq<byte>, accepted: bool, first: Upload.FirstEnd,
                    st: T.State, more: seq<byte>)
    requires Willing(io) && |block| == FRAME && io.pos <= |io.rx| && io1 == io.Offer([NAK])
    requires first == Upload.FirstLoop(io1, 0, block) && FirstEndsAs(size, io1, first, st, more)
    requires Said(io1.trace) == [NAK] && st.up == [NAK] + more && !T.Awake(st.r)
    ensures Reports(size, accepted, Upload.Fput(io, block, size, true, accepted), st)
  {
  }

  // ---- From a run to the upload's script ------------------------------------------------

  /** The receiver does nothing but hear messages and pauses. */
  predicate Unforced(steps: seq<T.Step>) {
    forall i :: 0 <= i < |steps| ==> !steps[i].ReceiverStops?
  }

  /** What the receiver hears in one step from `st`; a timeout is the message of no bytes. */
  function HeardBy(st: T.State, step: T.Step): seq<T.Item> {
    match step
    case ReceiverHears => if st.down == [] then [] else [st.down[0]]
    case ReceiverTimesOut => [T.Noise([])]
    case _ => []
  }

  /** All that the receiver hears in a run, in order. */
  function HeardIn(chunks: seq<seq<byte>>, steps: seq<T.Step>): seq<T.Item>
    requires T.Fits(chunks)
  {
    if steps == [] then []
    else
      var init := steps[..|steps| - 1];
      match T.Run(chunks, init)
      case None => []
      case Some(st) => HeardIn(chunks, init) + HeardBy(st, steps[|steps| - 1])
  }

  lemma {:induction false} HearingMore(st: T.State, items: seq<T.Item>, item: T.Item)
    ensures Hearing(st, items + [item]) ==
            if T.Awake(Hearing(st, items).r) then HearItem(Hearing(st, items), item) else Hearing(st, items)
    decreases |items|
  {
    if items == [] {
      assert ([] + [item])[0] == item && ([] + [item])[1..] == [];
    } else {
      assert (items + [item])[0] == items[0] && (items + [item])[1..] == items[1..] + [item];
      if T.Awake(st.r) {
        HearingMore(HearItem(st, items[0]), items[1..], item);
      }
    }
  }

  /** What the receiver says in one step from `st`. */
  function SaidBy(st: T.State, step: T.Step): seq<byte> {
    var items := HeardBy(st, step);
    if items == [] then [] else HearItem(st.(up := []), items[0]).up
  }

  /** All that the receiver says in a run, in order, from its opening NAK on. */
  function SaidIn(chunks: seq<seq<byte>>, steps: seq<T.Step>): seq<byte>
    requires T.Fits(chunks)
  {
    if steps == [] then T.INIT.up
    else
      var init := steps[..|steps| - 1];
      match T.Run(chunks, init)
      case None => []
      case Some(st) => SaidIn(chunks, init) + SaidBy(st, steps[|steps| - 1])
  }

  /** Where the receiver goes and what it says depends on the receiver alone. */
  lemma ReceiverAlone(a: T.State, b: T.State, h: Received, chunk: nat)
    requires a.r == b.r
    ensures T.React(a, h, chunk).r == T.React(b, h, chunk).r
    ensures T.React(a, h, chunk).up == a.up + T.React(b.(up := []), h, chunk).up
  {
  }

  lemma OthersLeave(chunks: seq<seq<byte>>, st: T.State, step: T.Step)
    requires T.Fits(chunks) && T.Enabled(st, step)
    requires !step.ReceiverHears? && !step.ReceiverTimesOut? && !step.ReceiverStops?
    ensures T.Apply(chunks, st, step).r == st.r && HeardBy(st, step) == []
  {
  }

  lemma StepHears(chunks: seq<seq<byte>>, st: T.State, step: T.Step, h: T.State)
    requires T.Fits(chunks) && T.Inv(chunks, st) && T.Enabled(st, step) && !step.ReceiverStops? && h.r == st.r
    requires step.ReceiverHears? || step.ReceiverTimesOut?
    ensures |HeardBy(st, step)| == 1 && T.Awake(st.r) && Message(T.BytesOf(HeardBy(st, step)[0]))
    ensures T.Apply(chunks, st, step).r == HearItem(h, HeardBy(st, step)[0]).r
    ensures HearItem(h, HeardBy(st, step)[0]).up == h.up + SaidBy(st, step)
  {
    var item := HeardBy(st, step)[0];
    var rest := if step.ReceiverHears? then st.(down := st.down[1..]) else st;
    if step.ReceiverHears? {
      assert T.Sensible(chunks, st.s.fate, st.down[0]);
    }
    ReceiverAlone(rest, h, T.Understand(st.r.bn, T.BytesOf(item)), if item.Block? then item.chunk else 0);
    ReceiverAlone(h, st, T.Understand(st.r.bn, T.BytesOf(item)), if item.Block? then item.chunk else 0);
  }

  predicate Messages(items: seq<T.Item>) {
    forall i :: 0 <= i < |items| ==> Message(T.BytesOf(items[i]))
  }

  /** In every run the receiver is where hearing these messages takes it, and has said what that makes it say. */
  lemma {:induction false} RunHears(chunks: seq<seq<byte>>, steps: seq<T.Step>)
    requires T.Fits(chunks) && T.Run(chunks, steps).Some? && Unforced(steps)
    ensures T.Run(chunks, steps).value.r == Hearing(T.INIT, HeardIn(chunks, steps)).r
    ensures SaidIn(chunks, steps) == Hearing(T.INIT, HeardIn(chunks, steps)).up
    ensures Messages(HeardIn(chunks, steps))
  {
    if steps != [] {
      var init, step := steps[..|steps| - 1], steps[|steps| - 1];
      var st, items := T.Run(chunks, init).value, HeardIn(chunks, init);
      RunHears(chunks, init);
      T.RunSound(chunks, init);
      if step.ReceiverHears? || step.ReceiverTimesOut? {
        StepHears(chunks, st, step, Hearing(T.INIT, items));
        HearingMore(T.INIT, items, HeardBy(st, step)[0]);
        assert HeardIn(chunks, steps) == items + [HeardBy(st, step)[0]];
      } else {
        OthersLeave(chunks, st, step);
        assert HeardIn(chunks, steps) == items + [] == items;
        assert SaidIn(chunks, steps) == SaidIn(chunks, init) + [] == SaidIn(chunks, init);
      }
    }
  }

  /** A message on the line, with its pause. */
  function OnLine(x: seq<byte>): (a: seq<Arrival>)
    ensures |a| == |x| + if Pauses(x) then 1 else 0
    ensures forall i :: 0 <= i < |x| ==> a[i] == Byte(x[i])
    ensures Pauses(x) ==> a[|x|] == Silence
  {
    T.Arrivals(x) + if Pauses(x) then [Silence] else []
  }

  function Script(items: seq<T.Item>): seq<Arrival> {
    if items == [] then [] else OnLine(T.BytesOf(items[0])) + Script(items[1..])
  }

  lemma {:induction false} ScriptArrives(front: seq<Arrival>, items: seq<T.Item>, rx: seq<Arrival>)
    requires Messages(items) && rx == front + Script(items)
    ensures ArriveAll(rx, |front|, items)
    decreases |items|
  {
    if items != [] {
      var x, rest := T.BytesOf(items[0]), Script(items[1..]);
      Rejoin(front, OnLine(x), rest);
      MessagesRest(items);
      ScriptArrives(front + OnLine(x), items[1..], rx);
      OnLineArrives(front, x, rest, rx);
    }
  }

  lemma MessagesRest(items: seq<T.Item>)
    requires Messages(items) && items != []
    ensures Messages(items[1..]) && Message(T.BytesOf(items[0]))
  {
    assert forall i :: 0 <= i < |items[1..]| ==> items[1..][i] == items[i + 1];
  }

  lemma OnLineArrives(front: seq<Arrival>, x: seq<byte>, rest: seq<Arrival>, rx: seq<Arrival>)
    requires Message(x) && rx == (front + OnLine(x)) + rest
    ensures Arrives(Io(rx, |front|, [], [], []), x) && Behind(rx, |front|, x) == |front + OnLine(x)|
  {
    assert forall i :: 0 <= i < |OnLine(x)| ==> rx[|front| + i] == OnLine(x)[i];
  }

  /** The driver's port with what the receiver hears in a run, and willing to take everything. */
  function HeardPort(chunks: seq<seq<byte>>, steps: seq<T.Step>): Io
    requires T.Fits(chunks)
  {
    Io(Script(HeardIn(chunks, steps)), 0, [], [], [])
  }

  /**
   * The session `e` delivers and says what the receiver of a run, at last `r`, takes and says; it is reported
   * a success exactly when that has taken a block, did not give up, and took what was declared.
   */
  predicate Mirrors(size: nat, accepted: bool, e: Upload.FputEnd, r: T.Receiver, said: seq<byte>) {
    && Given(e.io.trace) == r.got && Said(e.io.trace) == said
    && (e.ok <==> accepted && r.got != [] && CAN !in said && T.Enough(size, r))
    && (r.phase == T.Finished ==> (e.ok <==> accepted && T.Enough(size, r)))
  }

  /** Every run is an upload: over what the run's receiver hears, the driver does what that receiver does. */
  lemma RunIsFput(chunks: seq<seq<byte>>, steps: seq<T.Step>, size: nat, accepted: bool, block: seq<byte>)
    requires T.Fits(chunks) && T.Run(chunks, steps).Some? && Unforced(steps) && |block| == FRAME
    requires !T.Awake(T.Run(chunks, steps).value.r)
    ensures Mirrors(size, accepted, Upload.Fput(HeardPort(chunks, steps), block, size, true, accepted),
                    T.Run(chunks, steps).value.r, SaidIn(chunks, steps))
  {
    var items := HeardIn(chunks, steps);
    RunHears(chunks, steps);
    var rx := Script(items);
    assert [] + rx == rx;
    ScriptArrives([], items, rx);
    FputFollows(size, HeardPort(chunks, steps), block, accepted, items);
    ReportsMirrors(size, accepted, Upload.Fput(HeardPort(chunks, steps), block, size, true, accepted),
                   Hearing(T.INIT, items));
  }

  lemma ReportsMirrors(size: nat, accepted: bool, e: Upload.FputEnd, st: T.State)
    requires Reports(size, accepted, e, st)
    ensures Mirrors(size, accepted, e, st.r, st.up)
  {
  }

  /**
   * Hence the upload of a file, against the code's own sender and over every line of `Transfer`: with the
   * file's size declared, and over what the run's receiver hears, success means that what was delivered
   * begins with the file, and when the receiver finishes, it is reported exactly then.
   */
  lemma UploadIsWhole(file: seq<byte>, steps: seq<T.Step>, block: seq<byte>)
    requires file != [] && T.Run(Download.Chunks(file), steps).Some? && Unforced(steps) && |block| == FRAME
    requires !T.Awake(T.Run(Download.Chunks(file), steps).value.r)
    ensures var r := T.Run(Download.Chunks(file), steps).value.r;
            var e := Upload.Fput(HeardPort(Download.Chunks(file), steps), block, |file|, true, true);
            && Given(e.io.trace) == r.got && (e.ok ==> file <= Flatten(Given(e.io.trace)))
            && (r.phase == T.Finished ==> (e.ok <==> file <= Flatten(Given(e.io.trace))))
  {
    T.EnoughIffFile(file, steps);
    RunIsFput(Download.Chunks(file), steps, |file|, true, block);
  }

  // ---- From a run to the download's script ----------------------------------------------

  predicate Uncancelled(steps: seq<T.Step>) {
    forall i :: 0 <= i < |steps| ==> !steps[i].SenderCancels?
  }

  /** The reply that the sender reads in one step from `st`. */
  function ReplyBy(st: T.State, step: T.Step): seq<Arrival> {
    match step
    case SenderReads => if st.up == [] then [] else [Byte(st.up[0])]
    case SenderTimesOut => [Silence]
    case SenderFaults(code) => [Fault(code)]
    case _ => []
  }

  function RepliesIn(chunks: seq<seq<byte>>, steps: seq<T.Step>): seq<Arrival>
    requires T.Fits(chunks)
  {
    if steps == [] then []
    else
      var init := steps[..|steps| - 1];
      match T.Run(chunks, init)
      case None => []
      case Some(st) => RepliesIn(chunks, init) + ReplyBy(st, steps[|steps| - 1])
  }

  /** The sender sends if it is ready to, and hears `reply`. */
  function Answer(chunks: seq<seq<byte>>, st: T.State, reply: Arrival): T.State
    requires T.Fits(chunks)
  {
    T.Hear(if st.s.phase == T.Ready then T.Send(chunks, st) else st, reply)
  }

  function Replied(chunks: seq<seq<byte>>, st: T.State, replies: seq<Arrival>): T.State
    requires T.Fits(chunks)
    decreases replies
  {
    if replies == [] then st else Replied(chunks, Answer(chunks, st, replies[0]), replies[1..])
  }

  lemma {:induction false} RepliedMore(chunks: seq<seq<byte>>, st: T.State, replies: seq<Arrival>, reply: Arrival)
    requires T.Fits(chunks)
    ensures Replied(chunks, st, replies + [reply]) == Answer(chunks, Replied(chunks, st, replies), reply)
    decreases replies
  {
    if replies == [] {
      assert ([] + [reply])[0] == reply && ([] + [reply])[1..] == [];
    } else {
      assert (replies + [reply])[0] == replies[0] && (replies + [reply])[1..] == replies[1..] + [reply];
      RepliedMore(chunks, Answer(chunks, st, replies[0]), replies[1..], reply);
    }
  }

  /** What the sender puts on the line in one step from `st`. */
  function SentBy(chunks: seq<seq<byte>>, st: T.State, step: T.Step): seq<T.Item>
    requires T.Fits(chunks)
  {
    var quiet := st.(down := []);
    match step
    case SenderSends => T.Send(chunks, quiet).down
    case SenderReads => if st.up == [] then [] else T.Hear(quiet, Byte(st.up[0])).down
    case SenderTimesOut => T.Hear(quiet, Silence).down
    case SenderFaults(code) => T.Hear(quiet, Fault(code)).down
    case _ => []
  }

  /** All that the sender puts on the line in a run, in order. */
  function SentIn(chunks: seq<seq<byte>>, steps: seq<T.Step>): seq<T.Item>
    requires T.Fits(chunks)
  {
    if steps == [] then []
    else
      var init := steps[..|steps| - 1];
      match T.Run(chunks, init)
      case None => []
      case Some(st) => SentIn(chunks, init) + SentBy(chunks, st, steps[|steps| - 1])
  }

  /** A sender at `s` that has sent `sent` stands where `a` does, or has just sent from there. */
  predicate SentFrom(chunks: seq<seq<byte>>, a: T.State, s: T.Sender, sent: seq<T.Item>)
    requires T.Fits(chunks)
  {
    || (s == a.s && sent == a.down)
    || (a.s.phase == T.Ready && s == T.Send(chunks, a).s && sent == T.Send(chunks, a).down)
  }

  lemma StepReplies(chunks: seq<seq<byte>>, st: T.State, step: T.Step, a: T.State, sent: seq<T.Item>)
    requires T.Fits(chunks) && T.Enabled(st, step) && !step.SenderCancels? && SentFrom(chunks, a, st.s, sent)
    ensures var st1, replies, more := T.Apply(chunks, st, step), ReplyBy(st, step), sent + SentBy(chunks, st, step);
            && |replies| <= 1
            && (replies == [] ==> SentFrom(chunks, a, st1.s, more))
            && (replies != [] ==> var a1 := Answer(chunks, a, replies[0]); st1.s == a1.s && more == a1.down)
  {
    if ReplyBy(st, step) != [] {
      var reply := ReplyBy(st, step)[0];
      var heard := if step.SenderReads? then st.(up := st.up[1..]) else st;
      var ready := if a.s.phase == T.Ready then T.Send(chunks, a) else a;
      SenderAlone(heard, ready, reply);
      SenderAlone(ready, st, reply);
    } else if step == T.SenderSends {
      SendAlone(chunks, a, st);
    } else {
      assert sent + [] == sent;
    }
  }

  /** Where the sender goes and what it sends depends on the sender alone. */
  lemma SenderAlone(a: T.State, b: T.State, reply: Arrival)
    requires a.s == b.s
    ensures T.Hear(a, reply).s == T.Hear(b, reply).s
    ensures T.Hear(a, reply).down == a.down + T.Hear(b.(down := []), reply).down
  {
  }

  lemma SendAlone(chunks: seq<seq<byte>>, a: T.State, b: T.State)
    requires T.Fits(chunks) && a.s == b.s
    ensures T.Send(chunks, a).s == T.Send(chunks, b).s
    ensures T.Send(chunks, a).down == a.down + T.Send(chunks, b.(down := [])).down
  {
  }

  /** In every run the sender is where these replies take it, and has sent what that makes it send. */
  lemma {:induction false} RunReplied(chunks: seq<seq<byte>>, steps: seq<T.Step>)
    requires T.Fits(chunks) && T.Run(chunks, steps).Some? && Uncancelled(steps)
    ensures SentFrom(chunks, Replied(chunks, T.INIT, RepliesIn(chunks, steps)), T.Run(chunks, steps).value.s,
                     SentIn(chunks, steps))
  {
    if steps != [] {
      var init, step := steps[..|steps| - 1], steps[|steps| - 1];
      var st, replies := T.Run(chunks, init).value, RepliesIn(chunks, init);
      RunReplied(chunks, init);
      StepReplies(chunks, st, step, Replied(chunks, T.INIT, replies), SentIn(chunks, init));
      if ReplyBy(st, step) == [] {
        assert RepliesIn(chunks, steps) == replies;
      } else {
        assert RepliesIn(chunks, steps) == replies + [ReplyBy(st, step)[0]];
        RepliedMore(chunks, T.INIT, replies, ReplyBy(st, step)[0]);
      }
    }
  }

  /** The session of `Refinement`, from any point of it where a reply is due. */
  function Onward(chunks: seq<seq<byte>>, st: T.State, io: Io): T.State
    requires T.Fits(chunks)
  {
    if st.s.phase == T.Opening then
      var (st1, io1) := Opened(st, io);
      if st1.s.phase != T.Ready then st1 else Answering(chunks, st1, io1)
    else if st.s.phase == T.Ready then Answering(chunks, st, io)
    else st
  }

  predicate Halted(s: T.Sender) {
    s.phase == T.Ended || s.phase == T.Aborted
  }

  predicate Going(chunks: seq<seq<byte>>, s: T.Sender) {
    || (s.phase == T.Opening && s.tries < 10 && s.fate == [])
    || (s.phase == T.Ready && s.tries < Download.TRIES && |s.fate| <= |chunks|)
    || Halted(s)
  }

  /** One reply further on, `io1` being where the driver then stands. */
  lemma OnwardStep(chunks: seq<seq<byte>>, st: T.State, io: Io) returns (io1: Io)
    requires T.Fits(chunks) && Going(chunks, st.s) && !Halted(st.s)
    ensures io1.rx == io.rx && io1.pos == io.Advance().pos
    ensures var st1 := Answer(chunks, st, io.Next());
            Going(chunks, st1.s) && Onward(chunks, st, io) == Onward(chunks, st1, io1)
  {
    if st.s.phase == T.Opening {
      io1 := io.Advance();
      OpenedStep(st, io);
    } else if |st.s.fate| < |chunks| {
      io1 := Exchange(io, Frame(st.s.bn, chunks[|st.s.fate|]));
      TryOutcome(chunks, st, io.Next());
      DrivenStep(chunks, st, io, io1);
    } else {
      io1 := io.Advance();
    }
  }

  lemma OpenedStep(st: T.State, io: Io)
    requires st.s.phase == T.Opening && st.s.tries < 10
    ensures var st1 := T.Hear(st, io.Next());
            && Opened(st, io) == Opened(st1, io.Advance())
            && (st1.s.phase != T.Opening ==> Opened(st1, io.Advance()) == (st1, io.Advance()))
  {
  }

  lemma DrivenStep(chunks: seq<seq<byte>>, st: T.State, io: Io, io1: Io)
    requires T.Fits(chunks) && Due(chunks, st, |chunks|) && io1 == Exchange(io, Frame(st.s.bn, chunks[|st.s.fate|]))
    ensures var st1 := Try(chunks, st, io.Next());
            Driven(chunks, st, io, |chunks|) ==
            if st1.s.phase == T.Ready then Driven(chunks, st1, io1, |chunks|) else (st1, io1)
  {
  }

  /** Over the same replies, the driver's session ends where the system's sender does. */
  lemma {:induction false} SessionReplied(chunks: seq<seq<byte>>, st: T.State, io: Io, replies: seq<Arrival>)
    requires T.Fits(chunks) && Going(chunks, st.s) && io.pos <= |io.rx| && replies == io.rx[io.pos..]
    requires Halted(Replied(chunks, st, replies).s)
    ensures Onward(chunks, st, io) == Replied(chunks, st, replies)
    decreases replies
  {
    if Halted(st.s) {
      HaltedStays(chunks, st, replies);
    } else {
      var io1 := OnwardStep(chunks, st, io);
      SessionReplied(chunks, Answer(chunks, st, io.Next()), io1, replies[1..]);
    }
  }

  lemma {:induction false} HaltedStays(chunks: seq<seq<byte>>, st: T.State, replies: seq<Arrival>)
    requires T.Fits(chunks) && Halted(st.s)
    ensures Replied(chunks, st, replies) == st
    decreases replies
  {
    if replies != [] {
      HaltedStays(chunks, Answer(chunks, st, replies[0]), replies[1..]);
    }
  }

  // ---- What a download sends ------------------------------------------------------------

  /** The bytes of what was put on the line, in order. */
  function Spoken(items: seq<T.Item>): seq<byte> {
    if items == [] then [] else Spoken(items[..|items| - 1]) + T.BytesOf(items[|items| - 1])
  }

  lemma SpokenMore(items: seq<T.Item>, item: T.Item)
    ensures Spoken(items + [item]) == Spoken(items) + T.BytesOf(item)
  {
    assert (items + [item])[..|items|] == items;
  }

  /** The two CANs with which a session ends that is given up. */
  function GivenUp(s: T.Sender): seq<byte> {
    if s.phase == T.Aborted then [CAN, CAN] else []
  }

  lemma AbortSays(st: T.State)
    ensures Spoken(T.Abort(st).down) == Spoken(st.down) + [CAN, CAN]
  {
    SpokenMore(st.down, T.Control(CAN));
    SpokenMore(st.down + [T.Control(CAN)], T.Control(CAN));
    assert st.down + [T.Control(CAN), T.Control(CAN)] == (st.down + [T.Control(CAN)]) + [T.Control(CAN)];
    Rejoin(Spoken(st.down), [CAN], [CAN]);
  }

  /** The system's sender has sent what the driver has offered, and the CANs that it has yet to offer. */
  predicate Even(st: T.State, io: Io) {
    Spoken(st.down) == Said(io.trace) + GivenUp(st.s)
  }

  lemma {:induction false} OpenedSays(st: T.State, io: Io)
    requires st.s.phase == T.Opening && st.s.tries < 10 && Even(st, io)
    ensures Even(Opened(st, io).0, Opened(st, io).1)
    decreases 10 - st.s.tries
  {
    var st1 := T.Hear(st, io.Next());
    AbortSays(st);
    assert Said(io.trace) + [] == Said(io.trace);
    if st1.s.phase == T.Opening {
      OpenedSays(st1, io.Advance());
    }
  }

  /** One try: a frame, or the EOT behind the last block, offered and answered. */
  lemma TrySays(chunks: seq<seq<byte>>, st: T.State, io: Io, data: seq<byte>)
    requires T.Fits(chunks) && st.s.phase == T.Ready && st.s.tries < Download.TRIES && Even(st, io)
    requires data == if |st.s.fate| < |chunks| then Frame(st.s.bn, chunks[|st.s.fate|]) else [EOT]
    ensures Even(Try(chunks, st, io.Next()), Exchange(io, data))
  {
    var sent := T.Send(chunks, st);
    SpokenMore(st.down, sent.down[|st.down|]);
    SaidMore(io.trace, Put(data, Queued(io.verdicts, |data|), io.pos));
    AbortSays(sent);
    assert Said(io.trace) + [] == Said(io.trace);
    assert Spoken(sent.down) == Said(io.trace) + data;
    assert Said(Exchange(io, data).trace) == Said(io.trace) + data;
    TryEnds(chunks, st, io.Next());
    assert (Said(io.trace) + data) + [] == Said(io.trace) + data;
  }

  /** A try leaves the line as it is behind what it sends, unless it ends in an abort. */
  lemma TryEnds(chunks: seq<seq<byte>>, st: T.State, reply: Arrival)
    requires T.Fits(chunks) && st.s.phase == T.Ready
    ensures var sent, st1 := T.Send(chunks, st), Try(chunks, st, reply);
            if st1.s.phase == T.Aborted then st1.down == T.Abort(sent).down else st1.down == sent.down
  {
  }

  lemma {:induction false} DrivenSays(chunks: seq<seq<byte>>, st: T.State, io: Io, upto: nat)
    requires T.Fits(chunks) && st.s.phase == T.Ready && Even(st, io)
    ensures Even(Driven(chunks, st, io, upto).0, Driven(chunks, st, io, upto).1)
    decreases upto - |st.s.fate|, Download.TRIES - st.s.tries
  {
    if Due(chunks, st, upto) {
      var frame := Frame(st.s.bn, chunks[|st.s.fate|]);
      TrySays(chunks, st, io, frame);
      TryOutcome(chunks, st, io.Next());
      var st1 := Try(chunks, st, io.Next());
      if st1.s.phase == T.Ready {
        DrivenSays(chunks, st1, Exchange(io, frame), upto);
      }
    }
  }

  /** The two CANs offered at last. */
  lemma CancelEven(st: T.State, io: Io)
    requires Even(st, io) && io.verdicts == []
    ensures Spoken(st.down) == Said((if st.s.phase == T.Aborted then Upload.Cancel(io) else io).trace)
  {
    SaysCancel(io);
    assert Said(io.trace) + [] == Said(io.trace);
  }

  /** What `Fget` comes to, by where its blocks have left it. */
  lemma AnsweringSays(chunks: seq<seq<byte>>, st: T.State, io: Io, frags: seq<seq<byte>>)
    requires chunks == Download.AllChunks(frags) && io.verdicts == [] && Even(st, io)
    requires st.s.phase == T.Ready && st.s.tries == 0 && st.s.fate == []
    ensures var sent := Download.Fragments(io, st.s.bn, frags);
            var end := Finish(sent.io);
            Spoken(Answering(chunks, st, io).down) ==
            Said((if sent.ret < 0 then Upload.Cancel(sent.io)
                  else if end.ret == SEND_OK then end.io else Upload.Cancel(end.io)).trace)
  {
    var st2, io2 := BlocksFollow(chunks, st, io, frags);
    DrivenSays(chunks, st, io, |chunks|);
    if st2.s.phase == T.Ready {
      EndSays(chunks, st2, io2);
    } else {
      CancelEven(st2, io2);
    }
  }

  lemma EndSays(chunks: seq<seq<byte>>, st: T.State, io: Io)
    requires T.Fits(chunks) && st.s.phase == T.Ready && |st.s.fate| == |chunks| && io.verdicts == []
    requires st.s.tries == 0 && Even(st, io)
    ensures var end := Finish(io);
            Spoken(Try(chunks, st, io.Next()).down) ==
            Said((if end.ret == SEND_OK then end.io else Upload.Cancel(end.io)).trace)
  {
    TrySays(chunks, st, io, [EOT]);
    EndFollows(chunks, st, io);
    CancelEven(Try(chunks, st, io.Next()), Finish(io).io);
  }

  /** Over a whole download, the driver offers exactly what the system's sender puts on the line, in order. */
  lemma SessionSays(io: Io, frags: seq<seq<byte>>)
    requires io.verdicts == [] && io.trace == []
    ensures Said(Download.Fget(io, frags, true).io.trace) == Spoken(Session(Download.AllChunks(frags), io).down)
  {
    OpenedSays(T.INIT, io);
    var st, io1 := OpeningFollows(T.INIT, io);
    if st.s.phase == T.Ready {
      AnsweringSays(Download.AllChunks(frags), st, io1, frags);
    } else {
      CancelEven(st, io1);
    }
  }

  /** The driver's port with the replies that the sender reads in a run, and willing to take everything. */
  function RepliedPort(chunks: seq<seq<byte>>, steps: seq<T.Step>): Io
    requires T.Fits(chunks)
  {
    Io(RepliesIn(chunks, steps), 0, [], [], [])
  }

  /**
   * Every run is a download, too: over the replies that the run's sender reads, the driver's session leaves
   * each block as the run does, acknowledged or given up, offers exactly the frames and control bytes that
   * the run's sender puts on the line, in order, and succeeds exactly if that ends.
   */
  lemma RunIsFget(frags: seq<seq<byte>>, steps: seq<T.Step>)
    requires T.Run(Download.AllChunks(frags), steps).Some? && Uncancelled(steps)
    requires Halted(T.Run(Download.AllChunks(frags), steps).value.s)
    ensures var chunks := Download.AllChunks(frags);
            var s, io := T.Run(chunks, steps).value.s, RepliedPort(chunks, steps);
            && Session(chunks, io).s == s
            && Said(Download.Fget(io, frags, true).io.trace) == Spoken(SentIn(chunks, steps))
            && (Download.Fget(io, frags, true).ok <==> s.phase == T.Ended)
  {
    var chunks := Download.AllChunks(frags);
    RunReplied(chunks, steps);
    var io := RepliedPort(chunks, steps);
    assert io.rx[0..] == RepliesIn(chunks, steps);
    SessionReplied(chunks, T.INIT, io, RepliesIn(chunks, steps));
    SessionFollows(io, frags);
    SessionSays(io, frags);
  }
}
