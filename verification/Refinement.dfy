/**
 * The two ends of `Transfer` are the verified drivers: what one pass of a driver does with a
 * message or a reply is what one step of the system does.
 */
module Refinement {
  import opened Bytes
  import opened Serial
  import opened Xmodem
  import opened UploadRuns
  import Upload
  import Download
  import T = Transfer

  /** The bytes offered to the transmit queue, in order. */
  function Said(t: seq<Event>): seq<byte> {
    if t == [] then []
    else
      var e := t[|t| - 1];
      Said(t[..|t| - 1]) + if e.Put? then e.data else []
  }

  lemma SaidMore(t: seq<Event>, e: Event)
    ensures Said(t + [e]) == Said(t) + if e.Put? then e.data else []
  {
    assert (t + [e])[..|t|] == t;
  }

  lemma SaidOffer(io: Io, b: byte)
    ensures Said(io.Offer([b]).trace) == Said(io.trace) + [b]
  {
    SaidMore(io.trace, Put([b], Queued(io.verdicts, 1), io.pos));
  }

  // ---- The receiver -----------------------------------------------------------------------

  /** One message, as the receiver's reads delimit it; nothing at all is a message too. */
  predicate Message(x: seq<byte>) {
    |x| <= FRAME && (x == [] || x[0] == SOH || |x| == 1)
  }

  /** A message that only a pause behind it ends. */
  predicate Pauses(x: seq<byte>) {
    x == [] || (x[0] == SOH && |x| < FRAME)
  }

  /** The line holds `x` next, as a message. */
  predicate Arrives(io: Io, x: seq<byte>) {
    && Message(x) && io.pos <= |io.rx| && Heard(io.rx, io.pos, x)
    && (Pauses(x) ==> SilentAt(io.rx, io.pos + |x|))
  }

  /** Where the message `x` at `at` ends, its pause included. */
  function Behind(rx: seq<Arrival>, at: nat, x: seq<byte>): nat {
    if Pauses(x) && at + |x| < |rx| then at + |x| + 1 else at + |x|
  }

  /** A receive `r` from `io` has the outcome `h`, and has said nothing but the ACK of an EOT. */
  predicate Same(io: Io, r: Received, h: Received) {
    && r.ret == h.ret && r.bn == h.bn && r.got == h.got
    && r.io == io.(pos := r.io.pos, trace := r.io.trace)
    && r.io.trace == if h.ret == RECV_FINISHED then io.trace + [Put([ACK], 1, r.io.pos)] else io.trace
  }

  /** The driver's receive makes of a message what the system's receiver makes of it. */
  lemma ReceiveUnderstands(io: Io, bn: byte, x: seq<byte>)
    requires Arrives(io, x) && io.verdicts == []
    ensures Same(io, Receive(io, bn), T.Understand(bn, x))
    ensures Receive(io, bn).io.pos == Behind(io.rx, io.pos, x)
  {
    var alone := Io(T.Arrivals(x), 0, [], [], []);
    if x != [] {
      assert io.rx[io.pos + 0] == Byte(x[0]) && alone.Next() == Byte(x[0]);
      if x[0] == SOH {
        HeardBehind(io.rx, io.pos, x, 1);
        CollectUpTo(io.Advance(), 131, x[1..]);
        CollectUpTo(alone.Advance(), 131, x[1..]);
      }
    }
  }

  /** The callback's variables and what it has done so far agree with the receiver of `st`. */
  predicate Agree(s: Upload.Cb, st: T.State) {
    && s.Valid() && Willing(s.io) && !Upload.Closed(s.io.trace)
    && st.r.phase == T.Rest && st.r.bn == s.bn && st.r.cnt == s.cnt
    && st.r.got == Given(s.io.trace) && s.total == 128 * |st.r.got|
  }

  /** `b` differs from `a` in the receiver and in saying `more`. */
  predicate OnlyReceiver(a: T.State, b: T.State, more: seq<byte>) {
    b == a.(r := b.r, up := a.up + more)
  }

  /** What a receive has said. */
  lemma ReceiveSays(io: Io, r: Received, h: Received)
    requires Same(io, r, h)
    ensures Given(r.io.trace) == Given(io.trace)
    ensures Said(r.io.trace) == Said(io.trace) + if h.ret == RECV_FINISHED then [ACK] else []
  {
    if h.ret == RECV_FINISHED {
      GivenMore(io.trace, Put([ACK], 1, r.io.pos));
      SaidMore(io.trace, Put([ACK], 1, r.io.pos));
    }
  }

  lemma SaysBlock(io: Io, data: seq<byte>)
    requires Willing(io)
    ensures var io1 := io.Write(data).Offer([ACK]);
            && Willing(io1) && !Upload.Closed(io1.trace)
            && Given(io1.trace) == Given(io.trace) + [data] && Said(io1.trace) == Said(io.trace) + [ACK]
  {
    GivenMore(io.trace, Deliver(data, true, io.pos));
    SaidMore(io.trace, Deliver(data, true, io.pos));
    GivenOffer(io.Write(data), ACK);
    SaidOffer(io.Write(data), ACK);
  }

  lemma SaysCancel(io: Io)
    requires io.verdicts == []
    ensures Given(Upload.Cancel(io).trace) == Given(io.trace) && !Upload.Closed(Upload.Cancel(io).trace)
    ensures Said(Upload.Cancel(io).trace) == Said(io.trace) + [CAN, CAN]
  {
    GivenCancel(io);
    SaidOffer(io, CAN);
    SaidOffer(io.Offer([CAN]), CAN);
    assert (Said(io.trace) + [CAN]) + [CAN] == Said(io.trace) + [CAN, CAN];
  }

  lemma SaysClose(io: Io)
    ensures Given(io.trace + [Close(io.pos)]) == Given(io.trace)
    ensures Said(io.trace + [Close(io.pos)]) == Said(io.trace)
  {
    GivenMore(io.trace, Close(io.pos));
    SaidMore(io.trace, Close(io.pos));
    assert Said(io.trace) + [] == Said(io.trace) && Given(io.trace) + [] == Given(io.trace);
  }

  /**
   * One pass of the callback's loop is one step of the system's receiver: they agree again on number,
   * retries, blocks taken and bytes said, and they end together, the driver with -1 exactly when it
   * has said CAN.
   */
  predicate Follows(size: nat, s: Upload.Cb, t: Upload.CbTurn, st: T.State, st1: T.State, more: seq<byte>) {
    && OnlyReceiver(st, st1, more)
    && match t
       case More(next) =>
         && Agree(next, st1) && Said(next.io.trace) == Said(s.io.trace) + more
         && next.io.rx == s.io.rx && CAN !in more
       case Done(end) =>
         !T.Awake(st1.r) && st1.r.got == st.r.got && EndsAs(size, s.io, end, st1, more)
  }

  /**
   * `end` is the end of a session that has taken and said what the system's receiver has, and its socket
   * is closed exactly when that took less than was declared and did not give up.
   */
  predicate EndsAs(size: nat, from: Io, end: Upload.CbEnd, st: T.State, more: seq<byte>) {
    && Given(end.io.trace) == st.r.got && Said(end.io.trace) == Said(from.trace) + more
    && end.ret == (if CAN in more then -1 else 128 * |st.r.got|)
    && (Upload.Closed(end.io.trace) <==> CAN !in more && !T.Enough(size, st.r))
    && (st.r.phase == T.Finished ==> CAN !in more)
  }

  lemma TakeFollows(size: nat, s: Upload.Cb, st: T.State, r: Received, h: Received, chunk: nat)
    requires Agree(s, st) && Same(s.io, r, h) && r.ret == RECV_OK && |r.got| == FRAME
    requires s.io.pos < r.io.pos <= |s.io.rx|
    ensures Follows(size, s, Upload.React(size, s, r), st, T.React(st, h, chunk), [ACK])
  {
    assert Overlay(s.block, r.got) == r.got;
    SaysBlock(r.io, r.got[3..131]);
  }

  lemma AskFollows(size: nat, s: Upload.Cb, st: T.State, r: Received, h: Received, chunk: nat)
    requires Agree(s, st) && Same(s.io, r, h) && |r.got| <= FRAME && s.io.pos <= r.io.pos <= |s.io.rx|
    requires Upload.CallbackReaction(r.ret, s.cnt).AskAgain? && r.bn == s.bn && r.ret == RECV_RETRY
    ensures Follows(size, s, Upload.React(size, s, r), st, T.React(st, h, chunk), [NAK])
  {
    SaidOffer(r.io, NAK);
    GivenOffer(r.io, NAK);
  }

  lemma GiveUpFollows(size: nat, s: Upload.Cb, st: T.State, r: Received, h: Received, chunk: nat)
    requires Agree(s, st) && Same(s.io, r, h) && |r.got| <= FRAME && s.io.pos <= r.io.pos <= |s.io.rx|
    requires Upload.CallbackReaction(r.ret, s.cnt).GiveUp? && r.bn == s.bn && r.ret == RECV_RETRY
    ensures Follows(size, s, Upload.React(size, s, r), st, T.React(st, h, chunk), [CAN, CAN])
  {
    SaysCancel(r.io);
  }

  lemma ConcludeFollows(size: nat, s: Upload.Cb, st: T.State, r: Received, h: Received, chunk: nat)
    returns (more: seq<byte>)
    requires Agree(s, st) && Same(s.io, r, h) && |r.got| <= FRAME && s.io.pos < r.io.pos <= |s.io.rx|
    requires Upload.CallbackReaction(r.ret, s.cnt).Conclude? && r.bn == s.bn
    ensures Follows(size, s, Upload.React(size, s, r), st, T.React(st, h, chunk), more)
  {
    ReceiveSays(s.io, r, h);
    SaysClose(r.io);
    more := if h.ret == RECV_FINISHED then [ACK] else [];
  }

  lemma ReactFollows(size: nat, s: Upload.Cb, st: T.State, r: Received, h: Received, chunk: nat)
    returns (more: seq<byte>)
    requires Agree(s, st) && Same(s.io, r, h) && |r.got| <= FRAME
    requires s.io.pos <= r.io.pos <= |s.io.rx| && (r.ret != RECV_RETRY ==> s.io.pos < r.io.pos)
    requires if r.ret == RECV_OK then |r.got| == FRAME else r.bn == s.bn
    ensures Follows(size, s, Upload.React(size, s, r), st, T.React(st, h, chunk), more)
  {
    match Upload.CallbackReaction(r.ret, s.cnt) {
      case TakeBlock =>
        TakeFollows(size, s, st, r, h, chunk);
        more := [ACK];
      case AskAgain =>
        AskFollows(size, s, st, r, h, chunk);
        more := [NAK];
      case GiveUp =>
        GiveUpFollows(size, s, st, r, h, chunk);
        more := [CAN, CAN];
      case Conclude =>
        more := ConcludeFollows(size, s, st, r, h, chunk);
      case _ =>
        more := [];
    }
  }

  lemma TurnFollows(size: nat, s: Upload.Cb, st: T.State, x: seq<byte>, chunk: nat)
    returns (more: seq<byte>)
    requires Agree(s, st) && Arrives(s.io, x)
    ensures var t := Upload.Turn(size, s);
            && Follows(size, s, t, st, T.React(st, T.Understand(st.r.bn, x), chunk), more)
            && (t.More? ==> t.next.io.pos == Behind(s.io.rx, s.io.pos, x))
  {
    ReceiveUnderstands(s.io, s.bn, x);
    ReceiveProgress(s.io, s.bn);
    if Receive(s.io, s.bn).ret == RECV_OK {
      ReceivedOk(s.io, s.bn);
    }
    more := ReactFollows(size, s, st, Receive(s.io, s.bn), T.Understand(st.r.bn, x), chunk);
  }

  /** The line holds the messages `items` from `at` on. */
  predicate ArriveAll(rx: seq<Arrival>, at: nat, items: seq<T.Item>)
    decreases items
  {
    items == [] ||
    var x := T.BytesOf(items[0]);
    Arrives(Io(rx, at, [], [], []), x) && ArriveAll(rx, Behind(rx, at, x), items[1..])
  }

  function HearItem(st: T.State, item: T.Item): T.State {
    T.React(st, T.Understand(st.r.bn, T.BytesOf(item)), if item.Block? then item.chunk else 0)
  }

  /** The system's receiver after hearing `items`, until it stops listening. */
  function Hearing(st: T.State, items: seq<T.Item>): T.State
    decreases items
  {
    if items == [] || !T.Awake(st.r) then st else Hearing(HearItem(st, items[0]), items[1..])
  }

  /** `s` has come to agree with `st`, or has ended as `end` where `st` did; `more` was said on the way from `from`. */
  predicate Stands(size: nat, from: Io, s: Upload.Cb, end: Upload.CbEnd, st: T.State, more: seq<byte>) {
    if T.Awake(st.r) then Agree(s, st) && Said(s.io.trace) == Said(from.trace) + more && CAN !in more
    else EndsAs(size, from, end, st, more)
  }

  /** `f` goes the way of the loop. */
  ghost predicate Loops(f: Upload.Cb -> Upload.CbEnd, size: nat) {
    forall c: Upload.Cb {:trigger Upload.Turn(size, c)} :: c.Valid() ==>
      f(c) == match Upload.Turn(size, c) case Done(end) => end case More(next) => f(next)
  }

  lemma ItemFollows(size: nat, s: Upload.Cb, st: T.State, item: T.Item)
    returns (t: Upload.CbTurn, st1: T.State, more: seq<byte>)
    requires Agree(s, st) && Arrives(s.io, T.BytesOf(item))
    ensures t == Upload.Turn(size, s) && st1 == HearItem(st, item) && Follows(size, s, t, st, st1, more)
    ensures t.More? ==> t.next.io.pos == Behind(s.io.rx, s.io.pos, T.BytesOf(item))
  {
    t, st1 := Upload.Turn(size, s), HearItem(st, item);
    more := TurnFollows(size, s, st, T.BytesOf(item), if item.Block? then item.chunk else 0);
  }

  lemma OnePass(f: Upload.Cb -> Upload.CbEnd, size: nat, s: Upload.Cb, st: T.State, items: seq<T.Item>)
    returns (t: Upload.CbTurn, st1: T.State, more: seq<byte>)
    requires Loops(f, size) && Agree(s, st) && items != [] && ArriveAll(s.io.rx, s.io.pos, items)
    ensures Follows(size, s, t, st, st1, more) && Hearing(st, items) == Hearing(st1, items[1..])
    ensures match t
            case Done(end) => f(s) == end && Hearing(st, items) == st1
            case More(next) => f(s) == f(next) && ArriveAll(next.io.rx, next.io.pos, items[1..])
  {
    t, st1, more := ItemFollows(size, s, st, items[0]);
  }

  /** Pass after pass the loop takes and says what the system's receiver does. */
  lemma {:induction false} PassesFollow(f: Upload.Cb -> Upload.CbEnd, size: nat, s: Upload.Cb, st: T.State,
                                        items: seq<T.Item>)
    returns (n: Upload.Cb, more: seq<byte>)
    requires Loops(f, size) && Agree(s, st) && ArriveAll(s.io.rx, s.io.pos, items)
    ensures var end := Hearing(st, items);
            && OnlyReceiver(st, end, more) && Stands(size, s.io, n, f(s), end, more)
            && (T.Awake(end.r) ==> f(s) == f(n))
    decreases |items|
  {
    n, more := s, [];
    if items == [] {
      assert st.up + [] == st.up && Said(s.io.trace) + [] == Said(s.io.trace);
    } else {
      var t, st1;
      t, st1, more := OnePass(f, size, s, st, items);
      match t
      case Done(end) =>
      case More(next) =>
        var rest;
        n, rest := PassesFollow(f, size, next, st1, items[1..]);
        Joined(st.up, Said(s.io.trace), more, rest);
        more := more + rest;
    }
  }

  lemma Joined(a: seq<byte>, b: seq<byte>, c: seq<byte>, d: seq<byte>)
    ensures (a + c) + d == a + (c + d) && (b + c) + d == b + (c + d)
  {
  }

  /** The callback's whole loop, over any list of messages, is the system's receiver hearing them. */
  lemma LoopFollows(size: nat, s: Upload.Cb, st: T.State, items: seq<T.Item>)
    returns (n: Upload.Cb, more: seq<byte>)
    requires Agree(s, st) && ArriveAll(s.io.rx, s.io.pos, items)
    ensures var end := Hearing(st, items);
            && OnlyReceiver(st, end, more) && Stands(size, s.io, n, Upload.CbLoop(size, s), end, more)
            && (T.Awake(end.r) ==> Upload.CbLoop(size, s) == Upload.CbLoop(size, n))
  {
    var f := (c: Upload.Cb) => if c.Valid() then Upload.CbLoop(size, c) else Upload.CbEnd(0, c.io, c.block);
    forall c: Upload.Cb | c.Valid()
      ensures f(c) == match Upload.Turn(size, c) case Done(end) => end case More(next) => f(next)
    {
    }
    assert Loops(f, size);
    n, more := PassesFollow(f, size, s, st, items);
  }

  /** The same while the first block is awaited: on it the command enters the callback, which hands it over. */
  predicate FirstFollows(io: Io, t: Upload.FirstTurn, st: T.State, st1: T.State, more: seq<byte>) {
    && OnlyReceiver(st, st1, more)
    && match t
       case Again(io1, _) =>
         && st1.r == st.r.(cnt := st.r.cnt + 1) && Willing(io1) && Given(io1.trace) == []
         && Said(io1.trace) == Said(io.trace) + more && CAN !in more
       case Ended(NotStarted(io1, _)) =>
         && st1.r.phase == T.Stopped && st1.r.got == [] == Given(io1.trace)
         && Said(io1.trace) == Said(io.trace) + more
       case Ended(Started(io1, block)) =>
         |block| == FRAME &&
         var s := Upload.Cb(io1.Write(block[3..131]).Offer([ACK]), 1, 0, 128, block);
         Agree(s, st1) && Said(s.io.trace) == Said(io.trace) + more && CAN !in more && io1.rx == io.rx && Willing(io1)
  }

  lemma FirstTakeFollows(io: Io, block: seq<byte>, st: T.State, r: Received, h: Received, chunk: nat)
    requires st.r.phase == T.First && st.r.bn == 0 && st.r.got == []
    requires Willing(io) && Given(io.trace) == [] && |block| == FRAME && Same(io, r, h)
    requires r.io.pos <= |io.rx| && r.ret == RECV_OK && |r.got| == FRAME && r.bn == 1
    ensures FirstFollows(io, Upload.FirstReact(st.r.cnt, block, r), st, T.React(st, h, chunk), [ACK])
  {
    assert Overlay(block, r.got) == r.got;
    SaysBlock(r.io, r.got[3..131]);
  }

  lemma FirstReactFollows(io: Io, block: seq<byte>, st: T.State, r: Received, h: Received, chunk: nat)
    returns (more: seq<byte>)
    requires st.r.phase == T.First && st.r.bn == 0 && st.r.got == [] && st.r.cnt <= 10
    requires Willing(io) && Given(io.trace) == [] && |block| == FRAME && Same(io, r, h) && |r.got| <= FRAME
    requires r.io.pos <= |io.rx| && (r.ret == RECV_OK ==> |r.got| == FRAME && r.bn == 1)
    ensures FirstFollows(io, Upload.FirstReact(st.r.cnt, block, r), st, T.React(st, h, chunk), more)
  {
    ReceiveSays(io, r, h);
    match Upload.FirstReaction(r.ret, st.r.cnt) {
      case TakeBlock =>
        FirstTakeFollows(io, block, st, r, h, chunk);
        more := [ACK];
      case AskAgain =>
        SaidOffer(r.io, NAK);
        GivenOffer(r.io, NAK);
        more := [NAK];
      case GiveUp =>
        SaysCancel(r.io);
        more := [CAN, CAN];
      case _ =>
        more := if h.ret == RECV_FINISHED then [ACK] else [];
    }
  }

  lemma FirstTurnFollows(io: Io, block: seq<byte>, st: T.State, x: seq<byte>, chunk: nat)
    returns (more: seq<byte>)
    requires st.r.phase == T.First && st.r.bn == 0 && st.r.got == [] && st.r.cnt <= 10
    requires Willing(io) && Given(io.trace) == [] && |block| == FRAME && Arrives(io, x)
    ensures Receive(io, 0).io.pos == Behind(io.rx, io.pos, x)
    ensures FirstFollows(io, Upload.FirstReact(st.r.cnt, block, Receive(io, 0)), st,
                         T.React(st, T.Understand(0, x), chunk), more)
  {
    ReceiveUnderstands(io, 0, x);
    ReceiveProgress(io, 0);
    if Receive(io, 0).ret == RECV_OK {
      ReceivedOk(io, 0);
    }
    more := FirstReactFollows(io, block, st, Receive(io, 0), T.Understand(0, x), chunk);
  }

  // ---- The sender -------------------------------------------------------------------------

  /** One try: the system's sender sends what the driver offers, and hears the reply that the driver reads. */
  function Try(chunks: seq<seq<byte>>, st: T.State, reply: Arrival): T.State
    requires T.Fits(chunks)
  {
    T.Hear(T.Send(chunks, st), reply)
  }

  /** Where the system's sender is ready for another try at one of the first `upto` blocks. */
  predicate Due(chunks: seq<seq<byte>>, st: T.State, upto: nat) {
    st.s.phase == T.Ready && |st.s.fate| < upto <= |chunks| && st.s.tries < Download.TRIES
  }

  lemma TryOutcome(chunks: seq<seq<byte>>, st: T.State, reply: Arrival)
    requires T.Fits(chunks) && Due(chunks, st, |chunks|)
    ensures var s, s1 := st.s, Try(chunks, st, reply).s;
            match Download.AfterReply(ReplyOutcome(reply))
            case Acked => s1 == T.Sender(T.Ready, s.fate + [true], 0, Successor(s.bn))
            case Again =>
              if s.tries + 1 == Download.TRIES then s1 == T.Sender(T.Ready, s.fate + [false], 0, s.bn)
              else s1 == s.(tries := s.tries + 1)
            case Fail(code) => code < 0 && s1.phase == T.Aborted && s1.bn == s.bn && s1.fate == s.fate
  {
  }

  /** Tries at the first `upto` blocks against the replies of `io`, until they are done or the sender aborts. */
  function Driven(chunks: seq<seq<byte>>, st: T.State, io: Io, upto: nat): (T.State, Io)
    requires T.Fits(chunks)
    decreases upto - |st.s.fate|, Download.TRIES - st.s.tries
  {
    if !Due(chunks, st, upto) then (st, io)
    else
      var st1, io1 := Try(chunks, st, io.Next()), Exchange(io, Frame(st.s.bn, chunks[|st.s.fate|]));
      TryOutcome(chunks, st, io.Next());
      if st1.s.phase == T.Ready then Driven(chunks, st1, io1, upto) else (st1, io1)
  }

  /** Each try puts on the line exactly the frame that the driver offers to the queue. */
  lemma TrySends(chunks: seq<seq<byte>>, st: T.State, io: Io)
    requires T.Fits(chunks) && Due(chunks, st, |chunks|)
    ensures var k := |st.s.fate|;
            var frame := Frame(st.s.bn, chunks[k]);
            && T.Send(chunks, st).down == st.down + [T.Block(frame, k)]
            && Said(Exchange(io, frame).trace) == Said(io.trace) + frame
  {
    var frame := Frame(st.s.bn, chunks[|st.s.fate|]);
    SaidMore(io.trace, Put(frame, Queued(io.verdicts, |frame|), io.pos));
  }

  /** How `Driven` and the driver stand to each other after one block. */
  predicate BlockDone(st: T.State, e: Download.ChunkEnd, st1: T.State, io1: Io) {
    io1 == e.io &&
    match e.verdict
    case Acked => st1.s == T.Sender(T.Ready, st.s.fate + [true], 0, Successor(st.s.bn))
    case Again => st1.s == T.Sender(T.Ready, st.s.fate + [false], 0, st.s.bn)
    case Fail(code) => code < 0 && st1.s.phase == T.Aborted && st1.s.bn == st.s.bn
  }

  /** The tries at one block end as they do in the driver. */
  lemma {:induction false} TryFrameFollows(chunks: seq<seq<byte>>, st: T.State, io: Io, left: nat)
    requires T.Fits(chunks) && Due(chunks, st, |chunks|) && left == Download.TRIES - st.s.tries
    ensures var k := |st.s.fate|;
            var end := Driven(chunks, st, io, k + 1);
            BlockDone(st, Download.TryFrame(io, Frame(st.s.bn, chunks[k]), left), end.0, end.1)
    decreases left
  {
    var frame := Frame(st.s.bn, chunks[|st.s.fate|]);
    TryOutcome(chunks, st, io.Next());
    if Download.AfterReply(ReplyOutcome(io.Next())).Again? && left > 1 {
      TryFrameFollows(chunks, Try(chunks, st, io.Next()), Exchange(io, frame), left - 1);
    }
  }

  /** Driving on behind an earlier stop. */
  lemma {:induction false} DrivenOn(chunks: seq<seq<byte>>, st: T.State, io: Io, mid: nat, upto: nat)
    requires T.Fits(chunks) && mid <= upto <= |chunks| && st.s.phase == T.Ready
    requires var (st1, io1) := Driven(chunks, st, io, mid); st1.s.phase == T.Ready
    ensures var (st1, io1) := Driven(chunks, st, io, mid);
            Driven(chunks, st, io, upto) == Driven(chunks, st1, io1, upto)
    decreases mid - |st.s.fate|, Download.TRIES - st.s.tries
  {
    if Due(chunks, st, mid) {
      TryOutcome(chunks, st, io.Next());
      DrivenOn(chunks, Try(chunks, st, io.Next()), Exchange(io, Frame(st.s.bn, chunks[|st.s.fate|])), mid, upto);
    }
  }

  /** How `Driven` and the driver stand to each other after the blocks up to `upto`. */
  predicate FragmentDone(e: Download.CbEnd, st1: T.State, io1: Io, upto: nat) {
    && io1 == e.io && st1.s.bn == e.bn
    && if e.ret >= 0 then st1.s.phase == T.Ready && st1.s.tries == 0 && |st1.s.fate| == upto
       else st1.s.phase == T.Aborted
  }

  /** The next block of a fragment, in the driver and in the system. */
  lemma NextBlock(chunks: seq<seq<byte>>, st: T.State, io: Io, buff: seq<byte>, idx: nat)
    returns (e: Download.ChunkEnd, st1: T.State, io1: Io)
    requires T.Fits(chunks) && st.s.phase == T.Ready && st.s.tries == 0 && idx % BLOCK == 0 && idx < |buff|
    requires Download.ContinuesWith(chunks, |st.s.fate|, Download.ChunksFrom(buff, idx))
    ensures (idx + BLOCK) % BLOCK == 0
    ensures |Download.ChunksFrom(buff, idx)| == 1 + |Download.ChunksFrom(buff, idx + BLOCK)|
    ensures Download.ContinuesWith(chunks, |st.s.fate| + 1, Download.ChunksFrom(buff, idx + BLOCK))
    ensures Driven(chunks, st, io, |st.s.fate| + 1) == (st1, io1) && BlockDone(st, e, st1, io1)
    ensures Download.SendFrom(io, st.s.bn, buff, idx) ==
            if e.verdict.Fail? then Download.CbEnd(e.verdict.code, e.io, st.s.bn)
            else Download.SendFrom(e.io, st1.s.bn, buff, idx + BLOCK)
  {
    var payload := NextPayload(chunks, |st.s.fate|, buff, idx);
    e, st1, io1 := BlockTried(chunks, st, io, payload);
    SendsNext(io, st.s.bn, buff, idx, payload, e);
  }

  lemma NextPayload(chunks: seq<seq<byte>>, k: nat, buff: seq<byte>, idx: nat) returns (payload: seq<byte>)
    requires idx % BLOCK == 0 && idx < |buff| && Download.ContinuesWith(chunks, k, Download.ChunksFrom(buff, idx))
    ensures payload == buff[idx..idx + Download.PayloadLen(|buff|, idx)] && |payload| <= BLOCK
    ensures k < |chunks| && chunks[k] == payload
    ensures (idx + BLOCK) % BLOCK == 0
    ensures |Download.ChunksFrom(buff, idx)| == 1 + |Download.ChunksFrom(buff, idx + BLOCK)|
    ensures Download.ContinuesWith(chunks, k + 1, Download.ChunksFrom(buff, idx + BLOCK))
  {
    payload := buff[idx..idx + Download.PayloadLen(|buff|, idx)];
    Download.ChunksFromStep(buff, idx);
    ContinuesStep(chunks, k, payload, Download.ChunksFrom(buff, idx + BLOCK));
  }

  lemma ContinuesStep(chunks: seq<seq<byte>>, k: nat, payload: seq<byte>, rest: seq<seq<byte>>)
    requires Download.ContinuesWith(chunks, k, [payload] + rest)
    ensures k < |chunks| && chunks[k] == payload && Download.ContinuesWith(chunks, k + 1, rest)
  {
    Download.ContinuesSplit(chunks, k, [payload], rest);
    assert chunks[k + 0] == [payload][0];
  }

  lemma SendsNext(io: Io, bn: byte, buff: seq<byte>, idx: nat, payload: seq<byte>, e: Download.ChunkEnd)
    requires idx % BLOCK == 0 && idx < |buff| && (idx + BLOCK) % BLOCK == 0
    requires payload == buff[idx..idx + Download.PayloadLen(|buff|, idx)] && |payload| <= BLOCK
    requires e == Download.TryFrame(io, Frame(bn, payload), Download.TRIES)
    ensures Download.SendFrom(io, bn, buff, idx) ==
            if e.verdict.Fail? then Download.CbEnd(e.verdict.code, e.io, bn)
            else Download.SendFrom(e.io, if e.verdict.Acked? then Successor(bn) else bn, buff, idx + BLOCK)
  {
    Download.SendFromStep(io, bn, buff, idx);
  }

  lemma BlockTried(chunks: seq<seq<byte>>, st: T.State, io: Io, payload: seq<byte>)
    returns (e: Download.ChunkEnd, st1: T.State, io1: Io)
    requires T.Fits(chunks) && st.s.phase == T.Ready && st.s.tries == 0
    requires |st.s.fate| < |chunks| && chunks[|st.s.fate|] == payload && |payload| <= BLOCK
    ensures e == Download.TryFrame(io, Frame(st.s.bn, payload), Download.TRIES)
    ensures Driven(chunks, st, io, |st.s.fate| + 1) == (st1, io1) && BlockDone(st, e, st1, io1)
  {
    TryFrameFollows(chunks, st, io, Download.TRIES);
    e := Download.TryFrame(io, Frame(st.s.bn, payload), Download.TRIES);
    var end := Driven(chunks, st, io, |st.s.fate| + 1);
    st1, io1 := end.0, end.1;
  }

  /** Behind its first block, `upto` is reached as it is from there. */
  lemma DrivenPast(chunks: seq<seq<byte>>, st: T.State, io: Io, mid: nat, upto: nat, st1: T.State, io1: Io)
    returns (st2: T.State, io2: Io)
    requires T.Fits(chunks) && mid <= upto <= |chunks| && st.s.phase == T.Ready
    requires Driven(chunks, st, io, mid) == (st1, io1)
    ensures Driven(chunks, st, io, upto) == (st2, io2)
    ensures st1.s.phase == T.Ready ==> Driven(chunks, st1, io1, upto) == (st2, io2)
    ensures st1.s.phase != T.Ready ==> st2 == st1 && io2 == io1
  {
    if st1.s.phase == T.Ready {
      DrivenOn(chunks, st, io, mid, upto);
    } else {
      DrivenAborts(chunks, st, io, mid, upto);
    }
    var end := Driven(chunks, st, io, upto);
    st2, io2 := end.0, end.1;
  }

  lemma {:induction false} SendFromFollows(chunks: seq<seq<byte>>, st: T.State, io: Io, buff: seq<byte>, idx: nat,
                                           upto: nat, st2: T.State, io2: Io)
    requires T.Fits(chunks) && st.s.phase == T.Ready && st.s.tries == 0 && idx % BLOCK == 0
    requires Download.ContinuesWith(chunks, |st.s.fate|, Download.ChunksFrom(buff, idx))
    requires upto == |st.s.fate| + |Download.ChunksFrom(buff, idx)| && Driven(chunks, st, io, upto) == (st2, io2)
    ensures FragmentDone(Download.SendFrom(io, st.s.bn, buff, idx), st2, io2, upto)
    decreases |buff| - idx
  {
    if idx < |buff| {
      var e, st1, io1 := NextBlock(chunks, st, io, buff, idx);
      var st3, io3 := DrivenPast(chunks, st, io, |st.s.fate| + 1, upto, st1, io1);
      if st1.s.phase == T.Ready {
        SendFromFollows(chunks, st1, io1, buff, idx + BLOCK, upto, st2, io2);
      }
    }
  }

  /** An abort is an abort, however far the sender was to go. */
  lemma {:induction false} DrivenAborts(chunks: seq<seq<byte>>, st: T.State, io: Io, mid: nat, upto: nat)
    requires T.Fits(chunks) && mid <= upto <= |chunks| && st.s.phase == T.Ready
    requires Driven(chunks, st, io, mid).0.s.phase != T.Ready
    ensures Driven(chunks, st, io, upto) == Driven(chunks, st, io, mid)
    decreases mid - |st.s.fate|, Download.TRIES - st.s.tries
  {
    if Due(chunks, st, mid) {
      TryOutcome(chunks, st, io.Next());
      var st1 := Try(chunks, st, io.Next());
      if st1.s.phase == T.Ready {
        DrivenAborts(chunks, st1, Exchange(io, Frame(st.s.bn, chunks[|st.s.fate|])), mid, upto);
      }
    }
  }

  lemma {:induction false} FragmentsFollow(chunks: seq<seq<byte>>, st: T.State, io: Io, frags: seq<seq<byte>>,
                                           upto: nat, st2: T.State, io2: Io)
    requires T.Fits(chunks) && st.s.phase == T.Ready && st.s.tries == 0
    requires Download.ContinuesWith(chunks, |st.s.fate|, Download.AllChunks(frags))
    requires upto == |st.s.fate| + |Download.AllChunks(frags)| && Driven(chunks, st, io, upto) == (st2, io2)
    ensures FragmentDone(Download.Fragments(io, st.s.bn, frags), st2, io2, upto)
    decreases |frags|
  {
    if frags != [] {
      var k, first, rest := |st.s.fate|, Download.Chunks(frags[0]), Download.AllChunks(frags[1..]);
      Download.ContinuesSplit(chunks, k, first, rest);
      var st1, io1 := FragmentFollows(chunks, st, io, frags[0], k + |first|);
      var st3, io3 := DrivenPast(chunks, st, io, k + |first|, upto, st1, io1);
      if st1.s.phase == T.Ready {
        FragmentsFollow(chunks, st1, io1, frags[1..], upto, st2, io2);
      }
    }
  }

  lemma FragmentFollows(chunks: seq<seq<byte>>, st: T.State, io: Io, frag: seq<byte>, upto: nat)
    returns (st1: T.State, io1: Io)
    requires T.Fits(chunks) && st.s.phase == T.Ready && st.s.tries == 0
    requires Download.ContinuesWith(chunks, |st.s.fate|, Download.Chunks(frag))
    requires upto == |st.s.fate| + |Download.Chunks(frag)|
    ensures Driven(chunks, st, io, upto) == (st1, io1)
    ensures FragmentDone(Download.SendFrom(io, st.s.bn, frag, 0), st1, io1, upto)
  {
    assert Download.ChunksFrom(frag, 0) == Download.Chunks(frag) by { assert frag[0..] == frag; }
    var end := Driven(chunks, st, io, upto);
    st1, io1 := end.0, end.1;
    SendFromFollows(chunks, st, io, frag, 0, upto, st1, io1);
  }

  /** The system's sender reading replies until it has been asked for the first block. */
  function Opened(st: T.State, io: Io): (T.State, Io)
    decreases if st.s.phase == T.Opening then 10 - st.s.tries else 0, io
  {
    if st.s.phase != T.Opening || st.s.tries >= 10 then (st, io) else Opened(T.Hear(st, io.Next()), io.Advance())
  }

  lemma {:induction false} OpenedFollows(st: T.State, io: Io)
    requires st.s.phase == T.Opening && st.s.tries < 10
    ensures var w, end := AwaitRequest(io, 10 - st.s.tries), Opened(st, io);
            && end.1 == w.io && end.0.s.fate == st.s.fate && end.0.s.bn == st.s.bn
            && if w.ret == SEND_OK then end.0.s.phase == T.Ready && end.0.s.tries == 0
               else end.0.s.phase == T.Aborted
    decreases if st.s.phase == T.Opening then 10 - st.s.tries else 0, io
  {
    var st1 := T.Hear(st, io.Next());
    if st1.s.phase == T.Opening {
      OpenedFollows(st1, io.Advance());
    }
  }

  /** A willing queue stays willing. */
  lemma {:induction false} OpenedLeaves(st: T.State, io: Io)
    ensures Opened(st, io).1.verdicts == io.verdicts
    decreases if st.s.phase == T.Opening then 10 - st.s.tries else 0, io
  {
    if st.s.phase == T.Opening && st.s.tries < 10 {
      OpenedLeaves(T.Hear(st, io.Next()), io.Advance());
    }
  }

  lemma {:induction false} DrivenLeaves(chunks: seq<seq<byte>>, st: T.State, io: Io, upto: nat)
    requires T.Fits(chunks) && io.verdicts == []
    ensures Driven(chunks, st, io, upto).1.verdicts == []
    decreases upto - |st.s.fate|, Download.TRIES - st.s.tries
  {
    if Due(chunks, st, upto) {
      TryOutcome(chunks, st, io.Next());
      var st1 := Try(chunks, st, io.Next());
      if st1.s.phase == T.Ready {
        DrivenLeaves(chunks, st1, Exchange(io, Frame(st.s.bn, chunks[|st.s.fate|])), upto);
      }
    }
  }

  /** The system's sender against the replies of `io`, once it has been asked for the first block. */
  function Answering(chunks: seq<seq<byte>>, st: T.State, io: Io): T.State
    requires T.Fits(chunks)
  {
    var (st1, io1) := Driven(chunks, st, io, |chunks|);
    if st1.s.phase != T.Ready then st1 else Try(chunks, st1, io1.Next())
  }

  /** The same over a whole session. */
  function Session(chunks: seq<seq<byte>>, io: Io): T.State
    requires T.Fits(chunks)
  {
    var (st, io1) := Opened(T.INIT, io);
    if st.s.phase != T.Ready then st else Answering(chunks, st, io1)
  }

  lemma EndFollows(chunks: seq<seq<byte>>, st: T.State, io: Io)
    requires T.Fits(chunks) && st.s.phase == T.Ready && |st.s.fate| == |chunks| && io.verdicts == []
    ensures var end := Try(chunks, st, io.Next());
            if Finish(io).ret == SEND_OK then end.s.phase == T.Ended else end.s.phase == T.Aborted
  {
  }

  lemma BlocksFollow(chunks: seq<seq<byte>>, st: T.State, io: Io, frags: seq<seq<byte>>)
    returns (st2: T.State, io2: Io)
    requires chunks == Download.AllChunks(frags) && io.verdicts == []
    requires st.s.phase == T.Ready && st.s.tries == 0 && st.s.fate == []
    ensures Driven(chunks, st, io, |chunks|) == (st2, io2) && io2.verdicts == []
    ensures FragmentDone(Download.Fragments(io, st.s.bn, frags), st2, io2, |chunks|)
  {
    assert chunks[0..0 + |chunks|] == chunks;
    var end := Driven(chunks, st, io, |chunks|);
    st2, io2 := end.0, end.1;
    FragmentsFollow(chunks, st, io, frags, |chunks|, st2, io2);
    DrivenLeaves(chunks, st, io, |chunks|);
  }

  lemma AnsweringFollows(chunks: seq<seq<byte>>, st: T.State, io: Io, frags: seq<seq<byte>>)
    requires chunks == Download.AllChunks(frags) && io.verdicts == []
    requires st.s.phase == T.Ready && st.s.tries == 0 && st.s.fate == []
    ensures var sent, end := Download.Fragments(io, st.s.bn, frags), Answering(chunks, st, io);
            if sent.ret >= 0 && Finish(sent.io).ret == SEND_OK then end.s.phase == T.Ended
            else end.s.phase == T.Aborted
  {
    var st1, io1 := BlocksFollow(chunks, st, io, frags);
    if st1.s.phase == T.Ready {
      EndFollows(chunks, st1, io1);
    }
  }

  /** The download command succeeds exactly when the system's sender ends its session, and else it aborts. */
  lemma SessionFollows(io: Io, frags: seq<seq<byte>>)
    requires io.verdicts == []
    ensures var end := Session(Download.AllChunks(frags), io);
            if Download.Fget(io, frags, true).ok then end.s.phase == T.Ended else end.s.phase == T.Aborted
  {
    var st, io1 := OpeningFollows(T.INIT, io);
    if st.s.phase == T.Ready {
      AnsweringFollows(Download.AllChunks(frags), st, io1, frags);
    }
  }

  lemma OpeningFollows(st: T.State, io: Io) returns (st1: T.State, io1: Io)
    requires st.s.phase == T.Opening && st.s.tries == 0 && io.verdicts == []
    ensures Opened(st, io) == (st1, io1) && io1 == AwaitRequest(io, 10).io && io1.verdicts == []
    ensures st1.s.fate == st.s.fate && st1.s.bn == st.s.bn
    ensures if AwaitRequest(io, 10).ret == SEND_OK then st1.s.phase == T.Ready && st1.s.tries == 0
            else st1.s.phase == T.Aborted
  {
    OpenedFollows(st, io);
    OpenedLeaves(st, io);
    var end := Opened(st, io);
    st1, io1 := end.0, end.1;
  }
}
