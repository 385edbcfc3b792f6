/** Whole runs of the upload: undisturbed, repeated, empty, and with a frame whose start is damaged. */
module UploadRuns {
  import opened Bytes
  import opened Serial
  import opened Xmodem
  import opened Upload
  import Download

  /** The payloads written to the socket in full, in order. */
  function Given(t: seq<Event>): seq<seq<byte>> {
    var w := FullWrites(t);
    seq(|w|, i requires 0 <= i < |w| => w[i].data)
  }

  lemma GivenNothing()
    ensures Given([]) == []
  {
  }

  lemma GivenMore(t: seq<Event>, e: Event)
    ensures Given(t + [e]) == Given(t) + if e.Deliver? && e.ok then [e.data] else []
  {
    assert (t + [e])[..|t|] == t;
    assert FullWrites(t + [e]) == FullWrites(t) + if e.Deliver? && e.ok then [e] else [];
  }

  lemma GivenOffer(io: Io, b: byte)
    ensures Given(io.Offer([b]).trace) == Given(io.trace) && !Closed(io.Offer([b]).trace)
  {
    GivenMore(io.trace, Put([b], Queued(io.verdicts, 1), io.pos));
  }

  lemma GivenCancel(io: Io)
    ensures Given(Cancel(io).trace) == Given(io.trace) && !Closed(Cancel(io).trace)
  {
    GivenOffer(io, CAN);
    GivenOffer(io.Offer([CAN]), CAN);
  }

  /** Nothing but a taken block is given to the socket. */
  lemma GivenReceive(io: Io, bn: byte)
    ensures Given(Receive(io, bn).io.trace) == Given(io.trace)
    ensures !Closed(io.trace) ==> !Closed(Receive(io, bn).io.trace)
  {
    GivenOffer(io.Advance(), ACK);
  }

  /**
   * The session ends with result `ret`, and without another delivery; with the socket closed if more
   * bytes were declared than that result counts.
   */
  predicate EndsWith(size: nat, s: Cb, e: CbEnd, ret: int) {
    e.ret == ret && Given(e.io.trace) == Given(s.io.trace) && (Closed(e.io.trace) <==> 0 <= ret < size)
  }

  // ---- An undisturbed upload ------------------------------------------------------------

  predicate AllFit(ps: seq<seq<byte>>) {
    forall i :: 0 <= i < |ps| ==> |ps[i]| <= BLOCK
  }

  /** The frames that follow block `bn`, and the EOT behind them. */
  function Stream(bn: byte, ps: seq<seq<byte>>): seq<byte>
    requires AllFit(ps)
    decreases ps
  {
    if ps == [] then [EOT] else Frame(Successor(bn), ps[0]) + Stream(Successor(bn), ps[1..])
  }

  lemma HeardSplit(rx: seq<Arrival>, at: nat, a: seq<byte>, b: seq<byte>)
    requires Heard(rx, at, a + b)
    ensures Heard(rx, at, a) && Heard(rx, at + |a|, b)
  {
    forall i | 0 <= i < |a| ensures rx[at + i] == Byte(a[i]) { assert (a + b)[i] == a[i]; }
    forall i | 0 <= i < |b| ensures rx[at + |a| + i] == Byte(b[i]) { assert (a + b)[|a| + i] == b[i]; }
  }

  /** Queue and socket take everything. */
  predicate Willing(io: Io) {
    io.verdicts == [] && io.writes == []
  }

  /** The callback after taking one block whose payload is `data`. */
  function Took(s: Cb, data: seq<byte>, block: seq<byte>): Cb {
    Cb(s.io.(pos := s.io.pos + FRAME).Write(data).Offer([ACK]), Successor(s.bn), 0, s.total + 128, block)
  }

  lemma TurnTakes(size: nat, s: Cb, p: seq<byte>)
    requires s.Valid() && Willing(s.io) && |p| <= BLOCK && Heard(s.io.rx, s.io.pos, Frame(Successor(s.bn), p))
    ensures Turn(size, s) == More(Took(s, Padded(p), Frame(Successor(s.bn), p)))
  {
    var f := Frame(Successor(s.bn), p);
    FrameRoundTrip(s.io, s.bn, p);
    ReceivedOk(s.io, s.bn);
    assert Overlay(s.block, f) == f;
  }

  lemma TookGives(s: Cb, data: seq<byte>, block: seq<byte>)
    requires Willing(s.io)
    ensures Given(Took(s, data, block).io.trace) == Given(s.io.trace) + [data]
    ensures !Closed(Took(s, data, block).io.trace)
  {
    var io1 := s.io.(pos := s.io.pos + FRAME);
    GivenMore(io1.trace, Deliver(data, true, io1.pos));
    GivenOffer(io1.Write(data), ACK);
  }

  /**
   * From any good block on: the frames that follow it and an EOT are all delivered, and counted, and
   * the socket is closed exactly when more bytes were declared.
   */
  lemma {:induction false} CbLoopDelivers(size: nat, s: Cb, ps: seq<seq<byte>>)
    requires s.Valid() && Willing(s.io) && AllFit(ps) && Heard(s.io.rx, s.io.pos, Stream(s.bn, ps))
    requires !Closed(s.io.trace)
    ensures var e := CbLoop(size, s);
            && e.ret == s.total + 128 * |ps| && (Closed(e.io.trace) <==> size > e.ret)
            && Given(e.io.trace) == Given(s.io.trace) + Download.PaddedAll(ps)
    decreases |ps|
  {
    if ps == [] {
      assert s.io.rx[s.io.pos + 0] == Byte(Stream(s.bn, ps)[0]);
      LoopConcludes(size, s);
      assert Given(s.io.trace) + Download.PaddedAll(ps) == Given(s.io.trace);
    } else {
      var n := LoopTakes(size, s, ps, CbLoop(size, s));
      CbLoopDelivers(size, n, ps[1..]);
      OneMorePadded(Given(s.io.trace), ps);
    }
  }

  /** The first of the frames that follow. */
  lemma LoopTakes(size: nat, s: Cb, ps: seq<seq<byte>>, e: CbEnd) returns (n: Cb)
    requires s.Valid() && Willing(s.io) && AllFit(ps) && Heard(s.io.rx, s.io.pos, Stream(s.bn, ps)) && ps != []
    requires e == CbLoop(size, s)
    ensures n.Valid() && Willing(n.io) && !Closed(n.io.trace) && n.total == s.total + 128 && e == CbLoop(size, n)
    ensures Heard(n.io.rx, n.io.pos, Stream(n.bn, ps[1..]))
    ensures Given(n.io.trace) == Given(s.io.trace) + [Padded(ps[0])]
  {
    var f := StreamNext(s.io.rx, s.io.pos, s.bn, ps);
    n := Took(s, Padded(ps[0]), f);
    TurnTakes(size, s, ps[0]);
    TookGives(s, Padded(ps[0]), f);
    LoopOn(size, s, n, e);
  }

  lemma StreamNext(rx: seq<Arrival>, at: nat, bn: byte, ps: seq<seq<byte>>) returns (f: seq<byte>)
    requires AllFit(ps) && ps != [] && Heard(rx, at, Stream(bn, ps))
    ensures f == Frame(Successor(bn), ps[0]) && Heard(rx, at, f)
    ensures Heard(rx, at + FRAME, Stream(Successor(bn), ps[1..]))
  {
    f := Frame(Successor(bn), ps[0]);
    HeardSplit(rx, at, f, Stream(Successor(bn), ps[1..]));
  }

  lemma LoopOn(size: nat, s: Cb, n: Cb, e: CbEnd)
    requires s.Valid() && n.Valid() && Turn(size, s) == More(n) && e == CbLoop(size, s)
    ensures e == CbLoop(size, n)
  {
  }

  lemma OneMorePadded(before: seq<seq<byte>>, ps: seq<seq<byte>>)
    requires ps != [] && AllFit(ps)
    ensures (before + [Padded(ps[0])]) + Download.PaddedAll(ps[1..]) == before + Download.PaddedAll(ps)
  {
    assert Download.PaddedAll(ps) == [Padded(ps[0])] + Download.PaddedAll(ps[1..]);
  }

  /** An EOT whose ACK is queued, or a CAN, ends the callback with the bytes counted so far. */
  lemma LoopConcludes(size: nat, s: Cb)
    requires s.Valid() && !Closed(s.io.trace)
    requires s.io.Next() == Byte(CAN) || (s.io.Next() == Byte(EOT) && Queued(s.io.verdicts, 1) == 1)
    ensures EndsWith(size, s, CbLoop(size, s), s.total)
  {
    var r := Receive(s.io, s.bn);
    GivenReceive(s.io, s.bn);
    ReactConcludes(size, s, r);
  }

  lemma ReactConcludes(size: nat, s: Cb, r: Received)
    requires s.Valid() && s.io.pos < r.io.pos <= |s.io.rx| && r.io.rx == s.io.rx && r.got == []
    requires CallbackReaction(r.ret, s.cnt).Conclude? && r.ret != RECV_RETRY
    requires Given(r.io.trace) == Given(s.io.trace) && !Closed(r.io.trace)
    ensures var t := React(size, s, r); t.Done? && EndsWith(size, s, t.end, s.total)
  {
    GivenMore(r.io.trace, Close(r.io.pos));
  }

  /** The session gives the socket `ps`, padded, and succeeds exactly when no more was declared. */
  predicate Delivers(io: Io, size: nat, ps: seq<seq<byte>>, end: FputEnd)
    requires AllFit(ps)
  {
    && Given(end.io.trace) == Given(io.trace) + Download.PaddedAll(ps)
    && (end.ok <==> size <= 128 * |ps|) && (Closed(end.io.trace) <==> size > 128 * |ps|)
  }

  /** A pause, or a byte that begins no message: anything but SOH, EOT and CAN. */
  predicate Idle(a: Arrival) {
    a == Silence || (a.Byte? && a.b != 0x01 && a.b != 0x04 && a.b != 0x18)
  }

  /** The line brings `k` of them first. */
  predicate Idles(io: Io, k: nat) {
    io.pos + k <= |io.rx| && forall p :: io.pos <= p < io.pos + k ==> Idle(io.rx[p])
  }

  /** The port after `k` of them, each answered with a NAK. */
  function AskedFor(io: Io, k: nat): (r: Io)
    requires io.pos + k <= |io.rx|
    ensures r.rx == io.rx && r.pos == io.pos + k && r.writes == io.writes && (io.verdicts == [] ==> r.verdicts == [])
    decreases k, io
  {
    if k == 0 then io
    else
      var before := AskedFor(io, k - 1);
      before.(pos := before.pos + 1).Offer([NAK])
  }

  /** What has been said meanwhile. */
  lemma {:induction false} AskedForSays(io: Io, k: nat)
    requires io.pos + k <= |io.rx| && io.verdicts == []
    ensures AskedFor(io, k).trace == io.trace + seq(k, i requires 0 <= i < k => Put([0x15], 1, io.pos + 1 + i))
    ensures Given(AskedFor(io, k).trace) == Given(io.trace)
    decreases k
  {
    if k > 0 {
      AskedForSays(io, k - 1);
      var before := AskedFor(io, k - 1);
      GivenOffer(before.(pos := before.pos + 1), NAK);
    }
  }

  lemma IdleReceived(io: Io, bn: byte)
    requires Idles(io, 1)
    ensures Receive(io, bn) == Received(RECV_RETRY, bn, [], io.(pos := io.pos + 1))
  {
    assert Idle(io.rx[io.pos]);
    if io.Next().Byte? {
      NoiseReceived(io, bn);
    }
  }

  /** While the first block is awaited, ten of them are answered with a NAK, and the eleventh with two CANs. */
  lemma FirstAsks(io: Io, cnt: nat, block: seq<byte>)
    requires Idles(io, 1) && cnt <= 10 && |block| == FRAME
    ensures var io1 := io.(pos := io.pos + 1);
            FirstLoop(io, cnt, block) ==
            if cnt < 10 then FirstLoop(io1.Offer([NAK]), cnt + 1, block) else NotStarted(Cancel(io1), block)
  {
    IdleReceived(io, 0);
    assert Overlay(block, []) == block;
  }

  lemma {:induction false} FirstWaits(io: Io, block: seq<byte>, k: nat, e: FirstEnd)
    requires Idles(io, k) && k <= 10 && |block| == FRAME && e == FirstLoop(io, 0, block)
    ensures e == FirstLoop(AskedFor(io, k), k, block)
    decreases k
  {
    if k > 0 {
      FirstWaits(io, block, k - 1, e);
      AsksOnce(io, block, k, AskedFor(io, k - 1), AskedFor(io, k), e);
    }
  }

  lemma AsksOnce(io: Io, block: seq<byte>, k: nat, before: Io, after: Io, e: FirstEnd)
    requires Idles(io, k) && 0 < k <= 10 && |block| == FRAME
    requires before == AskedFor(io, k - 1) && after == AskedFor(io, k) && e == FirstLoop(before, k - 1, block)
    ensures e == FirstLoop(after, k, block)
  {
    FirstAsks(before, k - 1, block);
    assert after == before.(pos := before.pos + 1).Offer([NAK]);
  }

  /**
   * A willing server gets the whole file: behind up to ten pauses or bytes that begin no message, one or
   * more frames numbered from 1 and an EOT, and the session delivers every payload in order. It reports
   * success exactly when no more was declared.
   */
  lemma FputDelivers(io: Io, block: seq<byte>, size: nat, k: nat, ps: seq<seq<byte>>)
    requires Idles(io, k) && k <= 10 && |block| == FRAME && Willing(io) && AllFit(ps) && ps != []
    requires Heard(io.rx, io.pos + k, Stream(0, ps))
    ensures Delivers(io, size, ps, Fput(io, block, size, true, true))
  {
    var f := StreamNext(io.rx, io.pos + k, 0, ps);
    var io1, io2, e, end := TakenBehind(io, block, size, k, ps[0], f);
    CallbackDelivers(io, io1, io2, f, size, ps, e, end);
  }

  /** The callback behind a first frame taken, with the others and an EOT to come. */
  lemma CallbackDelivers(io: Io, io1: Io, io2: Io, f: seq<byte>, size: nat, ps: seq<seq<byte>>, e: CbEnd,
                         end: FputEnd)
    requires Willing(io1) && Given(io1.trace) == Given(io.trace) && AllFit(ps) && ps != [] && f == Frame(1, ps[0])
    requires io1.pos + FRAME <= |io1.rx| && io2 == io1.(pos := io1.pos + FRAME)
    requires Heard(io2.rx, io2.pos, Stream(1, ps[1..])) && e == Callback(size, io2, f)
    requires end == FputEnd(e.ret >= 0 && !Closed(e.io.trace), true, e.io)
    ensures Delivers(io, size, ps, end)
  {
    var s := CallbackTakes(io1, io2, f, size, ps[0], e);
    BehindFirst(io, s, size, ps, e);
  }

  lemma CallbackTakes(io1: Io, io2: Io, f: seq<byte>, size: nat, p: seq<byte>, e: CbEnd) returns (s: Cb)
    requires Willing(io1) && |p| <= BLOCK && f == Frame(1, p) && io1.pos + FRAME <= |io1.rx|
    requires io2 == io1.(pos := io1.pos + FRAME) && e == Callback(size, io2, f)
    ensures s.Valid() && Willing(s.io) && !Closed(s.io.trace) && s.bn == 1 && s.total == 128
    ensures s.io.rx == io2.rx && s.io.pos == io2.pos && e == CbLoop(size, s)
    ensures Given(s.io.trace) == Given(io1.trace) + [Padded(p)]
  {
    s := Cb(io2.Write(Padded(p)).Offer([ACK]), 1, 0, 128, f);
    CallbackEnters(size, io2, f);
    TookGives(Cb(io1, 0, 0, 0, f), Padded(p), f);
    assert s == Took(Cb(io1, 0, 0, 0, f), Padded(p), f);
  }

  lemma BehindFirst(io: Io, s: Cb, size: nat, ps: seq<seq<byte>>, e: CbEnd)
    requires s.Valid() && Willing(s.io) && !Closed(s.io.trace) && AllFit(ps) && ps != []
    requires s.bn == 1 && s.total == 128 && Heard(s.io.rx, s.io.pos, Stream(1, ps[1..]))
    requires Given(s.io.trace) == Given(io.trace) + [Padded(ps[0])] && e == CbLoop(size, s)
    ensures e.ret == 128 * |ps| && (Closed(e.io.trace) <==> size > 128 * |ps|)
    ensures Given(e.io.trace) == Given(io.trace) + Download.PaddedAll(ps)
  {
    CbLoopDelivers(size, s, ps[1..]);
    OneMorePadded(Given(io.trace), ps);
  }

  /** A session whose first block comes behind `k` idle arrivals ends as its callback does. */
  lemma TakenBehind(io: Io, block: seq<byte>, size: nat, k: nat, p: seq<byte>, f: seq<byte>)
    returns (io1: Io, io2: Io, e: CbEnd, end: FputEnd)
    requires Idles(io, k) && k <= 10 && |block| == FRAME && Willing(io)
    requires |p| <= BLOCK && f == Frame(1, p) && Heard(io.rx, io.pos + k, f)
    ensures Willing(io1) && io1.rx == io.rx && io1.pos == io.pos + k && Given(io1.trace) == Given(io.trace)
    ensures io2 == io1.(pos := io1.pos + FRAME) && io2.rx == io.rx && io2.pos == io.pos + k + FRAME
    ensures e == Callback(size, io2, f) && end == Fput(io, block, size, true, true)
    ensures end == FputEnd(e.ret >= 0 && !Closed(e.io.trace), true, e.io)
  {
    var first;
    io1, io2, first := FirstBehind(io, block, k, p);
    e, end := FputCalls(io, io2, block, size, f, first);
  }

  /** The first block behind `k` idle arrivals, taken. */
  lemma FirstBehind(io: Io, block: seq<byte>, k: nat, p: seq<byte>) returns (io1: Io, io2: Io, first: FirstEnd)
    requires Idles(io, k) && k <= 10 && |block| == FRAME && Willing(io)
    requires |p| <= BLOCK && Heard(io.rx, io.pos + k, Frame(1, p))
    ensures Willing(io1) && io1.rx == io.rx && io1.pos == io.pos + k && Given(io1.trace) == Given(io.trace)
    ensures io2 == io1.(pos := io1.pos + FRAME) && io2.pos <= |io2.rx|
    ensures first == FirstLoop(io.Offer([NAK]), 0, block) && first == Started(io2, Frame(1, p))
  {
    io1, first := BehindIdles(io, block, k);
    io2 := io1.(pos := io1.pos + FRAME);
    FirstTakes(io1, k, block, p, first);
  }

  /** Where `k` idle arrivals leave the session, and what the wait for its first block comes to. */
  lemma BehindIdles(io: Io, block: seq<byte>, k: nat) returns (io1: Io, first: FirstEnd)
    requires Idles(io, k) && k <= 10 && |block| == FRAME && io.verdicts == []
    ensures io1 == AskedFor(io.Offer([NAK]), k) && Given(io1.trace) == Given(io.trace)
    ensures io1.rx == io.rx && io1.pos == io.pos + k && io1.verdicts == [] && io1.writes == io.writes
    ensures first == FirstLoop(io.Offer([NAK]), 0, block) == FirstLoop(io1, k, block)
  {
    var io0 := io.Offer([NAK]);
    GivenOffer(io, NAK);
    AskedForSays(io0, k);
    io1, first := AskedFor(io0, k), FirstLoop(io0, 0, block);
    FirstWaits(io0, block, k, first);
  }

  lemma FputCalls(io: Io, io2: Io, block: seq<byte>, size: nat, f: seq<byte>, first: FirstEnd)
    returns (e: CbEnd, end: FputEnd)
    requires io.pos <= |io.rx| && |block| == FRAME && io.verdicts == []
    requires first == FirstLoop(io.Offer([NAK]), 0, block) == Started(io2, f) && io2.pos <= |io2.rx| && |f| == FRAME
    ensures e == Callback(size, io2, f) && end == Fput(io, block, size, true, true)
    ensures end == FputEnd(e.ret >= 0 && !Closed(e.io.trace), true, e.io)
  {
    e, end := Callback(size, io2, f), Fput(io, block, size, true, true);
  }

  lemma FirstTakes(io: Io, cnt: nat, block: seq<byte>, p: seq<byte>, first: FirstEnd)
    requires cnt <= 10 && io.pos <= |io.rx| && |block| == FRAME && |p| <= BLOCK
    requires Heard(io.rx, io.pos, Frame(1, p)) && first == FirstLoop(io, cnt, block)
    ensures first == Started(io.(pos := io.pos + FRAME), Frame(1, p))
  {
    var f := Frame(1, p);
    FrameRoundTrip(io, 0, p);
    ReceivedOk(io, 0);
    assert Overlay(block, f) == f;
  }

  /** At the eleventh it gives up: eleven NAKs in all, two CANs, and nothing delivered. */
  lemma FputGivesUp(io: Io, block: seq<byte>, size: nat, connects: bool, accepted: bool)
    requires Idles(io, 11) && |block| == FRAME && io.verdicts == []
    ensures var end := Fput(io, block, size, connects, accepted);
            && !end.ok && Given(end.io.trace) == Given(io.trace)
            && end.io.trace ==
               io.trace + [Put([0x15], 1, io.pos)]
               + seq(10, i requires 0 <= i < 10 => Put([0x15], 1, io.pos + 1 + i))
               + [Put([0x18], 1, io.pos + 11), Put([0x18], 1, io.pos + 11)]
  {
    var io1, first := BehindIdles(io, block, 10);
    AskedForSays(io.Offer([NAK]), 10);
    FirstAsks(io1, 10, block);
    var io2 := io1.(pos := io1.pos + 1);
    GivenCancel(io2);
    FputStops(io, block, size, connects, accepted, first);
    assert Cancel(io2).trace == (io2.trace + [Put([0x18], 1, io2.pos)]) + [Put([0x18], 1, io2.pos)];
  }

  lemma FputStops(io: Io, block: seq<byte>, size: nat, connects: bool, accepted: bool, first: FirstEnd)
    requires io.pos <= |io.rx| && |block| == FRAME && Queued(io.verdicts, 1) == 1
    requires first == FirstLoop(io.Offer([NAK]), 0, block) && first.NotStarted?
    ensures Fput(io, block, size, connects, accepted) == FputEnd(false, true, first.io)
  {
  }

  /** Anything else that is no first block ends the session in a failure, and nothing more is said. */
  lemma FputRefuses(io: Io, block: seq<byte>, size: nat, connects: bool, accepted: bool, k: nat, p: seq<byte>)
    requires Idles(io, k) && k <= 10 && io.pos + k < |io.rx| && |block| == FRAME && io.verdicts == []
    requires var a := io.rx[io.pos + k];
             a == Byte(0x18) || a.Fault? || (|p| <= BLOCK && Heard(io.rx, io.pos + k, Frame(0, p)))
    ensures var end := Fput(io, block, size, connects, accepted);
            !end.ok && end.io.trace == AskedFor(io.Offer([NAK]), k).trace && Given(end.io.trace) == Given(io.trace)
  {
    var io1, first := BehindIdles(io, block, k);
    FirstRefuses(io1, k, block, p, first);
    FputStops(io, block, size, connects, accepted, first);
  }

  lemma FirstRefuses(io: Io, cnt: nat, block: seq<byte>, p: seq<byte>, first: FirstEnd)
    requires cnt <= 10 && io.pos < |io.rx| && |block| == FRAME && first == FirstLoop(io, cnt, block)
    requires var a := io.rx[io.pos];
             a == Byte(0x18) || a.Fault? || (|p| <= BLOCK && Heard(io.rx, io.pos, Frame(0, p)))
    ensures first.NotStarted? && first.io.trace == io.trace
  {
    if io.rx[io.pos] != Byte(0x18) && !io.rx[io.pos].Fault? {
      FrameRepeated(io, 0, p);
    }
  }

  /** The callback hands over the first block and enters its loop. */
  lemma CallbackEnters(size: nat, io: Io, block: seq<byte>)
    requires io.pos <= |io.rx| && |block| == FRAME && Willing(io)
    ensures Callback(size, io, block) == CbLoop(size, Cb(io.Write(block[3..131]).Offer([ACK]), 1, 0, 128, block))
  {
  }

  /**
   * When the socket refuses a good block, the session is cancelled with the error number as its result:
   * negative inside the loop, and positive, without cancelling, for the first block.
   */
  lemma RefusedWrite(size: nat, s: Cb, p: seq<byte>)
    requires s.Valid() && |p| <= BLOCK && Heard(s.io.rx, s.io.pos, Frame(Successor(s.bn), p))
    requires s.io.writes != [] && s.io.writes[0] != 0
    ensures var e, at := CbLoop(size, s), s.io.pos + FRAME;
            && e.ret == -(s.io.writes[0] as int)
            && e.io.trace == Cancel(s.io.(pos := at).Write(Padded(p))).trace
    ensures Callback(size, s.io, s.block).ret == s.io.writes[0]
  {
    var f := Frame(Successor(s.bn), p);
    FrameRoundTrip(s.io, s.bn, p);
    ReceivedOk(s.io, s.bn);
    assert Overlay(s.block, f) == f;
  }

  /** Cancelling offers 0x18, and once more if the first was queued. */
  lemma CancelOffers(io: Io)
    ensures Queued(io.verdicts, 1) == 0 ==> Cancel(io).trace == io.trace + [Put([0x18], 0, io.pos)]
    ensures Queued(io.verdicts, 1) == 1 ==>
              Cancel(io).trace == io.trace + [Put([0x18], 1, io.pos)]
                                  + [Put([0x18], Queued(AfterOffer(io.verdicts, 1), 1), io.pos)]
  {
  }

  /** A session whose opening NAK finds no room, or that does not reach the server, fails and delivers nothing. */
  lemma UnreachedUpload(io: Io, block: seq<byte>, size: nat, connects: bool, accepted: bool)
    requires io.pos <= |io.rx| && |block| == FRAME && (Queued(io.verdicts, 1) == 0 || !connects)
    ensures var end := Fput(io, block, size, connects, accepted);
            !end.ok && (Queued(io.verdicts, 1) == 0 ==> end.io.trace == io.trace + [Put([0x15], 0, io.pos)])
  {
  }

  // ---- Uploads that go wrong --------------------------------------------------------------

  /** An empty upload, an EOT before any frame, is refused: nothing is delivered and it fails. */
  lemma EmptyUpload(io: Io, block: seq<byte>, size: nat, connects: bool, accepted: bool)
    requires io.pos <= |io.rx| && |block| == FRAME && io.Next() == Byte(EOT)
    ensures var end := Fput(io, block, size, connects, accepted);
            !end.ok && Given(end.io.trace) == Given(io.trace)
  {
    GivenOffer(io, NAK);
    GivenReceive(io.Offer([NAK]), 0);
  }

  /** A block sent again is consumed without any reaction: neither ACK nor NAK, and no count. */
  lemma DuplicateIgnored(size: nat, s: Cb, payload: seq<byte>)
    requires s.Valid() && |payload| <= BLOCK && Heard(s.io.rx, s.io.pos, Frame(s.bn, payload))
    ensures Turn(size, s) ==
            More(Cb(s.io.(pos := s.io.pos + FRAME), s.bn, s.cnt, s.total, Frame(s.bn, payload)))
  {
    var f := Frame(s.bn, payload);
    FrameRepeated(s.io, s.bn, payload);
    assert Overlay(s.block, f) == f;
  }

  /** The callback after one byte that begins no message: it has asked for the block again. */
  function Asked(s: Cb): (n: Cb)
    requires s.Valid() && s.cnt <= 10 && s.io.pos < |s.io.rx|
    ensures n.Valid() && n.io.rx == s.io.rx && n.io.pos == s.io.pos + 1 && n.cnt == s.cnt + 1
  {
    Cb(s.io.(pos := s.io.pos + 1).Offer([NAK]), s.bn, s.cnt + 1, s.total, s.block)
  }

  lemma AskedKeeps(s: Cb)
    requires s.Valid() && s.cnt <= 10 && s.io.pos < |s.io.rx|
    ensures var n := Asked(s);
            && !Closed(n.io.trace) && n.bn == s.bn && n.total == s.total && n.block == s.block
            && n.io.writes == s.io.writes
            && (s.io.verdicts == [] ==> n.io.verdicts == []) && Given(n.io.trace) == Given(s.io.trace)
  {
    GivenOffer(s.io.(pos := s.io.pos + 1), NAK);
  }

  /** The same after `k` such bytes. */
  function Noise(s: Cb, k: nat): (n: Cb)
    requires s.Valid() && s.cnt + k <= 11 && s.io.pos + k <= |s.io.rx|
    ensures n.Valid() && n.io.rx == s.io.rx && n.io.pos == s.io.pos + k && n.cnt == s.cnt + k
    decreases k, s
  {
    if k == 0 then s else Asked(Noise(s, k - 1))
  }

  lemma {:induction false} NoiseKeeps(s: Cb, k: nat)
    requires s.Valid() && s.cnt + k <= 11 && s.io.pos + k <= |s.io.rx|
    ensures var n := Noise(s, k);
            && (!Closed(s.io.trace) ==> !Closed(n.io.trace))
            && n.bn == s.bn && n.total == s.total && n.block == s.block && n.io.writes == s.io.writes
            && (s.io.verdicts == [] ==> n.io.verdicts == []) && Given(n.io.trace) == Given(s.io.trace)
    decreases k
  {
    if k > 0 {
      NoiseKeeps(s, k - 1);
      AskedKeeps(Noise(s, k - 1));
    }
  }

  /** How many of the first `n` bytes come before one that begins a message. */
  function FirstStarter(w: seq<byte>, n: nat): (k: nat)
    requires n <= |w|
    ensures k <= n && (forall i :: 0 <= i < k ==> !Starter(w[i])) && (k < n ==> Starter(w[k]))
  {
    if n == 0 || Starter(w[0]) then 0 else 1 + FirstStarter(w[1..], n - 1)
  }

  lemma NoiseTurn(size: nat, s: Cb)
    requires s.Valid() && s.io.Next().Byte? && !Starter(s.io.Next().b)
    ensures s.cnt <= 10 ==> Turn(size, s) == More(Asked(s))
    ensures s.cnt == 11 ==> EndsWith(size, s, CbLoop(size, s), -1)
  {
    NoiseReceived(s.io, s.bn);
    assert Overlay(s.block, []) == s.block;
    if s.cnt == 11 {
      GivenCancel(s.io.(pos := s.io.pos + 1));
    }
  }

  /** The next byte begins no message, and the callback has patience left. */
  predicate AtNoise(s: Cb) {
    s.Valid() && s.cnt <= 10 && s.io.Next().Byte? && !Starter(s.io.Next().b)
  }

  lemma NoiseLoop(size: nat, s: Cb)
    requires AtNoise(s)
    ensures CbLoop(size, s) == CbLoop(size, Asked(s))
  {
    NoiseTurn(size, s);
  }

  /** Whatever one such byte leaves alone, any number of them does. */
  lemma {:induction false} NoiseLeaves<T>(f: Cb -> T, s: Cb, w: seq<byte>, k: nat)
    requires forall n {:trigger Asked(n)} :: AtNoise(n) ==> f(Asked(n)) == f(n)
    requires s.Valid() && s.cnt + k <= 11 && k <= |w| && Heard(s.io.rx, s.io.pos, w)
    requires forall i :: 0 <= i < k ==> !Starter(w[i])
    ensures f(Noise(s, k)) == f(s)
    decreases k
  {
    if k > 0 {
      NoiseLeaves(f, s, w, k - 1);
      assert s.io.rx[s.io.pos + (k - 1)] == Byte(w[k - 1]);
      assert AtNoise(Noise(s, k - 1));
    }
  }

  lemma NoiseSkipped(size: nat, s: Cb, w: seq<byte>, k: nat, e: CbEnd)
    requires s.Valid() && e == CbLoop(size, s) && s.cnt + k <= 11 && k <= |w| && Heard(s.io.rx, s.io.pos, w)
    requires forall i :: 0 <= i < k ==> !Starter(w[i])
    ensures e == CbLoop(size, Noise(s, k))
  {
    var f := (n: Cb) => if n.Valid() then CbLoop(size, n) else CbEnd(0, n.io, n.block);
    forall n | AtNoise(n) ensures f(Asked(n)) == f(n) {
      NoiseLoop(size, n);
    }
    NoiseLeaves(f, s, w, k);
  }

  /**
   * How the session ends that comes to a byte which begins a message, the first of `w`; at an SOH
   * a frame is collected from there, and at an EOT whose ACK finds no room it goes on behind it.
   */
  predicate EndsFrom(size: nat, s: Cb, w: seq<byte>, e: CbEnd)
    requires s.Valid() && w != []
  {
    if w[0] == SOH then e == CbLoop(size, s) && Misaligned(s, w)
    else if w[0] == CAN || Queued(s.io.verdicts, 1) == 1 then EndsWith(size, s, e, s.total)
    else s.io.pos < |s.io.rx| && e == CbLoop(size, s.(io := s.io.(pos := s.io.pos + 1).Offer([ACK])))
  }

  lemma StarterTurn(size: nat, s: Cb, w: seq<byte>)
    requires s.Valid() && 0 < |w| <= FRAME && Starter(w[0]) && Heard(s.io.rx, s.io.pos, w)
    requires !Closed(s.io.trace)
    ensures EndsFrom(size, s, w, CbLoop(size, s))
  {
    assert s.io.rx[s.io.pos + 0] == Byte(w[0]);
    if w[0] == SOH {
      CollectsFrom(s, w);
    } else if w[0] == CAN || Queued(s.io.verdicts, 1) == 1 {
      LoopConcludes(size, s);
    } else {
      EndRefused(size, s);
    }
  }

  /** An EOT whose ACK finds no room is passed over. */
  lemma EndRefused(size: nat, s: Cb)
    requires s.Valid() && s.io.Next() == Byte(EOT) && Queued(s.io.verdicts, 1) == 0
    ensures s.io.pos < |s.io.rx|
    ensures CbLoop(size, s) == CbLoop(size, s.(io := s.io.(pos := s.io.pos + 1).Offer([ACK])))
  {
    assert Overlay(s.block, []) == s.block;
    LoopOn(size, s, s.(io := s.io.(pos := s.io.pos + 1).Offer([ACK])), CbLoop(size, s));
  }

  /**
   * A message whose start is damaged, or any other run `w` of bytes. The callback asks again for
   * each byte that begins no message, until the first one that does; `k` of them come before it.
   * With none among as many as it has patience for, it gives up.
   */
  lemma GarbledRun(size: nat, s: Cb, w: seq<byte>, e: CbEnd)
    requires s.Valid() && e == CbLoop(size, s) && Heard(s.io.rx, s.io.pos, w) && 12 - s.cnt <= |w| <= FRAME
    requires !Closed(s.io.trace)
    ensures var k := FirstStarter(w, 12 - s.cnt);
            if k == 12 - s.cnt then EndsWith(size, s, e, -1) else EndsFrom(size, Noise(s, k), w[k..], e)
  {
    var k := FirstStarter(w, 12 - s.cnt);
    var skipped := if k == 12 - s.cnt then k - 1 else k;
    var n := BehindNoise(size, s, w, skipped, e);
    var v := BytesBehind(s, n, w, skipped);
    AfterNoise(size, n, v, e);
  }

  lemma BytesBehind(s: Cb, n: Cb, w: seq<byte>, k: nat) returns (v: seq<byte>)
    requires k < |w| && Heard(s.io.rx, s.io.pos, w) && n.io.rx == s.io.rx && n.io.pos == s.io.pos + k
    ensures v == w[k..] && |v| == |w| - k && v[0] == w[k] && Heard(n.io.rx, n.io.pos, v)
  {
    v := w[k..];
    HeardBehind(s.io.rx, s.io.pos, w, k);
  }

  /** The callback `n` behind `k` bytes that begin no message. */
  lemma BehindNoise(size: nat, s: Cb, w: seq<byte>, k: nat, e: CbEnd) returns (n: Cb)
    requires s.Valid() && !Closed(s.io.trace) && e == CbLoop(size, s) && s.cnt + k <= 11 && k < |w|
    requires Heard(s.io.rx, s.io.pos, w) && forall i :: 0 <= i < k ==> !Starter(w[i])
    ensures n == Noise(s, k) && n.io.rx == s.io.rx && n.io.pos == s.io.pos + k && e == CbLoop(size, n)
    ensures n.Valid() && !Closed(n.io.trace) && n.cnt == s.cnt + k && Given(n.io.trace) == Given(s.io.trace)
  {
    n := Noise(s, k);
    NoiseSkipped(size, s, w, k, e);
    NoiseKeeps(s, k);
  }

  lemma AfterNoise(size: nat, s: Cb, w: seq<byte>, e: CbEnd)
    requires s.Valid() && 0 < |w| <= FRAME && Heard(s.io.rx, s.io.pos, w) && e == CbLoop(size, s)
    requires !Closed(s.io.trace)
    ensures Starter(w[0]) ==> EndsFrom(size, s, w, e)
    ensures !Starter(w[0]) && s.cnt == 11 ==> EndsWith(size, s, e, -1)
  {
    assert s.io.rx[s.io.pos + 0] == Byte(w[0]);
    if Starter(w[0]) {
      StarterTurn(size, s, w);
    } else if s.cnt == 11 {
      NoiseTurn(size, s);
    }
  }

  lemma HeardBehind(rx: seq<Arrival>, at: nat, w: seq<byte>, k: nat)
    requires k <= |w| && Heard(rx, at, w)
    ensures Heard(rx, at + k, w[k..])
  {
    assert w[..k] + w[k..] == w;
    HeardSplit(rx, at, w[..k], w[k..]);
  }

  /** What the next receive stores begins with `w`, and goes on behind it to the length of a frame or a pause. */
  predicate Misaligned(s: Cb, w: seq<byte>) {
    var r := Receive(s.io, s.bn);
    w <= r.got && (|r.got| < FRAME ==> r.ret < 0)
  }

  lemma CollectsFrom(s: Cb, w: seq<byte>)
    requires 0 < |w| <= FRAME && w[0] == SOH && Heard(s.io.rx, s.io.pos, w)
    ensures Misaligned(s, w)
  {
    assert s.io.rx[s.io.pos + 0] == Byte(w[0]);
    HeardSplit(s.io.rx, s.io.pos, [w[0]], w[1..]);
    assert [w[0]] + w[1..] == w;
    CollectStarts(s.io.Advance(), 131, w[1..]);
  }

  lemma {:induction false} CollectStarts(io: Io, n: nat, w: seq<byte>)
    requires |w| <= n && Heard(io.rx, io.pos, w)
    ensures w <= Collect(io, n).bytes
    decreases n
  {
    if w != [] {
      assert io.rx[io.pos + 0] == Byte(w[0]);
      HeardSplit(io.rx, io.pos, [w[0]], w[1..]);
      assert [w[0]] + w[1..] == w;
      CollectStarts(io.Advance(), n - 1, w[1..]);
    }
  }

  /**
   * The expected frame with any other byte in place of its SOH: its number, complement and payload
   * decide what becomes of the session, by the first of them that begins a message.
   */
  lemma DamagedStartRun(size: nat, s: Cb, payload: seq<byte>, x: byte)
    requires s.Valid() && |payload| <= BLOCK && x != SOH
    requires Heard(s.io.rx, s.io.pos, Frame(Successor(s.bn), payload)[0 := x])
    requires !Closed(s.io.trace)
    ensures var g, e := Frame(Successor(s.bn), payload)[0 := x], CbLoop(size, s);
            var k := FirstStarter(g, 12 - s.cnt);
            && (k == 12 - s.cnt ==> EndsWith(size, s, e, -1))
            && (k < 12 - s.cnt && g[k] == CAN ==> EndsWith(size, s, e, s.total))
            && (k < 12 - s.cnt && g[k] == EOT && s.io.verdicts == [] ==> EndsWith(size, s, e, s.total))
            && (k < 12 - s.cnt && g[k] == SOH ==> e == CbLoop(size, Noise(s, k)) && Misaligned(Noise(s, k), g[k..]))
  {
    var g := Frame(Successor(s.bn), payload)[0 := x];
    GarbledRun(size, s, g, CbLoop(size, s));
    if FirstStarter(g, 12 - s.cnt) < 12 - s.cnt {
      NoiseKeeps(s, FirstStarter(g, 12 - s.cnt));
    }
  }

  /**
   * Block 4 is the worst of them: its number reads as EOT, so that almost any damage to its first
   * byte ends the upload without block 4 and what follows. Only the declared size can then tell.
   */
  lemma BlockFour(size: nat, s: Cb, payload: seq<byte>, x: byte)
    requires s.Valid() && s.bn == 3 && s.cnt <= 10 && s.io.verdicts == [] && |payload| <= BLOCK && !Starter(x)
    requires Heard(s.io.rx, s.io.pos, Frame(4, payload)[0 := x]) && !Closed(s.io.trace)
    ensures EndsWith(size, s, CbLoop(size, s), s.total)
  {
    var g := Frame(4, payload)[0 := x];
    assert g[0] == x && g[1] == EOT;
    assert FirstStarter(g, 12 - s.cnt) == 1;
    DamagedStartRun(size, s, payload, x);
  }

  /**
   * The first block's number reads as SOH, so damage to its first byte, with a pause behind it, makes the
   * upload fail.
   */
  lemma DamagedFirstBlock(io: Io, cnt: nat, block: seq<byte>, payload: seq<byte>, x: byte)
    requires cnt <= 9 && |block| == FRAME && |payload| <= BLOCK && !Starter(x)
    requires Heard(io.rx, io.pos, Frame(1, payload)[0 := x]) && SilentAt(io.rx, io.pos + FRAME)
    ensures FirstLoop(io, cnt, block).NotStarted?
  {
    var g := Frame(1, payload)[0 := x];
    assert io.rx[io.pos + 0] == Byte(g[0]) && io.rx[io.pos + 1] == Byte(g[1]) && g[1] == SOH;
    NoiseReceived(io, 0);
    assert Overlay(block, []) == block;
    var io1 := io.(pos := io.pos + 1).Offer([NAK]);
    assert FirstLoop(io, cnt, block) == FirstLoop(io1, cnt + 1, block);
    HeardSplit(io.rx, io.pos, g[..2], g[2..]);
    assert g[..2] + g[2..] == g;
    CollectUpTo(io1.Advance(), 131, g[2..]);
  }
}
