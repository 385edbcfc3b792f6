/** `$FPUT`: the receiving end of a transfer, which passes every good block on to a socket. */
module Upload {
  import opened Bytes
  import opened Serial
  import opened Xmodem

  datatype Reaction = TakeBlock | AskAgain | GiveUp | Conclude | Refuse | Ignore

  /** What the loop that waits for the first block does with an outcome. */
  function FirstReaction(ret: int, cnt: nat): Reaction {
    if ret == RECV_OK then TakeBlock
    else if ret == RECV_RETRY then (if cnt < 10 then AskAgain else GiveUp)
    else Refuse
  }

  /** What the upload callback does with an outcome; repeats and raw errors are passed over. */
  function CallbackReaction(ret: int, cnt: nat): Reaction {
    if ret == RECV_OK then TakeBlock
    else if ret == RECV_FINISHED then Conclude
    else if ret == RECV_RETRY then (if cnt > 10 then GiveUp else AskAgain)
    else if ret == RECV_CANCELED then Conclude
    else Ignore
  }

  /** Two CANs, the second only when the first was queued. */
  function Cancel(io: Io): Io {
    if Queued(io.verdicts, 1) == 1 then io.Offer([CAN]).Offer([CAN]) else io.Offer([CAN])
  }

  method TransmitCancel(port: Port) returns (ret: int)
    modifies port
    ensures port.io == Cancel(old(port.io))
  {
    ret := port.PutByte(CAN);
    if ret != 0 {
      return -1;
    }
    ret := port.PutByte(CAN);
    if ret != 0 {
      return -1;
    }
    return 0;
  }

  predicate WriteOk(io: Io) {
    io.writes == [] || io.writes[0] == 0
  }

  // ---- The callback ---------------------------------------------------------

  datatype Cb = Cb(io: Io, bn: byte, cnt: nat, total: nat, block: seq<byte>) {
    predicate Valid() {
      io.pos <= |io.rx| && cnt <= 11 && |block| == FRAME
    }
  }

  datatype CbEnd = CbEnd(ret: int, io: Io, block: seq<byte>)

  datatype CbTurn = Done(end: CbEnd) | More(next: Cb)

  /** What the callback does with the outcome `r` of its receive. */
  function React(size: nat, s: Cb, r: Received): (t: CbTurn)
    requires s.Valid() && |r.got| <= FRAME
    requires s.io.pos <= r.io.pos <= |s.io.rx| && r.io.rx == s.io.rx
    requires r.ret != RECV_RETRY ==> s.io.pos < r.io.pos
    ensures t.More? ==>
              && t.next.Valid() && t.next.io.rx == s.io.rx
              && s.io.pos <= t.next.io.pos
              && (s.io.pos == t.next.io.pos ==> t.next.cnt == s.cnt + 1)
  {
    var block := Overlay(s.block, r.got);
    match CallbackReaction(r.ret, s.cnt)
    case TakeBlock =>
      var io1 := r.io.Write(block[3..131]);
      if WriteOk(r.io) then More(Cb(io1.Offer([ACK]), r.bn, 0, s.total + 128, block))
      else Done(CbEnd(-(r.io.writes[0] as int), Cancel(io1), block))
    case AskAgain => More(Cb(r.io.Offer([NAK]), r.bn, s.cnt + 1, s.total, block))
    case GiveUp => Done(CbEnd(-1, Cancel(r.io), block))
    case Conclude =>
      var io1 := if size > s.total then r.io.(trace := r.io.trace + [Close(r.io.pos)]) else r.io;
      Done(CbEnd(s.total, io1, block))
    case Refuse => More(Cb(r.io, r.bn, s.cnt, s.total, block))
    case Ignore => More(Cb(r.io, r.bn, s.cnt, s.total, block))
  }

  /** One pass of the callback's loop. */
  function Turn(size: nat, s: Cb): (t: CbTurn)
    requires s.Valid()
    ensures t.More? ==>
              && t.next.Valid() && t.next.io.rx == s.io.rx
              && s.io.pos <= t.next.io.pos
              && (s.io.pos == t.next.io.pos ==> t.next.cnt == s.cnt + 1)
  {
    ReceiveProgress(s.io, s.bn);
    React(size, s, Receive(s.io, s.bn))
  }

  function CbLoop(size: nat, s: Cb): CbEnd
    requires s.Valid()
    decreases |s.io.rx| - s.io.pos, 12 - s.cnt
  {
    match Turn(size, s)
    case Done(end) => end
    case More(next) => CbLoop(size, next)
  }

  /** The whole callback, entered with a first block already in the buffer. */
  function Callback(size: nat, io: Io, block: seq<byte>): CbEnd
    requires io.pos <= |io.rx| && |block| == FRAME
  {
    var io1 := io.Write(block[3..131]);
    if WriteOk(io) then CbLoop(size, Cb(io1.Offer([ACK]), 1, 0, 128, block))
    else CbEnd(io.writes[0] as int, io1, block)
  }

  method SendCb(port: Port, block: array<byte>, size: nat) returns (ret: int)
    requires block.Length == FRAME && port.io.pos <= |port.io.rx|
    modifies port, block
    ensures CbEnd(ret, port.io, block[..]) == Callback(size, old(port.io), old(block[..]))
  {
    var total := 0;
    var bn: byte := 1;
    assert block[..][3..131] == block[3..131];
    ret := port.Write(block[3..131]);
    if ret < 0 {
      return -ret;
    }
    total := total + ret;
    var put := port.PutByte(ACK);
    ret := SendRest(port, block, size, total, bn);
  }

  /** The loop behind the first block, up to the comparison of the sizes. */
  method SendRest(port: Port, block: array<byte>, size: nat, sent: nat, first: byte) returns (ret: int)
    requires block.Length == FRAME && port.io.pos <= |port.io.rx|
    modifies port, block
    ensures CbEnd(ret, port.io, block[..]) == CbLoop(size, Cb(old(port.io), first, 0, sent, old(block[..])))
  {
    var total, bn, cnt, put := sent, first, 0, 0;
    ghost var whole := CbLoop(size, Cb(port.io, bn, cnt, total, block[..]));
    while true
      invariant 0 <= cnt && 0 <= total && Cb(port.io, bn, cnt, total, block[..]).Valid()
      invariant CbLoop(size, Cb(port.io, bn, cnt, total, block[..])) == whole
      decreases |port.io.rx| - port.io.pos, 12 - cnt
    {
      ghost var s := Cb(port.io, bn, cnt, total, block[..]);
      ReceiveProgress(s.io, s.bn);
      ghost var turn := Turn(size, s);
      var xret;
      xret, bn := ReceiveBlock(port, bn, block);
      if xret == RECV_OK {
        assert block[..][3..131] == block[3..131];
        ret := port.Write(block[3..131]);
        if ret < 0 {
          var cancelled := TransmitCancel(port);
          return;
        }
        total := total + ret;
        cnt := 0;
        put := port.PutByte(ACK);
      } else if xret == RECV_FINISHED {
        break;
      } else if xret == RECV_RETRY {
        cnt := cnt + 1;
        if cnt - 1 > 10 {
          var cancelled := TransmitCancel(port);
          return -1;
        }
        put := port.PutByte(NAK);
      } else if xret == RECV_CANCELED {
        break;
      }
      assert turn == More(Cb(port.io, bn, cnt, total, block[..]));
    }
    if size > total {
      port.CloseSocket();
    }
    return total;
  }

  // ---- The command ----------------------------------------------------------

  datatype FirstEnd = Started(io: Io, block: seq<byte>) | NotStarted(io: Io, block: seq<byte>)

  datatype FirstTurn = Ended(end: FirstEnd) | Again(io: Io, block: seq<byte>)

  /** What the first-block loop does with the outcome `r` of its receive. */
  function FirstReact(cnt: nat, block: seq<byte>, r: Received): FirstTurn
    requires |block| == FRAME && |r.got| <= FRAME
  {
    var b := Overlay(block, r.got);
    match FirstReaction(r.ret, cnt)
    case TakeBlock => Ended(Started(r.io, b))
    case AskAgain => Again(r.io.Offer([NAK]), b)
    case GiveUp => Ended(NotStarted(Cancel(r.io), b))
    case Refuse => Ended(NotStarted(r.io, b))
    case Conclude => Ended(NotStarted(r.io, b))
    case Ignore => Ended(NotStarted(r.io, b))
  }

  /** The wait for the first block; the number of the last good block stays 0. */
  function FirstLoop(io: Io, cnt: nat, block: seq<byte>): (e: FirstEnd)
    requires io.pos <= |io.rx| && cnt <= 10 && |block| == FRAME
    ensures e.io.rx == io.rx && e.io.pos <= |io.rx| && |e.block| == FRAME
    ensures e.io.writes == io.writes
    decreases 11 - cnt, io
  {
    ReceiveProgress(io, 0);
    match FirstReact(cnt, block, Receive(io, 0))
    case Ended(end) => end
    case Again(io1, b) => FirstLoop(io1, cnt + 1, b)
  }

  /** `echo` says whether the echo, off during the transfer, is back on. */
  datatype FputEnd = FputEnd(ok: bool, echo: bool, io: Io)

  /** The last thing done was to close the socket, so that no answer of the server can be read from it. */
  predicate Closed(t: seq<Event>) {
    t != [] && t[|t| - 1].Close?
  }

  /**
   * The transfer part of the command. `connects` says whether the HTTP layer gets as far as
   * calling the callback, `accepted` whether the server, if it can be heard, then takes the file.
   */
  function Fput(io: Io, block: seq<byte>, size: nat, connects: bool, accepted: bool): (e: FputEnd)
    requires io.pos <= |io.rx| && |block| == FRAME
    ensures e.echo <==> Queued(io.verdicts, 1) == 1
  {
    var io1 := io.Offer([NAK]);
    if Queued(io.verdicts, 1) == 0 then FputEnd(false, false, io1)
    else match FirstLoop(io1, 0, block)
      case NotStarted(io2, _) => FputEnd(false, true, io2)
      case Started(io2, b) =>
        if !connects then FputEnd(false, true, io2)
        else
          var end := Callback(size, io2, b);
          FputEnd(end.ret >= 0 && accepted && !Closed(end.io.trace), true, end.io)
  }

  method CmdFput(port: Port, block: array<byte>, size: nat, connects: bool, accepted: bool)
    returns (ok: bool, echo: bool)
    requires block.Length == FRAME && port.io.pos <= |port.io.rx|
    modifies port, block
    ensures FputEnd(ok, echo, port.io) == Fput(old(port.io), old(block[..]), size, connects, accepted)
  {
    var ret := port.PutByte(NAK);
    if ret < 0 {
      return false, false;
    }
    ghost var whole := FirstLoop(port.io, 0, block[..]);
    var cnt := 0;
    var bn: byte := 0;
    while true
      invariant 0 <= cnt <= 10 && port.io.pos <= |port.io.rx|
      invariant bn == 0 && FirstLoop(port.io, cnt, block[..]) == whole
      decreases 11 - cnt
    {
      ReceiveProgress(port.io, bn);
      ghost var turn := FirstReact(cnt, block[..], Receive(port.io, bn));
      var xret;
      xret, bn := ReceiveBlock(port, bn, block);
      if xret == RECV_OK {
        break;
      } else if xret == RECV_RETRY {
        cnt := cnt + 1;
        if cnt - 1 < 10 {
          var asked := port.PutByte(NAK);
        } else {
          var cancelled := TransmitCancel(port);
          return false, true;
        }
      } else {
        return false, true;
      }
    }
    if !connects {
      return false, true;
    }
    ret := SendCb(port, block, size);
    return ret >= 0 && accepted && !Closed(port.io.trace), true;
  }

  // ---- The conduct expected of a receiver -----------------------------------

  /**
   * What a proper receiver has done so far: the blocks written to the socket in full, the NAKs
   * since the last of them, whether it still owes that one its ACK, and whether it has closed the socket.
   */
  datatype Conduct = Conduct(delivered: seq<Event>, naks: nat, owing: bool, closed: bool) {
    function LastAt(): nat {
      if delivered == [] then 0 else delivered[|delivered| - 1].at
    }

    /** The number of the block due next, modulo 256. */
    function Due(): byte {
      (|delivered| + 1) % 256
    }

    function After(e: Event): Conduct {
      match e
      case Deliver(_, ok, _) => if ok then Conduct(delivered + [e], 0, true, closed) else this
      case Put(data, _, _) => if data == [NAK] then this.(naks := naks + 1) else this.(owing := false)
      case Close(_) => this.(closed := true)
    }
  }

  const START := Conduct([], 0, false, false)

  /**
   * `e` may come next: a delivery is the payload of the frame with the due number, heard whole
   * after the previous one; an ACK answers a delivery at once or an EOT; nothing comes between a
   * delivery and its ACK; a block is asked for at most eleven times; a closed socket is the end.
   */
  predicate Allowed(rx: seq<Arrival>, c: Conduct, e: Event) {
    if c.closed then false
    else if c.owing then e.Put? && e.data == [ACK] && e.at == c.LastAt()
    else match e
      case Deliver(data, ok, at) =>
        ok ==> |data| == BLOCK && c.LastAt() + FRAME <= at && Heard(rx, at - FRAME, Frame(c.Due(), data))
      case Put(data, _, at) =>
        || (data == [NAK] && c.naks <= 10)
        || data == [CAN]
        || (data == [ACK] && 0 < at <= |rx| && rx[at - 1] == Byte(EOT) && MessageStart(rx, at - 1))
      case Close(_) => true
  }

  function Scan(rx: seq<Arrival>, t: seq<Event>): Option<Conduct> {
    if t == [] then Some(START)
    else
      match Scan(rx, t[..|t| - 1])
      case None => None
      case Some(c) => if Allowed(rx, c, t[|t| - 1]) then Some(c.After(t[|t| - 1])) else None
  }

  lemma ScanAppend(rx: seq<Arrival>, t: seq<Event>, c: Conduct, e: Event)
    requires Scan(rx, t) == Some(c) && Allowed(rx, c, e)
    ensures Scan(rx, t + [e]) == Some(c.After(e))
  {
    assert (t + [e])[..|t|] == t;
  }

  /** The receiver has conducted itself properly up to here, and stands at `c`. */
  predicate On(io: Io, c: Conduct) {
    Scan(io.rx, io.trace) == Some(c)
  }

  lemma OfferOn(io: Io, c: Conduct, b: byte)
    requires On(io, c) && forall n :: Allowed(io.rx, c, Put([b], n, io.pos))
    ensures On(io.Offer([b]), c.After(Put([b], 0, io.pos)))
  {
    ScanAppend(io.rx, io.trace, c, Put([b], Queued(io.verdicts, 1), io.pos));
  }

  lemma CancelOn(io: Io, c: Conduct)
    requires On(io, c) && !c.owing && !c.closed
    ensures Cancel(io).rx == io.rx && On(Cancel(io), c)
  {
    OfferOn(io, c, CAN);
    OfferOn(io.Offer([CAN]), c, CAN);
  }

  lemma NakOn(io: Io, c: Conduct)
    requires On(io, c) && !c.owing && !c.closed && c.naks <= 10
    ensures On(io.Offer([NAK]), c.(naks := c.naks + 1))
  {
    OfferOn(io, c, NAK);
  }

  /** Handing a block just heard to the socket and acknowledging it. */
  lemma DeliverOn(io: Io, c: Conduct, data: seq<byte>)
    requires On(io, c) && !c.owing && !c.closed && WriteOk(io)
    requires Allowed(io.rx, c, Deliver(data, true, io.pos))
    ensures On(io.Write(data).Offer([ACK]), Conduct(c.delivered + [Deliver(data, true, io.pos)], 0, false, false))
  {
    ScanAppend(io.rx, io.trace, c, Deliver(data, true, io.pos));
    var c1 := Conduct(c.delivered + [Deliver(data, true, io.pos)], 0, true, false);
    assert On(io.Write(data), c1);
    OfferOn(io.Write(data), c1, ACK);
  }

  lemma FailedWriteOn(io: Io, c: Conduct, data: seq<byte>)
    requires On(io, c) && !c.owing && !c.closed && !WriteOk(io)
    ensures On(io.Write(data), c)
  {
    ScanAppend(io.rx, io.trace, c, Deliver(data, false, io.pos));
  }

  lemma CloseOn(io: Io, c: Conduct)
    requires On(io, c) && !c.owing && !c.closed
    ensures On(io.(trace := io.trace + [Close(io.pos)]), c.(closed := true))
  {
    ScanAppend(io.rx, io.trace, c, Close(io.pos));
  }

  /** A receive leaves the record alone, except for the ACK of an EOT just heard. */
  lemma ReceiveOn(io: Io, bn: byte, c: Conduct)
    requires MessageStart(io.rx, io.pos) && On(io, c) && !c.owing && !c.closed
    ensures On(Receive(io, bn).io, c) && MessageStart(io.rx, Receive(io, bn).io.pos)
  {
    ReceiveEnds(io, bn);
    ReceiveRecord(io, bn);
    if io.Next() == Byte(EOT) {
      OfferOn(io.Advance(), c, ACK);
    }
  }

  /** What a receive adds to the record. */
  lemma ReceiveRecord(io: Io, bn: byte)
    ensures var io1 := Receive(io, bn).io;
            if io.Next() == Byte(EOT) then io1 == io.Advance().Offer([ACK])
            else io1.rx == io.rx && io1.trace == io.trace
  {
  }

  // ---- The code keeps to it -----------------------------------------------------

  /** What holds whenever the callback asks for the next message. */
  predicate Sound(s: Cb, c: Conduct) {
    && s.Valid() && On(s.io, c) && !c.owing && !c.closed && c.naks == s.cnt
    && Successor(s.bn) == c.Due() && s.total == 128 * |c.delivered|
    && c.LastAt() <= s.io.pos && MessageStart(s.io.rx, s.io.pos)
  }

  /** The outcome `r` of the callback's receive, as far as the loop depends on it. */
  predicate Outcome(s: Cb, c: Conduct, r: Received) {
    && s.Valid() && |r.got| <= FRAME
    && s.io.pos <= r.io.pos <= |s.io.rx| && r.io.rx == s.io.rx
    && (r.ret != RECV_RETRY ==> s.io.pos < r.io.pos)
    && On(r.io, c) && MessageStart(r.io.rx, r.io.pos)
    && (r.ret != RECV_OK ==> r.bn == s.bn)
    && (r.ret == RECV_OK ==>
          && |r.got| == FRAME && r.bn == Successor(s.bn)
          && Allowed(s.io.rx, c, Deliver(r.got[3..131], true, r.io.pos)))
  }

  lemma OkOutcome(io: Io, bn: byte, c: Conduct)
    requires io.pos <= |io.rx| && !c.owing && !c.closed && c.LastAt() <= io.pos && Successor(bn) == c.Due()
    requires Receive(io, bn).ret == RECV_OK
    ensures var r := Receive(io, bn);
            && |r.got| == FRAME && r.bn == Successor(bn)
            && Allowed(io.rx, c, Deliver(r.got[3..131], true, r.io.pos))
  {
    ReceivedOk(io, bn);
  }

  lemma TurnOutcome(s: Cb, c: Conduct)
    requires Sound(s, c)
    ensures Outcome(s, c, Receive(s.io, s.bn))
  {
    ReceiveProgress(s.io, s.bn);
    ReceiveOn(s.io, s.bn, c);
    if Receive(s.io, s.bn).ret == RECV_OK {
      OkOutcome(s.io, s.bn, c);
    }
  }

  /**
   * A proper end: every delivery acknowledged, a result that counts the bytes delivered, and the
   * socket closed exactly when the session was concluded with fewer bytes than declared.
   */
  predicate ProperEnd(rx: seq<Arrival>, size: nat, end: CbEnd, c: Conduct) {
    && end.io.rx == rx && On(end.io, c) && !c.owing
    && (end.ret >= 0 ==> end.ret == 128 * |c.delivered|)
    && (c.closed <==> end.ret >= 0 && size > 128 * |c.delivered|)
  }

  /** Where one pass of the loop leaves the conduct. */
  function Next(size: nat, c: Conduct, s: Cb, r: Received): Conduct {
    match CallbackReaction(r.ret, s.cnt)
    case TakeBlock =>
      if WriteOk(r.io) && |r.got| == FRAME
      then Conduct(c.delivered + [Deliver(r.got[3..131], true, r.io.pos)], 0, false, false) else c
    case AskAgain => c.(naks := c.naks + 1)
    case Conclude => c.(closed := size > s.total)
    case _ => c
  }

  predicate Kept(size: nat, s: Cb, t: CbTurn, c: Conduct) {
    match t
    case More(next) => Sound(next, c)
    case Done(end) => ProperEnd(s.io.rx, size, end, c)
  }

  lemma TakeKeeps(size: nat, s: Cb, c: Conduct, r: Received)
    requires Sound(s, c) && Outcome(s, c, r) && r.ret == RECV_OK
    ensures Kept(size, s, React(size, s, r), Next(size, c, s, r))
  {
    assert Overlay(s.block, r.got) == r.got;
    var data := r.got[3..131];
    if WriteOk(r.io) {
      DeliverOn(r.io, c, data);
      NextDue(c, Deliver(data, true, r.io.pos), r.bn);
    } else {
      FailedWriteOn(r.io, c, data);
      CancelOn(r.io.Write(data), c);
    }
  }

  lemma NextDue(c: Conduct, e: Event, bn: byte)
    requires bn == c.Due()
    ensures Conduct(c.delivered + [e], 0, false, false).Due() == Successor(bn)
  {
    assert |c.delivered + [e]| == |c.delivered| + 1;
  }

  lemma ReactKeeps(size: nat, s: Cb, c: Conduct, r: Received)
    requires Sound(s, c) && Outcome(s, c, r)
    ensures Kept(size, s, React(size, s, r), Next(size, c, s, r))
  {
    match CallbackReaction(r.ret, s.cnt) {
      case TakeBlock => TakeKeeps(size, s, c, r);
      case AskAgain => NakOn(r.io, c);
      case GiveUp => CancelOn(r.io, c);
      case Conclude => CloseOn(r.io, c);
      case _ =>
    }
  }

  /** Every pass of the loop keeps the conduct, the block number and the running total. */
  lemma TurnSound(size: nat, s: Cb, c: Conduct)
    requires Sound(s, c)
    ensures Kept(size, s, Turn(size, s), Next(size, c, s, Receive(s.io, s.bn)))
  {
    TurnOutcome(s, c);
    ReactKeeps(size, s, c, Receive(s.io, s.bn));
  }

  lemma {:induction false} CbLoopSound(size: nat, s: Cb, c: Conduct) returns (d: Conduct)
    requires Sound(s, c)
    ensures ProperEnd(s.io.rx, size, CbLoop(size, s), d) && c.delivered <= d.delivered
    decreases |s.io.rx| - s.io.pos, 12 - s.cnt
  {
    TurnSound(size, s, c);
    d := Next(size, c, s, Receive(s.io, s.bn));
    match Turn(size, s)
    case Done(_) =>
    case More(next) => d := CbLoopSound(size, next, d);
  }

  /** Only NAKs have gone out so far. */
  ghost predicate OnlyAsked(io: Io) {
    exists n :: On(io, START.(naks := n))
  }

  /**
   * What the callback's end says about the bytes delivered, given that its first write succeeded or
   * not. If so, a result that is not negative counts them, and the socket is closed exactly when they
   * are fewer than declared; if not, nothing is delivered, the result is positive, and the socket stays open.
   */
  predicate Counts(size: nat, written: bool, end: CbEnd, c: Conduct) {
    && (c.closed <==> written && end.ret >= 0 && size > 128 * |c.delivered|)
    && if written then c.delivered != [] && (end.ret >= 0 ==> end.ret == 128 * |c.delivered|)
       else c.delivered == [] && end.ret > 0
  }

  /** The whole callback, over any input, is proper and counts what it delivers in this sense. */
  lemma CallbackSound(size: nat, io: Io, block: seq<byte>) returns (d: Conduct)
    requires MessageStart(io.rx, io.pos) && |block| == FRAME && OnlyAsked(io)
    requires FRAME <= io.pos && Heard(io.rx, io.pos - FRAME, Frame(1, block[3..131]))
    ensures var end := Callback(size, io, block);
            end.io.rx == io.rx && On(end.io, d) && !d.owing && Counts(size, WriteOk(io), end, d)
  {
    var n :| On(io, START.(naks := n));
    var data := block[3..131];
    if WriteOk(io) {
      DeliverOn(io, START.(naks := n), data);
      var c := START.(delivered := [Deliver(data, true, io.pos)]);
      assert [] + [Deliver(data, true, io.pos)] == c.delivered;
      d := CbLoopSound(size, Cb(io.Write(data).Offer([ACK]), 1, 0, 128, block), c);
    } else {
      d := START.(naks := n);
      FailedWriteOn(io, d, data);
    }
  }

  /** What holds while the first block is awaited, after the opening NAK. */
  predicate Opening(io: Io, cnt: nat) {
    MessageStart(io.rx, io.pos) && cnt <= 10 && On(io, START.(naks := cnt + 1))
  }

  ghost predicate FirstHeard(rx: seq<Arrival>, e: FirstEnd) {
    && |e.block| == FRAME && e.io.rx == rx && MessageStart(rx, e.io.pos)
    && OnlyAsked(e.io)
    && (e.Started? ==> FRAME <= e.io.pos && Heard(rx, e.io.pos - FRAME, Frame(1, e.block[3..131])))
  }

  /** A first block heard whole ends at the current position. */
  predicate FirstOk(rx: seq<Arrival>, r: Received) {
    |r.got| == FRAME && FRAME <= r.io.pos && Heard(rx, r.io.pos - FRAME, Frame(1, r.got[3..131]))
  }

  lemma FirstReactSound(io: Io, cnt: nat, block: seq<byte>, r: Received)
    requires cnt <= 10 && |block| == FRAME && |r.got| <= FRAME
    requires Opening(r.io, cnt) && r.io.rx == io.rx
    requires r.ret == RECV_OK ==> FirstOk(io.rx, r)
    ensures match FirstReact(cnt, block, r)
            case Ended(e) => FirstHeard(io.rx, e)
            case Again(io1, b) => cnt < 10 && Opening(io1, cnt + 1) && io1.rx == io.rx && |b| == FRAME
  {
    var c := START.(naks := cnt + 1);
    assert On(r.io, c);
    match FirstReaction(r.ret, cnt) {
      case TakeBlock => assert Overlay(block, r.got) == r.got;
      case AskAgain => NakOn(r.io, c);
      case GiveUp => CancelOn(r.io, c);
      case _ =>
    }
  }

  lemma FirstOutcome(io: Io, cnt: nat)
    requires Opening(io, cnt)
    ensures var r := Receive(io, 0);
            && Opening(r.io, cnt) && r.io.rx == io.rx
            && (r.ret == RECV_OK ==> FirstOk(io.rx, r))
  {
    ReceiveProgress(io, 0);
    ReceiveOn(io, 0, START.(naks := cnt + 1));
    if Receive(io, 0).ret == RECV_OK {
      FirstReceived(io);
    }
  }

  lemma FirstReceived(io: Io)
    requires io.pos <= |io.rx| && Receive(io, 0).ret == RECV_OK
    ensures FirstOk(io.rx, Receive(io, 0))
  {
    ReceivedOk(io, 0);
  }

  lemma {:induction false} FirstLoopSound(io: Io, cnt: nat, block: seq<byte>)
    requires Opening(io, cnt) && |block| == FRAME
    ensures FirstHeard(io.rx, FirstLoop(io, cnt, block))
    decreases 11 - cnt
  {
    FirstOutcome(io, cnt);
    FirstReactSound(io, cnt, block, Receive(io, 0));
    match FirstReact(cnt, block, Receive(io, 0))
    case Ended(_) =>
    case Again(io1, b) => FirstLoopSound(io1, cnt + 1, b);
  }

  /**
   * A whole session, over any stream of bytes, timeouts and faults and any answers of the queue
   * and the socket, is proper, and ends with every delivery acknowledged. When its first write succeeds
   * and it reports success, the blocks delivered make up the declared size; when that write fails,
   * nothing is delivered.
   */
  lemma FputProper(io: Io, block: seq<byte>, size: nat, connects: bool, accepted: bool) returns (c: Conduct)
    requires MessageStart(io.rx, io.pos) && |block| == FRAME && io.trace == []
    ensures var end := Fput(io, block, size, connects, accepted);
            && end.io.rx == io.rx && On(end.io, c) && !c.owing && (c.closed <==> Closed(end.io.trace))
            && (c.closed ==> WriteOk(io) && !end.ok && size > 128 * |c.delivered|)
            && (end.ok && WriteOk(io) ==> c.delivered != [] && size <= 128 * |c.delivered|)
            && (!WriteOk(io) ==> c.delivered == [])
  {
    NakOn(io, START);
    c := START.(naks := 1);
    if Queued(io.verdicts, 1) == 1 {
      c := FirstSound(io.Offer([NAK]), block, size, connects);
      assert WriteOk(io.Offer([NAK])) == WriteOk(io);
    }
    ConductCounts(io.rx, Fput(io, block, size, connects, accepted).io.trace);
  }

  /** The session behind its opening NAK. */
  lemma FirstSound(io: Io, block: seq<byte>, size: nat, connects: bool) returns (c: Conduct)
    requires Opening(io, 0) && |block| == FRAME
    ensures RestEnds(io.rx, FirstLoop(io, 0, block), size, connects, WriteOk(io), c)
  {
    FirstLoopSound(io, 0, block);
    c := RestSound(io.rx, FirstLoop(io, 0, block), size, connects);
  }

  /** How a session goes on and ends after the wait for its first block. */
  predicate RestEnds(rx: seq<Arrival>, first: FirstEnd, size: nat, connects: bool, written: bool, c: Conduct) {
    && |first.block| == FRAME && first.io.pos <= |first.io.rx|
    && if first.Started? && connects then
         var end := Callback(size, first.io, first.block);
         end.io.rx == rx && On(end.io, c) && !c.owing && Counts(size, written, end, c)
       else
         first.io.rx == rx && On(first.io, c) && c == START.(naks := c.naks)
  }

  lemma RestSound(rx: seq<Arrival>, first: FirstEnd, size: nat, connects: bool) returns (c: Conduct)
    requires FirstHeard(rx, first)
    ensures RestEnds(rx, first, size, connects, WriteOk(first.io), c)
  {
    if first.Started? && connects {
      c := CallbackSound(size, first.io, first.block);
    } else {
      var n :| On(first.io, START.(naks := n));
      c := START.(naks := n);
    }
  }

  /**
   * Exactly when a session that came to its first block and reaches the server is reported a success:
   * the server accepts it, the callback ended well, and what was delivered makes up the declared size.
   */
  lemma FputOkIff(io: Io, block: seq<byte>, size: nat, accepted: bool, first: FirstEnd) returns (c: Conduct)
    requires MessageStart(io.rx, io.pos) && |block| == FRAME && io.trace == [] && WriteOk(io)
    requires Queued(io.verdicts, 1) == 1 && first == FirstLoop(io.Offer([NAK]), 0, block) && first.Started?
    ensures var end := Fput(io, block, size, true, accepted);
            && On(end.io, c) && c.delivered == FullWrites(end.io.trace)
            && (end.ok <==> accepted && Callback(size, first.io, first.block).ret >= 0 && size <= 128 * |c.delivered|)
  {
    NakOn(io, START);
    c := FirstSound(io.Offer([NAK]), block, size, true);
    ConductCounts(io.rx, Fput(io, block, size, true, accepted).io.trace);
  }

  /**
   * A session whose first write fails passes that test by: its socket stays open, whatever size was
   * declared, and its success is the server's answer alone, with nothing delivered.
   */
  lemma FailedFirstWrite(io: Io, block: seq<byte>, size: nat, accepted: bool)
    requires MessageStart(io.rx, io.pos) && |block| == FRAME && io.trace == []
    requires Queued(io.verdicts, 1) == 1 && FirstLoop(io.Offer([NAK]), 0, block).Started? && !WriteOk(io)
    ensures var end := Fput(io, block, size, true, accepted);
            end.ok == accepted && !Closed(end.io.trace) && FullWrites(end.io.trace) == []
  {
    NakOn(io, START);
    var c := FirstSound(io.Offer([NAK]), block, size, true);
    ConductCounts(io.rx, Fput(io, block, size, true, accepted).io.trace);
  }

  // ---- What a proper conduct means -----------------------------------------------

  lemma {:induction false} ScanPrefix(rx: seq<Arrival>, t: seq<Event>, k: nat)
    requires Scan(rx, t).Some? && k <= |t|
    ensures Scan(rx, t[..k]).Some?
  {
    if k == |t| {
      assert t[..k] == t;
    } else {
      ScanPrefix(rx, t[..|t| - 1], k);
      assert t[..|t| - 1][..k] == t[..k];
    }
  }

  /** Around any event of a proper conduct. */
  lemma ScanAt(rx: seq<Arrival>, t: seq<Event>, i: nat)
    requires Scan(rx, t).Some? && i < |t|
    ensures Scan(rx, t[..i]).Some? && Allowed(rx, Scan(rx, t[..i]).value, t[i])
    ensures Scan(rx, t[..i + 1]) == Some(Scan(rx, t[..i]).value.After(t[i]))
  {
    ScanPrefix(rx, t, i + 1);
    assert t[..i + 1][..i] == t[..i];
  }

  /** The blocks delivered are exactly the full writes of the record, in order. */
  function FullWrites(t: seq<Event>): (w: seq<Event>)
    ensures forall i :: 0 <= i < |w| ==> w[i].Deliver? && w[i].ok
  {
    if t == [] then []
    else
      var e := t[|t| - 1];
      FullWrites(t[..|t| - 1]) + (if e.Deliver? && e.ok then [e] else [])
  }

  /** The NAKs sent since the last full write. */
  function NaksSince(t: seq<Event>): nat {
    if t == [] then 0
    else
      var e := t[|t| - 1];
      if e.Deliver? && e.ok then 0
      else NaksSince(t[..|t| - 1]) + (if e.Put? && e.data == [NAK] then 1 else 0)
  }

  lemma {:induction false} ConductCounts(rx: seq<Arrival>, t: seq<Event>)
    requires Scan(rx, t).Some?
    ensures Scan(rx, t).value.delivered == FullWrites(t)
    ensures Scan(rx, t).value.naks == NaksSince(t)
    ensures Scan(rx, t).value.closed <==> Closed(t)
  {
    if t != [] {
      ConductCounts(rx, t[..|t| - 1]);
    }
  }

  /** The delivered bytes are the payloads of disjoint frames, heard in order and numbered 1, 2, 3, ... */
  lemma {:induction false} DeliveredAreFrames(rx: seq<Arrival>, t: seq<Event>, i: nat)
    requires Scan(rx, t).Some? && i < |Scan(rx, t).value.delivered|
    ensures var d := Scan(rx, t).value.delivered;
            && d[i].Deliver? && |d[i].data| == BLOCK && FRAME <= d[i].at
            && Heard(rx, d[i].at - FRAME, Frame((i + 1) % 256, d[i].data))
            && (i > 0 ==> d[i - 1].at + FRAME <= d[i].at)
  {
    var c, e := Scan(rx, t[..|t| - 1]).value, t[|t| - 1];
    if i < |c.delivered| {
      DeliveredAreFrames(rx, t[..|t| - 1], i);
    } else {
      assert Allowed(rx, c, e) && e.Deliver? && !c.owing;
    }
  }

  /** An ACK is sent only right after a delivery, or for an EOT just heard. */
  lemma AckAnswers(rx: seq<Arrival>, t: seq<Event>, i: nat)
    requires Scan(rx, t).Some? && i < |t| && t[i].Put? && t[i].data == [ACK]
    ensures || (i > 0 && t[i - 1].Deliver? && t[i - 1].ok)
            || (0 < t[i].at <= |rx| && rx[t[i].at - 1] == Byte(EOT) && MessageStart(rx, t[i].at - 1))
  {
    ScanAt(rx, t, i);
    if Scan(rx, t[..i]).value.owing {
      OwingAfter(rx, t[..i]);
    }
  }

  lemma OwingAfter(rx: seq<Arrival>, t: seq<Event>)
    requires Scan(rx, t).Some? && Scan(rx, t).value.owing
    ensures t != [] && t[|t| - 1].Deliver? && t[|t| - 1].ok
  {
    assert t != [];
    var c, e := Scan(rx, t[..|t| - 1]).value, t[|t| - 1];
    assert Allowed(rx, c, e);
  }

  /** Every delivery is acknowledged at once. */
  lemma DeliveryAcked(rx: seq<Arrival>, t: seq<Event>, i: nat)
    requires Scan(rx, t).Some? && !Scan(rx, t).value.owing && i < |t| && t[i].Deliver? && t[i].ok
    ensures i + 1 < |t| && t[i + 1].Put? && t[i + 1].data == [ACK] && t[i + 1].at == t[i].at
  {
    ScanAt(rx, t, i);
    assert t[..|t|] == t;
    if i + 1 < |t| {
      ScanAt(rx, t, i + 1);
    }
  }

  /** At no moment of a session have more than eleven NAKs gone out since the last delivery. */
  lemma NaksBounded(rx: seq<Arrival>, t: seq<Event>)
    requires Scan(rx, t).Some?
    ensures forall k :: 0 <= k <= |t| ==> NaksSince(t[..k]) <= 11
  {
    forall k | 0 <= k <= |t| ensures NaksSince(t[..k]) <= 11 {
      ScanPrefix(rx, t, k);
      ConductCounts(rx, t[..k]);
      AtMostEleven(rx, t[..k]);
    }
  }

  lemma {:induction false} AtMostEleven(rx: seq<Arrival>, t: seq<Event>)
    requires Scan(rx, t).Some?
    ensures Scan(rx, t).value.naks <= 11
  {
    if t != [] {
      AtMostEleven(rx, t[..|t| - 1]);
    }
  }

  // ---- How long a session can last --------------------------------------------

  /** The outcomes of all receives of the callback, in order. */
  function Outcomes(size: nat, s: Cb): seq<int>
    requires s.Valid()
    decreases |s.io.rx| - s.io.pos, 12 - s.cnt
  {
    [Receive(s.io, s.bn).ret] +
    match Turn(size, s)
    case Done(_) => []
    case More(next) => Outcomes(size, next)
  }

  function Blocks(outcomes: seq<int>): nat {
    if outcomes == [] then 0 else (if outcomes[0] == RECV_OK then 1 else 0) + Blocks(outcomes[1..])
  }

  /** The outcomes that no counter of the loop sees: repeated blocks and raw errors. */
  function Uncounted(outcomes: seq<int>): nat {
    if outcomes == [] then 0
    else (if outcomes[0] == RECV_DUP || outcomes[0] < 0 then 1 else 0) + Uncounted(outcomes[1..])
  }

  /** Receive attempts are bounded by the blocks received and the uncounted outcomes. */
  lemma {:induction false} AttemptsBounded(size: nat, s: Cb)
    requires s.Valid()
    ensures var outs := Outcomes(size, s);
            |outs| <= 12 - s.cnt + 13 * Blocks(outs) + Uncounted(outs)
    decreases |s.io.rx| - s.io.pos, 12 - s.cnt
  {
    var ret := Receive(s.io, s.bn).ret;
    TurnCount(size, s);
    match Turn(size, s)
    case Done(_) =>
      assert Outcomes(size, s) == [ret];
    case More(next) =>
      AttemptsBounded(size, next);
      assert Outcomes(size, s) == [ret] + Outcomes(size, next);
  }

  /** How one pass moves the retry counter. */
  lemma TurnCount(size: nat, s: Cb)
    requires s.Valid()
    ensures var ret, t := Receive(s.io, s.bn).ret, Turn(size, s);
            t.More? ==>
              if ret == RECV_OK then t.next.cnt == 0
              else if ret == RECV_RETRY then t.next.cnt == s.cnt + 1
              else t.next.cnt == s.cnt && (ret == RECV_DUP || ret < 0)
  {
    ReceiveProgress(s.io, s.bn);
  }
}
