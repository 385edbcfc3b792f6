/** `$FGET`: the sending end of a transfer, which cuts every downloaded fragment into blocks. */
module Download {
  import opened Bytes
  import opened Serial
  import opened Xmodem
  import Upload

  const TRIES: nat := 3

  datatype Verdict = Acked | Again | Fail(code: int)

  /** What the sender makes of the outcome of one block. */
  function AfterReply(ret: int): Verdict {
    if ret == SEND_OK then Acked
    else if ret == SEND_TIMEOUT || ret == SEND_RETRY then Again
    else if ret == SEND_CANCELED then Fail(-2)
    else Fail(-1)
  }

  /** The length of the block at `idx`, as the code computes it. */
  function PayloadLen(len: nat, idx: nat): (n: nat)
    requires idx < len && idx % BLOCK == 0
    ensures n == if len - idx < BLOCK then len - idx else BLOCK
  {
    if len - idx < BLOCK then len % BLOCK else BLOCK
  }

  // ---- The download callback --------------------------------------------------

  datatype ChunkEnd = ChunkEnd(verdict: Verdict, io: Io)

  /** Up to `left` more tries at one frame; `Again` means that all of them failed. */
  function TryFrame(io: Io, frame: seq<byte>, left: nat): ChunkEnd
    decreases left, io
  {
    if left == 0 then ChunkEnd(Again, io)
    else
      var v := AfterReply(ReplyOutcome(io.Next()));
      if v.Again? then TryFrame(Exchange(io, frame), frame, left - 1) else ChunkEnd(v, Exchange(io, frame))
  }

  datatype CbEnd = CbEnd(ret: int, io: Io, bn: byte)

  /** The callback from offset `idx` of the fragment on. */
  function SendFrom(io: Io, bn: byte, buff: seq<byte>, idx: nat): CbEnd
    requires idx % BLOCK == 0
    decreases |buff| - idx
  {
    if idx >= |buff| then CbEnd(0, io, bn)
    else
      var n := PayloadLen(|buff|, idx);
      var e := TryFrame(io, Frame(bn, buff[idx..idx + n]), TRIES);
      if e.verdict.Fail? then CbEnd(e.verdict.code, e.io, bn)
      else SendFrom(e.io, if e.verdict.Acked? then Successor(bn) else bn, buff, idx + BLOCK)
  }

  lemma SendFromStep(io: Io, bn: byte, buff: seq<byte>, idx: nat)
    requires idx % BLOCK == 0 && idx < |buff|
    ensures (idx + BLOCK) % BLOCK == 0
    ensures var e := TryFrame(io, Frame(bn, buff[idx..idx + PayloadLen(|buff|, idx)]), TRIES);
            SendFrom(io, bn, buff, idx) ==
            (if e.verdict.Fail? then CbEnd(e.verdict.code, e.io, bn)
             else SendFrom(e.io, if e.verdict.Acked? then Successor(bn) else bn, buff, idx + BLOCK))
  {
  }

  class Sender {
    var bn: byte
    const block: array<byte>

    constructor ()
      ensures fresh(this) && fresh(block) && block.Length == FRAME && bn == 1
    {
      bn := 1;
      block := new byte[132](_ => 0);
    }

    /** The three tries at the block of `buff` that starts at `idx`. */
    method SendChunk(port: Port, buff: array<byte>, idx: nat) returns (verdict: Verdict)
      requires block.Length == FRAME && block != buff
      requires idx < buff.Length && idx % BLOCK == 0
      modifies this, port, block
      ensures buff[..] == old(buff[..])
      ensures ChunkEnd(verdict, port.io)
           == TryFrame(old(port.io), Frame(old(bn), buff[idx..idx + PayloadLen(buff.Length, idx)]), TRIES)
      ensures bn == if verdict.Acked? then Successor(old(bn)) else old(bn)
    {
      ghost var n := PayloadLen(buff.Length, idx);
      ghost var payload := buff[idx..idx + n];
      ghost var frame := Frame(bn, payload);
      ghost var whole := TryFrame(port.io, frame, TRIES);
      var i := 0;
      while i < 3
        invariant 0 <= i <= 3 && buff[..] == old(buff[..]) && bn == old(bn)
        invariant whole == TryFrame(port.io, frame, TRIES - i)
      {
        var payloadLen := if buff.Length - idx < 128 then buff.Length % 128 else 128;
        assert payloadLen == n && buff[idx..idx + payloadLen] == payload;
        var xret := SendBlock(port, bn, buff, idx, payloadLen, block);
        if xret == SEND_FAILED {
          return Fail(-1);
        }
        if xret == SEND_CANCELED {
          return Fail(-2);
        }
        if xret == SEND_OK {
          bn := (bn + 1) % 256;
          return Acked;
        }
        i := i + 1;
      }
      return Again;
    }

    method FgetCb(port: Port, buff: array<byte>) returns (ret: int)
      requires block.Length == FRAME && block != buff
      modifies this, port, block
      ensures CbEnd(ret, port.io, bn) == SendFrom(old(port.io), old(bn), old(buff[..]), 0)
    {
      ghost var data := buff[..];
      ghost var whole := SendFrom(port.io, bn, data, 0);
      var idx := 0;
      while idx < buff.Length
        invariant 0 <= idx && idx % BLOCK == 0 && buff[..] == data
        invariant whole == SendFrom(port.io, bn, data, idx)
        decreases buff.Length - idx
      {
        assert data[idx..idx + PayloadLen(|data|, idx)] == buff[idx..idx + PayloadLen(|data|, idx)];
        SendFromStep(port.io, bn, data, idx);
        var verdict := SendChunk(port, buff, idx);
        if verdict.Fail? {
          return verdict.code;
        }
        idx := idx + 128;
      }
      return 0;
    }
  }

  // ---- The command --------------------------------------------------------------

  /** The callback over the fragments of a download, until it fails. */
  function Fragments(io: Io, bn: byte, frags: seq<seq<byte>>): CbEnd
    decreases |frags|
  {
    if frags == [] then CbEnd(0, io, bn)
    else
      var e := SendFrom(io, bn, frags[0], 0);
      if e.ret < 0 then e else Fragments(e.io, e.bn, frags[1..])
  }

  datatype FgetEnd = FgetEnd(ok: bool, io: Io)

  /** `frags` are the fragments the download client hands over; `complete` says that no error event ended it. */
  function Fget(io: Io, frags: seq<seq<byte>>, complete: bool): FgetEnd {
    var asked := AwaitRequest(io, 10);
    if asked.ret != SEND_OK then FgetEnd(false, Upload.Cancel(asked.io))
    else
      var sent := Fragments(asked.io, 1, frags);
      if sent.ret < 0 || !complete then FgetEnd(false, Upload.Cancel(sent.io))
      else
        var end := Finish(sent.io);
        if end.ret == SEND_OK then FgetEnd(true, end.io) else FgetEnd(false, Upload.Cancel(end.io))
  }

  method CmdFget(port: Port, sender: Sender, frags: seq<seq<byte>>, complete: bool) returns (ok: bool)
    requires sender.block.Length == FRAME
    modifies port, sender, sender.block
    ensures FgetEnd(ok, port.io) == Fget(old(port.io), frags, complete)
  {
    var xret := SendWaitRequest(port);
    if xret != SEND_OK {
      var cancelled := Upload.TransmitCancel(port);
      return false;
    }
    sender.bn := 1;
    ghost var whole := Fragments(port.io, 1, frags);
    var ret := 0;
    var k := 0;
    while k < |frags| && ret >= 0
      invariant 0 <= k <= |frags|
      invariant ret >= 0 ==> whole == Fragments(port.io, sender.bn, frags[k..])
      invariant ret < 0 ==> whole == CbEnd(ret, port.io, sender.bn)
    {
      var frag := frags[k];
      var buff := new byte[|frag|](i requires 0 <= i < |frag| => frag[i]);
      assert buff[..] == frag;
      assert frags[k..][0] == frag && frags[k..][1..] == frags[k + 1..];
      ret := sender.FgetCb(port, buff);
      k := k + 1;
    }
    if ret < 0 || !complete {
      var cancelled := Upload.TransmitCancel(port);
      return false;
    }
    xret := SendEnd(port);
    if xret == SEND_TIMEOUT || xret == SEND_FAILED {
      var cancelled := Upload.TransmitCancel(port);
      return false;
    }
    return true;
  }

  // ---- The conduct expected of a sender -------------------------------------------

  function Chunks(data: seq<byte>): (cs: seq<seq<byte>>)
    ensures forall i :: 0 <= i < |cs| ==> 0 < |cs[i]| <= BLOCK
  {
    if data == [] then []
    else if |data| <= BLOCK then [data]
    else [data[..BLOCK]] + Chunks(data[BLOCK..])
  }

  function AllChunks(frags: seq<seq<byte>>): (cs: seq<seq<byte>>)
    ensures forall i :: 0 <= i < |cs| ==> 0 < |cs[i]| <= BLOCK
  {
    if frags == [] then [] else Chunks(frags[0]) + AllChunks(frags[1..])
  }

  /** A frame offered to the line, as opposed to a single control byte. */
  predicate IsFrame(e: Event) {
    e.Put? && |e.data| == FRAME
  }

  /** The arrival that answered an event. */
  function ReplyTo(rx: seq<Arrival>, e: Event): Arrival {
    if e.at < |rx| then rx[e.at] else Silence
  }

  /**
   * Where an orderly sender stands: the block it is at, the tries already spent on it, the
   * blocks acknowledged so far and whether it has given up.
   */
  datatype Cursor = Cursor(bn: byte, chunk: nat, tries: nat, acked: seq<nat>, halted: bool) {
    /** Where the answer to one try leads. */
    function After(v: Verdict): Cursor {
      match v
      case Acked => Cursor(Successor(bn), chunk + 1, 0, acked + [chunk], false)
      case Again => if tries + 1 == TRIES then Skipped() else this.(tries := tries + 1)
      case Fail(_) => this.(halted := true)
    }

    function Skipped(): Cursor {
      Cursor(bn, chunk + 1, 0, acked, false)
    }

    predicate MaySend(chunks: seq<seq<byte>>) {
      !halted && chunk < |chunks| && |chunks[chunk]| <= BLOCK && tries < TRIES
    }
  }

  const START := Cursor(1, 0, 0, [], false)

  /** `e` must be the frame an orderly sender at `c` offers next; then what its answer leads to. */
  function Advance(rx: seq<Arrival>, chunks: seq<seq<byte>>, c: Cursor, e: Event): Option<Cursor> {
    if !IsFrame(e) then Some(c)
    else if c.MaySend(chunks) && e.data == Frame(c.bn, chunks[c.chunk])
    then Some(c.After(AfterReply(ReplyOutcome(ReplyTo(rx, e)))))
    else None
  }

  function Follow(rx: seq<Arrival>, chunks: seq<seq<byte>>, t: seq<Event>): Option<Cursor> {
    if t == [] then Some(START)
    else
      match Follow(rx, chunks, t[..|t| - 1])
      case None => None
      case Some(c) => Advance(rx, chunks, c, t[|t| - 1])
  }

  lemma FollowAppend(rx: seq<Arrival>, chunks: seq<seq<byte>>, t: seq<Event>, e: Event)
    requires Follow(rx, chunks, t).Some?
    ensures Follow(rx, chunks, t + [e]) == Advance(rx, chunks, Follow(rx, chunks, t).value, e)
  {
    assert (t + [e])[..|t|] == t;
  }

  /** Where the sender stands, if it has conducted itself in order up to here. */
  ghost function Position(io: Io, chunks: seq<seq<byte>>): Option<Cursor> {
    Follow(io.rx, chunks, io.trace)
  }

  ghost predicate At(io: Io, bn: byte, chunks: seq<seq<byte>>, c: Cursor) {
    bn == c.bn && Position(io, chunks) == Some(c)
  }

  /** The sender has given up while trying the block that `c` has in hand. */
  ghost predicate HaltedAt(io: Io, bn: byte, chunks: seq<seq<byte>>, c: Cursor) {
    var p := Position(io, chunks);
    p.Some? && p.value.tries < TRIES && p.value == c.(tries := p.value.tries, halted := true) && bn == c.bn
  }

  /** One exchange moves an orderly sender one step on. */
  lemma ExchangeFollows(io: Io, frame: seq<byte>, chunks: seq<seq<byte>>, c: Cursor)
    requires Position(io, chunks) == Some(c) && c.MaySend(chunks)
    requires frame == Frame(c.bn, chunks[c.chunk])
    ensures var io1 := Exchange(io, frame);
            && io1.rx == io.rx
            && Position(io1, chunks) == Some(c.After(AfterReply(ReplyOutcome(io.Next()))))
  {
    var e := Put(frame, Queued(io.verdicts, |frame|), io.pos);
    assert ReplyTo(io.rx, e) == io.Next();
    FollowAppend(io.rx, chunks, io.trace, e);
  }

  /** Where the tries at one block leave an orderly sender. */
  ghost predicate Tried(e: ChunkEnd, bn: byte, chunks: seq<seq<byte>>, c: Cursor) {
    match e.verdict
    case Acked => At(e.io, Successor(bn), chunks, c.After(Acked))
    case Again => At(e.io, bn, chunks, c.Skipped())
    case Fail(code) => code < 0 && HaltedAt(e.io, bn, chunks, c)
  }

  lemma {:induction false} TryFrameFollows(io: Io, frame: seq<byte>, chunks: seq<seq<byte>>, c: Cursor, left: nat)
    requires Position(io, chunks) == Some(c) && c.MaySend(chunks) && c.tries + left == TRIES
    requires frame == Frame(c.bn, chunks[c.chunk])
    ensures var e := TryFrame(io, frame, left);
            e.io.rx == io.rx && Tried(e, c.bn, chunks, c)
    decreases left
  {
    ExchangeFollows(io, frame, chunks, c);
    var v := AfterReply(ReplyOutcome(io.Next()));
    if !v.Again? || left == 1 {
      TriedNow(Exchange(io, frame), v, c.bn, chunks, c);
    } else {
      TryFrameFollows(Exchange(io, frame), frame, chunks, c.After(v), left - 1);
    }
  }

  lemma TriedNow(io: Io, v: Verdict, bn: byte, chunks: seq<seq<byte>>, c: Cursor)
    requires Position(io, chunks) == Some(c.After(v)) && bn == c.bn && c.tries < TRIES
    requires v.Again? ==> c.tries + 1 == TRIES
    requires v.Fail? ==> v.code < 0
    ensures Tried(ChunkEnd(v, io), bn, chunks, c)
  {
  }

  /** `chunks` continues with `next` at position `k`. */
  predicate ContinuesWith(chunks: seq<seq<byte>>, k: nat, next: seq<seq<byte>>) {
    k + |next| <= |chunks| && chunks[k..k + |next|] == next
  }

  lemma ContinuesSplit(chunks: seq<seq<byte>>, k: nat, a: seq<seq<byte>>, b: seq<seq<byte>>)
    requires ContinuesWith(chunks, k, a + b)
    ensures ContinuesWith(chunks, k, a) && ContinuesWith(chunks, k + |a|, b)
    ensures forall i :: 0 <= i < |a| ==> chunks[k + i] == a[i]
  {
    var all := chunks[k..k + |a + b|];
    assert chunks[k..k + |a|] == all[..|a|] && chunks[k + |a|..k + |a| + |b|] == all[|a|..];
    assert forall i :: 0 <= i < |a| ==> chunks[k + i] == all[i];
  }

  /** Either every block before `k` has been dealt with, or the sender gave up at one of them. */
  ghost predicate Reached(e: CbEnd, chunks: seq<seq<byte>>, k: nat) {
    var p := Position(e.io, chunks);
    && p.Some? && p.value.bn == e.bn
    && (if e.ret >= 0 then p.value.chunk == k && p.value.tries == 0 && !p.value.halted
        else p.value.chunk < k && p.value.tries < TRIES && p.value.halted)
  }

  /** The blocks of a fragment from offset `idx` on. */
  function ChunksFrom(buff: seq<byte>, idx: nat): seq<seq<byte>> {
    if idx < |buff| then Chunks(buff[idx..]) else []
  }

  lemma ChunksFromStep(buff: seq<byte>, idx: nat)
    requires idx % BLOCK == 0 && idx < |buff|
    ensures ChunksFrom(buff, idx)
         == [buff[idx..idx + PayloadLen(|buff|, idx)]] + ChunksFrom(buff, idx + BLOCK)
  {
    var n := PayloadLen(|buff|, idx);
    if |buff| - idx > BLOCK {
      assert buff[idx..][..BLOCK] == buff[idx..idx + n] && buff[idx..][BLOCK..] == buff[idx + BLOCK..];
    } else {
      assert buff[idx..idx + n] == buff[idx..];
    }
  }

  /** Where one block leaves a sender that was at `c`. */
  predicate Dealt(v: Verdict, c: Cursor, d: Cursor) {
    match v
    case Acked => d == c.After(Acked)
    case Again => d == c.Skipped()
    case Fail(code) => code < 0 && d.halted && d.chunk == c.chunk && d.bn == c.bn && d.tries < TRIES
  }

  /** The next block of a fragment, and where it leaves the sender. */
  lemma NextFollows(io: Io, bn: byte, buff: seq<byte>, idx: nat, chunks: seq<seq<byte>>, c: Cursor)
    returns (e: ChunkEnd, d: Cursor)
    requires idx % BLOCK == 0 && idx < |buff|
    requires At(io, bn, chunks, c) && !c.halted && c.tries == 0
    requires ContinuesWith(chunks, c.chunk, ChunksFrom(buff, idx))
    ensures (idx + BLOCK) % BLOCK == 0
    ensures |ChunksFrom(buff, idx)| == 1 + |ChunksFrom(buff, idx + BLOCK)|
    ensures ContinuesWith(chunks, c.chunk + 1, ChunksFrom(buff, idx + BLOCK))
    ensures e.io.rx == io.rx && Position(e.io, chunks) == Some(d)
    ensures Dealt(e.verdict, c, d)
    ensures SendFrom(io, bn, buff, idx) ==
            if e.verdict.Fail? then CbEnd(e.verdict.code, e.io, bn) else SendFrom(e.io, d.bn, buff, idx + BLOCK)
  {
    var payload := buff[idx..idx + PayloadLen(|buff|, idx)];
    ChunksFromStep(buff, idx);
    ContinuesSplit(chunks, c.chunk, [payload], ChunksFrom(buff, idx + BLOCK));
    assert chunks[c.chunk + 0] == [payload][0];
    SendFromStep(io, bn, buff, idx);
    e := TryFrame(io, Frame(bn, payload), TRIES);
    d := ChunkFollows(io, bn, payload, chunks, c, e);
  }

  lemma {:induction false} SendFromFollows(io: Io, bn: byte, buff: seq<byte>, idx: nat,
                                           chunks: seq<seq<byte>>, c: Cursor)
    requires idx % BLOCK == 0
    requires At(io, bn, chunks, c) && !c.halted && c.tries == 0
    requires ContinuesWith(chunks, c.chunk, ChunksFrom(buff, idx))
    ensures var e := SendFrom(io, bn, buff, idx);
            e.io.rx == io.rx && Reached(e, chunks, c.chunk + |ChunksFrom(buff, idx)|)
    decreases |buff| - idx
  {
    if idx < |buff| {
      var e, d := NextFollows(io, bn, buff, idx, chunks, c);
      if !e.verdict.Fail? {
        SendFromFollows(e.io, d.bn, buff, idx + BLOCK, chunks, d);
      }
    }
  }

  /** One block dealt with: acknowledged, passed over, or the end of the session. */
  lemma ChunkFollows(io: Io, bn: byte, payload: seq<byte>, chunks: seq<seq<byte>>, c: Cursor, e: ChunkEnd)
    returns (d: Cursor)
    requires At(io, bn, chunks, c) && !c.halted && c.tries == 0
    requires c.chunk < |chunks| && chunks[c.chunk] == payload && |payload| <= BLOCK
    requires e == TryFrame(io, Frame(bn, payload), TRIES)
    ensures e.io.rx == io.rx && Position(e.io, chunks) == Some(d)
    ensures Dealt(e.verdict, c, d)
  {
    TryFrameFollows(io, Frame(bn, payload), chunks, c, TRIES);
    d := Position(e.io, chunks).value;
  }

  lemma {:induction false} FragmentsFollow(io: Io, bn: byte, frags: seq<seq<byte>>, chunks: seq<seq<byte>>, c: Cursor)
    requires At(io, bn, chunks, c) && !c.halted && c.tries == 0
    requires ContinuesWith(chunks, c.chunk, AllChunks(frags))
    ensures var e := Fragments(io, bn, frags);
            e.io.rx == io.rx && Reached(e, chunks, c.chunk + |AllChunks(frags)|)
    decreases |frags|
  {
    if frags != [] {
      var first, rest := Chunks(frags[0]), AllChunks(frags[1..]);
      ContinuesSplit(chunks, c.chunk, first, rest);
      assert ChunksFrom(frags[0], 0) == first by {
        assert frags[0][0..] == frags[0];
      }
      SendFromFollows(io, bn, frags[0], 0, chunks, c);
      var e := SendFrom(io, bn, frags[0], 0);
      if e.ret >= 0 {
        FragmentsFollow(e.io, e.bn, frags[1..], chunks, Position(e.io, chunks).value);
      }
    }
  }

  /** Control bytes do not move the cursor. */
  lemma ControlFollows(io: Io, b: byte, chunks: seq<seq<byte>>)
    requires Position(io, chunks).Some?
    ensures Position(io.Offer([b]), chunks) == Position(io, chunks)
  {
    FollowAppend(io.rx, chunks, io.trace, Put([b], Queued(io.verdicts, 1), io.pos));
  }

  lemma CancelFollows(io: Io, chunks: seq<seq<byte>>)
    requires Position(io, chunks).Some?
    ensures Upload.Cancel(io).rx == io.rx && Position(Upload.Cancel(io), chunks) == Position(io, chunks)
  {
    ControlFollows(io, CAN, chunks);
    ControlFollows(io.Offer([CAN]), CAN, chunks);
  }

  lemma {:induction false} AwaitQuiet(io: Io, tries: nat)
    ensures var w := AwaitRequest(io, tries); w.io.rx == io.rx && w.io.trace == io.trace
    decreases tries
  {
    if tries > 0 {
      AwaitQuiet(io.Advance(), tries - 1);
    }
  }

  lemma FinishFollows(io: Io, chunks: seq<seq<byte>>)
    requires Position(io, chunks).Some?
    ensures Finish(io).io.rx == io.rx && Position(Finish(io).io, chunks) == Position(io, chunks)
  {
    ControlFollows(io, EOT, chunks);
  }

  /**
   * A whole session, over any stream of replies, is orderly: block after block of the file, each
   * tried at most three times; a successful session has dealt with all of them.
   */
  lemma FgetFollows(io: Io, frags: seq<seq<byte>>, complete: bool)
    requires io.trace == []
    ensures var end, chunks := Fget(io, frags, complete), AllChunks(frags);
            && end.io.rx == io.rx
            && var p := Position(end.io, chunks);
               p.Some? && (end.ok ==> p.value.chunk == |chunks| && !p.value.halted)
  {
    var chunks := AllChunks(frags);
    AwaitQuiet(io, 10);
    var asked := AwaitRequest(io, 10);
    CancelFollows(asked.io, chunks);
    if asked.ret == SEND_OK {
      assert chunks[0..0 + |chunks|] == chunks;
      FragmentsFollow(asked.io, 1, frags, chunks, START);
      var sent := Fragments(asked.io, 1, frags);
      CancelFollows(sent.io, chunks);
      FinishFollows(sent.io, chunks);
      CancelFollows(Finish(sent.io).io, chunks);
    }
  }

  // ---- What an orderly conduct means ------------------------------------------------

  /** The frames that were answered with an ACK. */
  function AckedFrames(rx: seq<Arrival>, t: seq<Event>): seq<Event> {
    if t == [] then []
    else
      var e := t[|t| - 1];
      AckedFrames(rx, t[..|t| - 1]) + (if IsFrame(e) && ReplyTo(rx, e) == Byte(ACK) then [e] else [])
  }

  function FrameCount(t: seq<Event>): nat {
    if t == [] then 0 else FrameCount(t[..|t| - 1]) + (if IsFrame(t[|t| - 1]) then 1 else 0)
  }

  ghost predicate Increasing(s: seq<nat>, limit: nat) {
    && (forall i, j :: 0 <= i < j < |s| ==> s[i] < s[j])
    && (forall i :: 0 <= i < |s| ==> s[i] < limit)
  }

  /** The acknowledged blocks form an in-order subsequence; at most three frames go out per block. */
  lemma {:induction false} AckedInOrder(rx: seq<Arrival>, chunks: seq<seq<byte>>, t: seq<Event>)
    requires Follow(rx, chunks, t).Some?
    ensures var c := Follow(rx, chunks, t).value;
            && Increasing(c.acked, c.chunk) && c.chunk <= |chunks| && c.tries < TRIES
            && c.bn == (|c.acked| + 1) % 256
            && FrameCount(t) <= TRIES * c.chunk + c.tries + (if c.halted then 1 else 0)
  {
    if t != [] {
      AckedInOrder(rx, chunks, t[..|t| - 1]);
      var c, e := Follow(rx, chunks, t[..|t| - 1]).value, t[|t| - 1];
      if IsFrame(e) {
        AfterInOrder(c, AfterReply(ReplyOutcome(ReplyTo(rx, e))), |chunks|);
      }
    }
  }

  lemma AfterInOrder(c: Cursor, v: Verdict, n: nat)
    requires Increasing(c.acked, c.chunk) && c.chunk < n && c.tries < TRIES && !c.halted
    requires c.bn == (|c.acked| + 1) % 256
    ensures var d := c.After(v);
            && Increasing(d.acked, d.chunk) && d.chunk <= n && d.tries < TRIES
            && d.bn == (|d.acked| + 1) % 256
            && TRIES * c.chunk + c.tries + 1 <= TRIES * d.chunk + d.tries + (if d.halted then 1 else 0)
  {
  }

  /** The acknowledged frames carry those blocks, numbered 1, 2, 3, ... modulo 256. */
  lemma {:induction false} AckedCarry(rx: seq<Arrival>, chunks: seq<seq<byte>>, t: seq<Event>, k: nat)
    requires Follow(rx, chunks, t).Some? && k < |AckedFrames(rx, t)|
    requires forall i :: 0 <= i < |chunks| ==> |chunks[i]| <= BLOCK
    ensures var c, f := Follow(rx, chunks, t).value, AckedFrames(rx, t);
            && |f| == |c.acked| && c.acked[k] < |chunks|
            && f[k].Put? && f[k].data == Frame((k + 1) % 256, chunks[c.acked[k]])
  {
    AckedCount(rx, chunks, t);
    AckedInOrder(rx, chunks, t);
    var init, e := t[..|t| - 1], t[|t| - 1];
    AckedCount(rx, chunks, init);
    if k < |AckedFrames(rx, init)| {
      AckedCarry(rx, chunks, init, k);
      assert Follow(rx, chunks, t).value.acked[k] == Follow(rx, chunks, init).value.acked[k];
    } else {
      AckedInOrder(rx, chunks, init);
    }
  }

  lemma {:induction false} AckedCount(rx: seq<Arrival>, chunks: seq<seq<byte>>, t: seq<Event>)
    requires Follow(rx, chunks, t).Some?
    ensures |AckedFrames(rx, t)| == |Follow(rx, chunks, t).value.acked|
  {
    if t != [] {
      AckedCount(rx, chunks, t[..|t| - 1]);
    }
  }

  // ---- What the replies lead to --------------------------------------------------------

  /** The `i`-th reply from here on. */
  function ReplyAt(io: Io, i: nat): Arrival {
    if io.pos + i < |io.rx| then io.rx[io.pos + i] else Silence
  }

  /** No reply, or a NAK. */
  predicate Refusal(a: Arrival) {
    a == Silence || a == Byte(0x15)
  }

  /** The same frame offered `n` times, with a reply read behind each. */
  function Offers(io: Io, frame: seq<byte>, n: nat): (r: Io)
    ensures r.rx == io.rx && r.Next() == ReplyAt(io, n)
    ensures r.pos == if io.pos + n <= |io.rx| then io.pos + n else if io.pos <= |io.rx| then |io.rx| else io.pos
    decreases n, io
  {
    if n == 0 then io else Exchange(Offers(io, frame, n - 1), frame)
  }

  /**
   * One block is offered until it is answered: after `k` refusals, at most two, an ACK acknowledges it, a CAN
   * cancels the download, anything else but a refusal fails it, and a third refusal passes it over.
   */
  lemma BlockTries(io: Io, frame: seq<byte>, k: nat)
    requires k <= 2 && forall i :: 0 <= i < k ==> Refusal(ReplyAt(io, i))
    ensures var a, e, n := ReplyAt(io, k), TryFrame(io, frame, 3), Offers(io, frame, k + 1);
            && (a == Byte(0x06) ==> e == ChunkEnd(Acked, n))
            && (a == Byte(0x18) ==> e == ChunkEnd(Fail(-2), n))
            && (a.Fault? || (a.Byte? && a.b != 0x06 && a.b != 0x15 && a.b != 0x18) ==> e == ChunkEnd(Fail(-1), n))
            && (Refusal(a) && k == 2 ==> e == ChunkEnd(Again, n))
  {
    TriesLeft(io, frame, k);
  }

  lemma {:induction false} TriesLeft(io: Io, frame: seq<byte>, k: nat)
    requires k <= 2 && forall i :: 0 <= i < k ==> Refusal(ReplyAt(io, i))
    ensures TryFrame(io, frame, 3) == TryFrame(Offers(io, frame, k), frame, 3 - k)
    decreases k
  {
    if k > 0 {
      TriesLeft(io, frame, k - 1);
      assert Refusal(ReplyAt(io, k - 1));
    }
  }

  /**
   * The same in the callback: from the block at `idx` it goes on to the next one, 128 bytes further, with the
   * number one higher behind an ACK and the same number behind a third refusal, and it ends at anything else.
   */
  lemma CallbackTries(io: Io, bn: byte, buff: seq<byte>, idx: nat, k: nat)
    requires idx % 128 == 0 && idx < |buff| && k <= 2 && forall i :: 0 <= i < k ==> Refusal(ReplyAt(io, i))
    ensures (idx + 128) % 128 == 0
    ensures var payload := buff[idx..if |buff| - idx < 128 then |buff| else idx + 128];
            var a, e, n := ReplyAt(io, k), SendFrom(io, bn, buff, idx), Offers(io, Frame(bn, payload), k + 1);
            && (a == Byte(0x06) ==> e == SendFrom(n, (bn + 1) % 256, buff, idx + 128))
            && (a == Byte(0x18) ==> e == CbEnd(-2, n, bn))
            && (a.Fault? || (a.Byte? && a.b != 0x06 && a.b != 0x15 && a.b != 0x18) ==> e == CbEnd(-1, n, bn))
            && (Refusal(a) && k == 2 ==> e == SendFrom(n, bn, buff, idx + 128))
  {
    SendFromStep(io, bn, buff, idx);
    var payload := buff[idx..idx + PayloadLen(|buff|, idx)];
    BlockTries(io, Frame(bn, payload), k);
  }

  lemma {:induction false} HaltedForGood(rx: seq<Arrival>, chunks: seq<seq<byte>>, t: seq<Event>, i: nat)
    requires i <= |t| && Follow(rx, chunks, t).Some?
    ensures Follow(rx, chunks, t[..i]).Some?
    ensures Follow(rx, chunks, t[..i]).value.halted ==>
              Follow(rx, chunks, t).value.halted && forall j :: i <= j < |t| ==> !IsFrame(t[j])
    decreases |t|
  {
    if i == |t| {
      assert t[..i] == t;
    } else {
      HaltedForGood(rx, chunks, t[..|t| - 1], i);
      assert t[..|t| - 1][..i] == t[..i];
      assert forall j :: i <= j < |t| - 1 ==> t[..|t| - 1][j] == t[j];
    }
  }

  /**
   * In any session, a frame answered with CAN, or with anything but ACK, NAK or a pause, is the last, and the
   * session fails.
   */
  lemma RefusedStops(io: Io, frags: seq<seq<byte>>, complete: bool, i: nat)
    requires io.trace == [] && i < |Fget(io, frags, complete).io.trace|
    requires var e := Fget(io, frags, complete).io.trace[i];
             var a := ReplyTo(io.rx, e);
             IsFrame(e) && (a.Fault? || (a.Byte? && a.b != 0x06 && a.b != 0x15))
    ensures var end := Fget(io, frags, complete);
            !end.ok && forall j :: i < j < |end.io.trace| ==> !IsFrame(end.io.trace[j])
  {
    FgetFollows(io, frags, complete);
    var t, chunks := Fget(io, frags, complete).io.trace, AllChunks(frags);
    HaltedForGood(io.rx, chunks, t, i + 1);
    HaltedForGood(io.rx, chunks, t, i);
    assert t[..i + 1][..i] == t[..i];
  }

  /** A download that the client does not complete fails, and so does one that is not asked for; both are cancelled. */
  lemma IncompleteFails(io: Io, frags: seq<seq<byte>>, complete: bool)
    requires !complete || AwaitRequest(io, 10).ret != SEND_OK
    ensures var end := Fget(io, frags, complete);
            !end.ok && end.io.trace != [] && end.io.trace[|end.io.trace| - 1].Put?
            && end.io.trace[|end.io.trace| - 1].data == [0x18]
  {
  }

  /** Ten reads at most wait for a NAK: pauses and other bytes are passed over, and CAN or an error ends the wait. */
  lemma {:induction false} AsksWithin(io: Io, k: nat, tries: nat)
    requires k <= tries
    requires forall i :: 0 <= i < k ==>
               var a := ReplyAt(io, i); a == Silence || (a.Byte? && a.b != 0x15 && a.b != 0x18)
    ensures k == tries ==> AwaitRequest(io, tries).ret == SEND_FAILED
    ensures k < tries && ReplyAt(io, k) == Byte(0x15) ==>
              AwaitRequest(io, tries) == Waited(SEND_OK, io.(pos := io.pos + k + 1))
    ensures k < tries && ReplyAt(io, k) == Byte(0x18) ==> AwaitRequest(io, tries).ret == SEND_CANCELED
    ensures k < tries && ReplyAt(io, k).Fault? ==> AwaitRequest(io, tries).ret == SEND_FAILED
    decreases k
  {
    if k > 0 {
      assert ReplyAt(io, 0) == io.Next();
      forall i | 0 <= i < k ensures ReplyAt(io.Advance(), i) == ReplyAt(io, i + 1) {
      }
      AsksWithin(io.Advance(), k - 1, tries - 1);
    }
  }

  // ---- A whole file --------------------------------------------------------------------

  /** Every fragment but the last is a whole number of blocks. */
  predicate Aligned(frags: seq<seq<byte>>) {
    forall i :: 0 <= i < |frags| - 1 ==> |frags[i]| % BLOCK == 0
  }

  /** Every block but the last is full. */
  predicate FullBlocks(cs: seq<seq<byte>>) {
    forall i :: 0 <= i < |cs| - 1 ==> |cs[i]| == BLOCK
  }

  function PaddedAll(cs: seq<seq<byte>>): (ps: seq<seq<byte>>)
    requires forall i :: 0 <= i < |cs| ==> |cs[i]| <= BLOCK
  {
    seq(|cs|, i requires 0 <= i < |cs| => Padded(cs[i]))
  }

  /** The payload fields of a list of frames, joined. */
  function Payloads(f: seq<Event>): seq<byte> {
    if f == [] then []
    else (if IsFrame(f[0]) then f[0].data[3..131] else []) + Payloads(f[1..])
  }

  lemma {:induction false} ChunksJoin(data: seq<byte>)
    ensures Flatten(Chunks(data)) == data
    ensures FullBlocks(Chunks(data))
    ensures |data| % BLOCK == 0 ==> forall i :: 0 <= i < |Chunks(data)| ==> |Chunks(data)[i]| == BLOCK
  {
    if |data| > BLOCK {
      ChunksJoin(data[BLOCK..]);
      var cs, rest := Chunks(data), Chunks(data[BLOCK..]);
      assert cs == [data[..BLOCK]] + rest;
      assert |rest| > 0;
    } else if data != [] {
      assert Chunks(data)[1..] == [];
    }
  }

  lemma {:induction false} AllChunksJoin(frags: seq<seq<byte>>)
    requires Aligned(frags)
    ensures Flatten(AllChunks(frags)) == Flatten(frags) && FullBlocks(AllChunks(frags))
  {
    if frags != [] {
      var first, rest := Chunks(frags[0]), AllChunks(frags[1..]);
      ChunksJoin(frags[0]);
      AllChunksJoin(frags[1..]);
      FlattenAppend(first, rest);
      if |frags| == 1 {
        assert first + rest == first;
      } else {
        forall i | 0 <= i < |first + rest| - 1 ensures |(first + rest)[i]| == BLOCK {
          if i >= |first| {
            assert (first + rest)[i] == rest[i - |first|];
          }
        }
      }
    }
  }

  /** Padding only ever adds bytes behind the end of the data. */
  lemma {:induction false} PaddedJoin(cs: seq<seq<byte>>)
    requires forall i :: 0 <= i < |cs| ==> |cs[i]| <= BLOCK
    requires FullBlocks(cs)
    ensures Flatten(cs) <= Flatten(PaddedAll(cs))
  {
    if cs != [] {
      PaddedJoin(cs[1..]);
      assert PaddedAll(cs)[1..] == PaddedAll(cs[1..]);
      if |cs| > 1 {
        assert Padded(cs[0]) == cs[0];
      }
    }
  }

  lemma {:induction false} IncreasingIsIdentity(s: seq<nat>, k: nat)
    requires Increasing(s, |s|) && k < |s|
    ensures s[k] == k
  {
    IncreasingAbove(s, k);
    IncreasingBelow(s, |s|, k);
  }

  lemma {:induction false} IncreasingAbove(s: seq<nat>, k: nat)
    requires (forall i, j :: 0 <= i < j < |s| ==> s[i] < s[j]) && k < |s|
    ensures k <= s[k]
  {
    if k > 0 {
      IncreasingAbove(s, k - 1);
    }
  }

  lemma {:induction false} IncreasingBelow(s: seq<nat>, limit: nat, k: nat)
    requires Increasing(s, limit) && k < |s|
    ensures s[k] + |s| <= limit + k
    decreases |s| - k
  {
    if k + 1 < |s| {
      IncreasingBelow(s, limit, k + 1);
    }
  }

  lemma {:induction false} PayloadsArePadded(f: seq<Event>, cs: seq<seq<byte>>, n: nat)
    requires |f| == |cs|
    requires forall i :: 0 <= i < |cs| ==> |cs[i]| <= BLOCK
    requires forall k :: 0 <= k < |f| ==> f[k].Put? && f[k].data == Frame((n + k + 1) % 256, cs[k])
    ensures Payloads(f) == Flatten(PaddedAll(cs))
    decreases |f|
  {
    if f != [] {
      assert f[0].data[3..131] == Padded(cs[0]);
      forall k | 0 <= k < |f[1..]|
        ensures f[1..][k].Put? && f[1..][k].data == Frame((n + 1 + k + 1) % 256, cs[1..][k])
      {
        assert f[k + 1].Put? && f[k + 1].data == Frame((n + (k + 1) + 1) % 256, cs[k + 1]);
      }
      PayloadsArePadded(f[1..], cs[1..], n + 1);
      assert PaddedAll(cs)[1..] == PaddedAll(cs[1..]);
    }
  }

  lemma AckedInTurn(rx: seq<Arrival>, chunks: seq<seq<byte>>, t: seq<Event>, k: nat)
    requires forall i :: 0 <= i < |chunks| ==> |chunks[i]| <= BLOCK
    requires var p := Follow(rx, chunks, t); p.Some? && |p.value.acked| == |chunks| && k < |AckedFrames(rx, t)|
    ensures var f := AckedFrames(rx, t);
            k < |chunks| && f[k].Put? && f[k].data == Frame((k + 1) % 256, chunks[k])
  {
    var c := Follow(rx, chunks, t).value;
    AckedInOrder(rx, chunks, t);
    AckedCount(rx, chunks, t);
    AckedCarry(rx, chunks, t, k);
    assert Increasing(c.acked, |c.acked|);
    IncreasingIsIdentity(c.acked, k);
  }

  /**
   * When every block was acknowledged, the acknowledged payloads, joined over all fragments and
   * cut to the file's length, are the file.
   */
  lemma WholeFile(rx: seq<Arrival>, frags: seq<seq<byte>>, t: seq<Event>)
    requires Aligned(frags)
    requires var p := Follow(rx, AllChunks(frags), t); p.Some? && |p.value.acked| == |AllChunks(frags)|
    ensures Flatten(frags) <= Payloads(AckedFrames(rx, t))
  {
    var chunks := AllChunks(frags);
    var c, f := Follow(rx, chunks, t).value, AckedFrames(rx, t);
    AckedCount(rx, chunks, t);
    forall k | 0 <= k < |f| ensures f[k].Put? && f[k].data == Frame((0 + k + 1) % 256, chunks[k]) {
      AckedInTurn(rx, chunks, t, k);
    }
    PayloadsArePadded(f, chunks, 0);
    AllChunksJoin(frags);
    PaddedJoin(chunks);
  }
}
