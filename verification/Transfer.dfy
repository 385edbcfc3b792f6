/**
 * The code's sender against the code's receiver, over a line that keeps order but may lose or
 * visibly damage what it carries. Time is left out: any read may time out at any moment.
 */
module Transfer {
  import opened Bytes
  import opened Serial
  import opened Xmodem
  import Upload
  import Download

  /**
   * A message on its way to the receiver, which sees only the bytes: a frame as it was built, with a
   * record of which block of the file it holds, a control code, or what damage has left behind.
   */
  datatype Item = Block(bytes: seq<byte>, chunk: nat) | Control(code: byte) | Noise(bytes: seq<byte>)

  datatype SenderPhase = Opening | Ready | Waiting | Ending | Ended | Aborted

  /**
   * `fate` says of every block already left behind whether it was acknowledged (or had used up
   * its tries); `tries` counts the tries spent on the one in hand, and the reads while opening.
   */
  datatype Sender = Sender(phase: SenderPhase, fate: seq<bool>, tries: nat, bn: byte)

  datatype ReceiverPhase = First | Rest | Finished | Stopped

  /** `got` are the payloads taken, `src` which blocks of the file they came from. */
  datatype Receiver = Receiver(phase: ReceiverPhase, bn: byte, cnt: nat, got: seq<seq<byte>>, src: seq<nat>)

  datatype State = State(s: Sender, r: Receiver, down: seq<Item>, up: seq<byte>)

  datatype Step =
    | SenderSends
    | SenderReads
    | SenderTimesOut
    | SenderFaults(code: Errno)
    | SenderCancels
    | ReceiverHears
    | ReceiverTimesOut
    | ReceiverStops(cancel: bool)
    | LoseDown(i: nat)
    | DamageDown(i: nat, n: nat, pieces: seq<seq<byte>>)
    | LoseUp(i: nat)
    | DamageUp(i: nat, n: nat, bytes: seq<byte>)

  /** The receiver has sent its opening NAK. */
  const INIT := State(Sender(Opening, [], 0, 1), Receiver(First, 0, 0, [], []), [], [NAK])

  /** Blocks small enough for a frame. */
  predicate Fits(chunks: seq<seq<byte>>) {
    forall i :: 0 <= i < |chunks| ==> |chunks[i]| <= BLOCK
  }

  // ---- The sender -------------------------------------------------------------

  function Send(chunks: seq<seq<byte>>, st: State): State
    requires |st.s.fate| < |chunks| ==> |chunks[|st.s.fate|]| <= BLOCK
  {
    var k := |st.s.fate|;
    if k < |chunks| then
      st.(s := st.s.(phase := Waiting), down := st.down + [Block(Frame(st.s.bn, chunks[k]), k)])
    else
      st.(s := st.s.(phase := Ending), down := st.down + [Control(EOT)])
  }

  function Abort(st: State): State {
    st.(s := st.s.(phase := Aborted), down := st.down + [Control(CAN), Control(CAN)])
  }

  /** The sender after reading `reply`, a byte or a timeout. */
  function Hear(st: State, reply: Arrival): State {
    match st.s.phase
    case Opening =>
      if reply == Byte(NAK) then st.(s := st.s.(phase := Ready, tries := 0))
      else if reply == Byte(CAN) || reply.Fault? || st.s.tries + 1 >= 10 then Abort(st)
      else st.(s := st.s.(tries := st.s.tries + 1))
    case Waiting =>
      var v := Download.AfterReply(ReplyOutcome(reply));
      if v.Acked? then st.(s := Sender(Ready, st.s.fate + [true], 0, Successor(st.s.bn)))
      else if v.Fail? then Abort(st)
      else if st.s.tries + 1 >= Download.TRIES then st.(s := Sender(Ready, st.s.fate + [false], 0, st.s.bn))
      else st.(s := st.s.(phase := Ready, tries := st.s.tries + 1))
    case Ending => if reply == Byte(ACK) then st.(s := st.s.(phase := Ended)) else Abort(st)
    case _ => st
  }

  predicate Listening(s: Sender) {
    s.phase == Opening || s.phase == Waiting || s.phase == Ending
  }

  // ---- The receiver -----------------------------------------------------------

  function Arrivals(bytes: seq<byte>): seq<Arrival> {
    seq(|bytes|, i requires 0 <= i < |bytes| => Byte(bytes[i]))
  }

  /** What one call of the block receiver makes of `bytes` followed by silence. */
  function Understand(bn: byte, bytes: seq<byte>): Received {
    Receive(Io(Arrivals(bytes), 0, [], [], []), bn)
  }

  function BytesOf(item: Item): seq<byte> {
    match item
    case Block(bytes, _) => bytes
    case Control(code) => [code]
    case Noise(bytes) => bytes
  }

  function Reaction(r: Receiver, ret: int): Upload.Reaction {
    if r.phase == First then Upload.FirstReaction(ret, r.cnt) else Upload.CallbackReaction(ret, r.cnt)
  }

  /** The receiver after the outcome `h` of one call of the block receiver. */
  function React(st: State, h: Received, chunk: nat): State {
    var r := st.r;
    var ack := if h.ret == RECV_FINISHED then [ACK] else [];
    match Reaction(r, h.ret)
    case TakeBlock =>
      var payload := if |h.got| == FRAME then h.got[3..131] else [];
      st.(r := Receiver(Rest, h.bn, 0, r.got + [payload], r.src + [chunk]), up := st.up + [ACK])
    case AskAgain => st.(r := r.(cnt := r.cnt + 1), up := st.up + [NAK])
    case GiveUp => st.(r := r.(phase := Stopped), up := st.up + [CAN, CAN])
    case Conclude =>
      st.(r := r.(phase := if h.ret == RECV_FINISHED then Finished else Stopped), up := st.up + ack)
    case Refuse => st.(r := r.(phase := Stopped), up := st.up + ack)
    case Ignore => st
  }

  predicate Awake(r: Receiver) {
    r.phase == First || r.phase == Rest
  }

  // ---- The line -----------------------------------------------------------------

  /**
   * One message that damage may leave behind: a byte that is neither SOH nor EOT, or an SOH and what
   * is collected behind it, cut short or inconsistent in header or checksum.
   */
  predicate Visible(x: seq<byte>) {
    0 < |x| <= FRAME &&
    if x[0] == SOH then |x| == FRAME ==> x[1] as int + x[2] as int != 255 || Sum(x[3..131]) != x[131]
    else |x| == 1 && x[0] != EOT
  }

  /** The line with the `n` items from `i` on replaced by noise. */
  function Replaced(down: seq<Item>, i: nat, n: nat, pieces: seq<seq<byte>>): seq<Item>
    requires i + n <= |down|
  {
    down[..i] + seq(|pieces|, k requires 0 <= k < |pieces| => Noise(pieces[k])) + down[i + n..]
  }

  function Respoken(up: seq<byte>, i: nat, n: nat, bytes: seq<byte>): seq<byte>
    requires i + n <= |up|
  {
    up[..i] + bytes + up[i + n..]
  }

  predicate Enabled(st: State, step: Step) {
    match step
    case SenderSends => st.s.phase == Ready
    case SenderReads => Listening(st.s) && st.up != []
    case SenderTimesOut => Listening(st.s)
    case SenderFaults(_) => Listening(st.s)
    case SenderCancels => st.s.phase == Ready
    case ReceiverHears => Awake(st.r) && st.down != []
    case ReceiverTimesOut => Awake(st.r)
    case ReceiverStops(_) => Awake(st.r)
    case LoseDown(i) => i < |st.down|
    case DamageDown(i, n, pieces) =>
      i + n <= |st.down| && forall k :: 0 <= k < |pieces| ==> Visible(pieces[k])
    case LoseUp(i) => i < |st.up|
    case DamageUp(i, n, bytes) => i + n <= |st.up| && ACK !in bytes
  }

  function Apply(chunks: seq<seq<byte>>, st: State, step: Step): State
    requires Fits(chunks)
    requires Enabled(st, step)
  {
    match step
    case SenderSends => Send(chunks, st)
    case SenderReads => Hear(st.(up := st.up[1..]), Byte(st.up[0]))
    case SenderTimesOut => Hear(st, Silence)
    case SenderFaults(code) => Hear(st, Fault(code))
    case SenderCancels => Abort(st)
    case ReceiverHears =>
      var item := st.down[0];
      React(st.(down := st.down[1..]), Understand(st.r.bn, BytesOf(item)), if item.Block? then item.chunk else 0)
    case ReceiverTimesOut => React(st, Understand(st.r.bn, []), 0)
    case ReceiverStops(cancel) =>
      st.(r := st.r.(phase := Stopped), up := st.up + if cancel then [CAN, CAN] else [])
    case LoseDown(i) => st.(down := Replaced(st.down, i, 1, []))
    case DamageDown(i, n, pieces) => st.(down := Replaced(st.down, i, n, pieces))
    case LoseUp(i) => st.(up := Respoken(st.up, i, 1, []))
    case DamageUp(i, n, bytes) => st.(up := Respoken(st.up, i, n, bytes))
  }

  /** The state after a list of steps, if each was possible in turn. */
  function Run(chunks: seq<seq<byte>>, steps: seq<Step>): Option<State>
    requires Fits(chunks)
  {
    if steps == [] then Some(INIT)
    else
      match Run(chunks, steps[..|steps| - 1])
      case None => None
      case Some(st) =>
        var step := steps[|steps| - 1];
        if Enabled(st, step) then Some(Apply(chunks, st, step)) else None
  }

  // ---- The invariant --------------------------------------------------------------

  function Acked(fate: seq<bool>): nat {
    if fate == [] then 0 else Acked(fate[..|fate| - 1]) + (if fate[|fate| - 1] then 1 else 0)
  }

  lemma AckedAppend(fate: seq<bool>, b: bool)
    ensures Acked(fate + [b]) == Acked(fate) + (if b then 1 else 0)
  {
    assert (fate + [b])[..|fate|] == fate;
  }

  lemma {:induction false} AckedMonotone(fate: seq<bool>, i: nat, j: nat)
    requires i <= j <= |fate|
    ensures Acked(fate[..i]) <= Acked(fate[..j]) <= Acked(fate[..i]) + (j - i)
    decreases j - i
  {
    if i < j {
      AckedMonotone(fate, i, j - 1);
      assert fate[..j][..j - 1] == fate[..j - 1];
    }
  }

  /** The running number under which block `c` goes out; its block number is this modulo 256. */
  function Slot(fate: seq<bool>, c: nat): nat
    requires c <= |fate|
  {
    Acked(fate[..c]) + 1
  }

  lemma SlotMonotone(fate: seq<bool>, c: nat, d: nat)
    requires c <= d <= |fate|
    ensures Slot(fate, c) <= Slot(fate, d) <= Acked(fate) + 1
  {
    AckedMonotone(fate, c, d);
    AckedMonotone(fate, d, |fate|);
    assert fate[..|fate|] == fate;
  }

  lemma SlotStable(fate: seq<bool>, b: bool, c: nat)
    requires c <= |fate|
    ensures Slot(fate + [b], c) == Slot(fate, c)
  {
    assert (fate + [b])[..c] == fate[..c];
  }

  function Latest(src: seq<nat>): nat {
    if src == [] then 0 else src[|src| - 1]
  }

  /** A frame on the line is what the sender built for its block; damage is visible. */
  predicate Sensible(chunks: seq<seq<byte>>, fate: seq<bool>, item: Item) {
    match item
    case Control(code) => code == CAN || (code == EOT && |fate| == |chunks|)
    case Block(bytes, c) =>
      && c < |chunks| && c <= |fate| && |chunks[c]| <= BLOCK
      && bytes == Frame(Slot(fate, c) % 256, chunks[c])
    case Noise(bytes) => Visible(bytes)
  }

  predicate LineOk(chunks: seq<seq<byte>>, fate: seq<bool>, latest: nat, down: seq<Item>) {
    && (forall i :: 0 <= i < |down| ==> Sensible(chunks, fate, down[i]))
    && (forall i :: 0 <= i < |down| && down[i].Block? ==> latest <= down[i].chunk)
    && (forall i, j :: 0 <= i < j < |down| && down[i].Block? && down[j].Block? ==> down[i].chunk <= down[j].chunk)
  }

  /** The taken payloads are those of strictly later and later blocks, in their slots. */
  ghost predicate TakenOk(chunks: seq<seq<byte>>, fate: seq<bool>, r: Receiver) {
    && |r.got| == |r.src| && r.bn == |r.got| % 256
    && (forall i, j :: 0 <= i < j < |r.src| ==> r.src[i] < r.src[j])
    && (forall i :: 0 <= i < |r.src| ==>
          && r.src[i] < |chunks| && r.src[i] <= |fate| && |chunks[r.src[i]]| <= BLOCK
          && Slot(fate, r.src[i]) == i + 1
          && r.got[i] == Padded(chunks[r.src[i]]))
  }

  predicate SenderOk(chunks: seq<seq<byte>>, s: Sender) {
    && |s.fate| <= |chunks| && s.bn == (Acked(s.fate) + 1) % 256
    && (s.phase == Waiting ==> |s.fate| < |chunks|)
    && (s.phase == Ending || s.phase == Ended ==> |s.fate| == |chunks|)
  }

  /** The sender has not come to the end of the file yet. */
  predicate Underway(s: Sender) {
    s.phase == Opening || s.phase == Ready || s.phase == Waiting
  }

  ghost predicate Inv(chunks: seq<seq<byte>>, st: State) {
    && SenderOk(chunks, st.s)
    && TakenOk(chunks, st.s.fate, st.r)
    && LineOk(chunks, st.s.fate, Latest(st.r.src), st.down)
    && Acked(st.s.fate) + (if Underway(st.s) then multiset(st.up)[ACK] else 0) <= |st.r.got|
    && (Underway(st.s) ==> Control(EOT) !in st.down)
    && (st.r.phase == Finished ==> |st.s.fate| == |chunks| && !Underway(st.s))
  }

  // ---- Every step keeps it -----------------------------------------------------------

  lemma SendKeeps(chunks: seq<seq<byte>>, st: State)
    requires Fits(chunks)
    requires Inv(chunks, st) && st.s.phase == Ready
    ensures Inv(chunks, Send(chunks, st))
  {
    var fate, k := st.s.fate, |st.s.fate|;
    assert fate[..k] == fate;
    if k < |chunks| {
      LatestBounded(chunks, fate, st.r);
      LineGrows(chunks, fate, Latest(st.r.src), st.down, Block(Frame(st.s.bn, chunks[k]), k));
    } else {
      LineGrows(chunks, fate, Latest(st.r.src), st.down, Control(EOT));
    }
  }

  lemma LatestBounded(chunks: seq<seq<byte>>, fate: seq<bool>, r: Receiver)
    requires TakenOk(chunks, fate, r)
    ensures Latest(r.src) <= |fate|
  {
    if r.src != [] {
      assert r.src[|r.src| - 1] <= |fate|;
    }
  }

  /** Another item on the line, no older than those before it. */
  lemma LineGrows(chunks: seq<seq<byte>>, fate: seq<bool>, latest: nat, down: seq<Item>, item: Item)
    requires LineOk(chunks, fate, latest, down) && Sensible(chunks, fate, item)
    requires item.Block? ==> latest <= item.chunk == |fate|
    ensures LineOk(chunks, fate, latest, down + [item])
  {
  }

  lemma AbortKeeps(chunks: seq<seq<byte>>, st: State)
    requires Inv(chunks, st)
    ensures Inv(chunks, Abort(st))
  {
  }

  lemma Wrap(n: nat)
    ensures (n + 2) % 256 == ((n + 1) % 256 + 1) % 256
  {
  }

  /** Leaving a block behind, acknowledged or not, disturbs nothing that depends on earlier blocks. */
  lemma FateKeeps(chunks: seq<seq<byte>>, fate: seq<bool>, b: bool, r: Receiver, down: seq<Item>)
    requires |fate| < |chunks| && TakenOk(chunks, fate, r) && LineOk(chunks, fate, Latest(r.src), down)
    requires Control(EOT) !in down
    ensures TakenOk(chunks, fate + [b], r) && LineOk(chunks, fate + [b], Latest(r.src), down)
  {
    forall i | 0 <= i < |r.src| ensures Slot(fate + [b], r.src[i]) == i + 1 {
      SlotStable(fate, b, r.src[i]);
    }
    forall i | 0 <= i < |down| ensures Sensible(chunks, fate + [b], down[i]) {
      if down[i].Block? {
        SlotStable(fate, b, down[i].chunk);
      }
    }
  }

  lemma MoveOnKeeps(chunks: seq<seq<byte>>, st: State, b: bool, s: Sender)
    requires Inv(chunks, st) && st.s.phase == Waiting
    requires Acked(st.s.fate) + multiset(st.up)[ACK] + (if b then 1 else 0) <= |st.r.got|
    requires s == Sender(Ready, st.s.fate + [b], 0, if b then Successor(st.s.bn) else st.s.bn)
    ensures Inv(chunks, st.(s := s))
  {
    AckedAppend(st.s.fate, b);
    FateKeeps(chunks, st.s.fate, b, st.r, st.down);
    Wrap(Acked(st.s.fate));
  }

  /** The sender may change phase and counter as long as it stays where it is in the file. */
  lemma PhaseKeeps(chunks: seq<seq<byte>>, st: State, phase: SenderPhase, tries: nat)
    requires Inv(chunks, st)
    requires phase == Aborted || phase == Ready || phase == Opening || (phase == Ended && |st.s.fate| == |chunks|)
    requires phase == Ready || phase == Opening ==> Underway(st.s)
    ensures Inv(chunks, st.(s := st.s.(phase := phase, tries := tries)))
  {
  }

  lemma HearOpening(chunks: seq<seq<byte>>, st: State, reply: Arrival)
    requires Inv(chunks, st) && (st.s.phase == Opening || st.s.phase == Ending)
    ensures Inv(chunks, Hear(st, reply))
  {
    AbortKeeps(chunks, st);
    if st.s.phase == Ending {
      PhaseKeeps(chunks, st, Ended, st.s.tries);
    } else {
      PhaseKeeps(chunks, st, Ready, 0);
      PhaseKeeps(chunks, st, Opening, st.s.tries + 1);
    }
  }

  lemma HearWaiting(chunks: seq<seq<byte>>, st: State, reply: Arrival)
    requires Inv(chunks, st) && st.s.phase == Waiting
    requires reply == Byte(ACK) ==> Acked(st.s.fate) + multiset(st.up)[ACK] + 1 <= |st.r.got|
    ensures Inv(chunks, Hear(st, reply))
  {
    var v := Download.AfterReply(ReplyOutcome(reply));
    if v.Acked? {
      MoveOnKeeps(chunks, st, true, Hear(st, reply).s);
    } else if v.Fail? {
      AbortKeeps(chunks, st);
    } else if st.s.tries + 1 >= Download.TRIES {
      MoveOnKeeps(chunks, st, false, Hear(st, reply).s);
    } else {
      PhaseKeeps(chunks, st, Ready, st.s.tries + 1);
    }
  }

  lemma HearKeeps(chunks: seq<seq<byte>>, st: State, reply: Arrival)
    requires Inv(chunks, st) && Listening(st.s)
    requires reply == Byte(ACK) && Underway(st.s) ==> Acked(st.s.fate) + multiset(st.up)[ACK] + 1 <= |st.r.got|
    ensures Inv(chunks, Hear(st, reply))
  {
    if st.s.phase == Waiting {
      HearWaiting(chunks, st, reply);
    } else {
      HearOpening(chunks, st, reply);
    }
  }

  /** Something that starts like a frame is never read as a control code; taken, it is the next frame. */
  lemma UnderstandBlock(bn: byte, bytes: seq<byte>)
    requires 0 < |bytes| <= FRAME && bytes[0] == SOH
    ensures var h := Understand(bn, bytes);
            && h.ret != RECV_FINISHED && h.ret != RECV_CANCELED
            && (h.ret == RECV_OK ==>
                  && h.got == bytes && |bytes| == FRAME && h.bn == Successor(bn)
                  && bytes == Frame(Successor(bn), bytes[3..131]))
  {
    var io := Io(Arrivals(bytes), 0, [], [], []);
    assert io.Next() == Byte(SOH);
    var h := Receive(io, bn);
    if h.ret == RECV_OK {
      ReceivedOk(io, bn);
      forall i | 0 <= i < |bytes| ensures h.got[i] == bytes[i] {
        assert io.rx[0 + i] == Byte(h.got[i]);
      }
      assert h.got == bytes;
    }
  }

  /** Damage is read neither as a frame nor as an EOT. */
  lemma UnderstandNoise(bn: byte, bytes: seq<byte>)
    requires Visible(bytes)
    ensures Understand(bn, bytes).ret != RECV_FINISHED && Understand(bn, bytes).ret != RECV_OK
  {
    if bytes[0] == SOH {
      UnderstandBlock(bn, bytes);
      if |bytes| == FRAME {
        var f := Frame(Successor(bn), bytes[3..131]);
        assert Padded(bytes[3..131]) == bytes[3..131];
        assert f[1] as int + f[2] as int == 255 && f[131] == Sum(bytes[3..131]);
      }
    } else {
      assert Io(Arrivals(bytes), 0, [], [], []).Next() == Byte(bytes[0]);
    }
  }

  lemma UnderstandControl(bn: byte, code: byte)
    requires code == EOT || code == CAN
    ensures Understand(bn, [code]).ret == if code == EOT then RECV_FINISHED else RECV_CANCELED
  {
    assert Io(Arrivals([code]), 0, [], [], []).Next() == Byte(code);
  }

  /** A frame carries the number and payload it was built with. */
  lemma FrameContents(bytes: seq<byte>, bn: byte, p: seq<byte>, bm: byte)
    requires |p| <= BLOCK && |bytes| == FRAME
    requires bytes == Frame(bn, p) == Frame(bm, bytes[3..131])
    ensures bn == bm && bytes[3..131] == Padded(p)
  {
    assert bytes[1] == bm && bytes[1] == bn;
  }

  /** A block not older than the latest taken has the slot of that one or the next. */
  lemma SlotNearby(chunks: seq<seq<byte>>, fate: seq<bool>, r: Receiver, c: nat)
    requires TakenOk(chunks, fate, r) && Latest(r.src) <= c <= |fate| && Acked(fate) <= |r.got|
    ensures |r.got| <= Slot(fate, c) <= |r.got| + 1
    ensures r.src != [] && Latest(r.src) == c ==> Slot(fate, c) == |r.got|
  {
    SlotMonotone(fate, c, |fate|);
    if r.src != [] {
      SlotMonotone(fate, Latest(r.src), c);
    }
  }

  /** Numbers that differ by at most one are told apart modulo 256. */
  lemma CloseNumbers(r: nat, slot: nat, bn: byte)
    requires r <= slot <= r + 1 && bn == r % 256 && slot % 256 == Successor(bn)
    ensures slot == r + 1
  {
  }

  /** A block whose number comes next is the one after the last taken, however numbers wrap. */
  lemma NumberIsNext(chunks: seq<seq<byte>>, fate: seq<bool>, r: Receiver, c: nat)
    requires TakenOk(chunks, fate, r) && Latest(r.src) <= c <= |fate| && Acked(fate) <= |r.got|
    requires Slot(fate, c) % 256 == Successor(r.bn)
    ensures Slot(fate, c) == |r.got| + 1
    ensures r.src != [] ==> Latest(r.src) < c
  {
    SlotNearby(chunks, fate, r, c);
    CloseNumbers(|r.got|, Slot(fate, c), r.bn);
  }

  lemma TakenIsNext(chunks: seq<seq<byte>>, fate: seq<bool>, r: Receiver, bytes: seq<byte>, c: nat)
    requires TakenOk(chunks, fate, r) && Sensible(chunks, fate, Block(bytes, c)) && Latest(r.src) <= c
    requires Acked(fate) <= |r.got|
    requires |bytes| == FRAME && bytes == Frame(Successor(r.bn), bytes[3..131])
    ensures Slot(fate, c) == |r.got| + 1
    ensures bytes[3..131] == Padded(chunks[c])
    ensures r.src != [] ==> Latest(r.src) < c
  {
    var number: byte := Slot(fate, c) % 256;
    FrameContents(bytes, number, chunks[c], Successor(r.bn));
    assert number == Successor(r.bn);
    NumberIsNext(chunks, fate, r, c);
  }

  /** What the line's next item can mean to the receiver. */
  ghost predicate Meaning(st: State, item: Item, h: Received) {
    && (h.ret == RECV_FINISHED ==> item == Control(EOT))
    && (h.ret == RECV_OK ==>
          && item.Block? && h.got == item.bytes && |item.bytes| == FRAME && h.bn == Successor(st.r.bn)
          && item.bytes == Frame(Successor(st.r.bn), item.bytes[3..131]))
  }

  /** The line behind an item that is taken. */
  lemma LineBehind(chunks: seq<seq<byte>>, fate: seq<bool>, latest: nat, item: Item, down: seq<Item>)
    requires item.Block? && LineOk(chunks, fate, latest, [item] + down)
    ensures Sensible(chunks, fate, item) && latest <= item.chunk
    ensures LineOk(chunks, fate, item.chunk, down)
  {
    var all := [item] + down;
    assert Sensible(chunks, fate, all[0]);
    forall i | 0 <= i < |down|
      ensures Sensible(chunks, fate, down[i])
      ensures down[i].Block? ==> item.chunk <= down[i].chunk
    {
      assert all[i + 1] == down[i];
    }
    forall i, j | 0 <= i < j < |down| && down[i].Block? && down[j].Block?
      ensures down[i].chunk <= down[j].chunk
    {
      assert all[i + 1] == down[i] && all[j + 1] == down[j];
    }
  }

  lemma AppendTaken(chunks: seq<seq<byte>>, fate: seq<bool>, r: Receiver, c: nat, payload: seq<byte>)
    requires TakenOk(chunks, fate, r) && c < |chunks| && c <= |fate| && |chunks[c]| <= BLOCK
    requires Slot(fate, c) == |r.got| + 1 && payload == Padded(chunks[c])
    requires r.src != [] ==> Latest(r.src) < c
    ensures TakenOk(chunks, fate, Receiver(Rest, Successor(r.bn), 0, r.got + [payload], r.src + [c]))
  {
    Succeeds(|r.got|);
  }

  lemma TakeKeeps(chunks: seq<seq<byte>>, st: State, item: Item, h: Received)
    requires Inv(chunks, st.(down := [item] + st.down)) && Awake(st.r)
    requires Meaning(st, item, h) && h.ret == RECV_OK
    ensures item.Block? && Inv(chunks, React(st, h, item.chunk))
  {
    var fate, r := st.s.fate, st.r;
    LineBehind(chunks, fate, Latest(r.src), item, st.down);
    TakenIsNext(chunks, fate, r, item.bytes, item.chunk);
    AppendTaken(chunks, fate, r, item.chunk, h.got[3..131]);
    assert Control(EOT) in st.down ==> Control(EOT) in [item] + st.down;
    assert React(st, h, item.chunk).r ==
           Receiver(Rest, Successor(r.bn), 0, r.got + [h.got[3..131]], r.src + [item.chunk]);
  }

  lemma Succeeds(n: nat)
    ensures (n + 1) % 256 == (n % 256 + 1) % 256
  {
  }

  /** Dropping the first item of a line that is in order. */
  lemma DropFirst(chunks: seq<seq<byte>>, st: State, item: Item)
    requires Inv(chunks, st.(down := [item] + st.down))
    ensures Inv(chunks, st)
    ensures item == Control(EOT) ==> |st.s.fate| == |chunks| && !Underway(st.s)
  {
    var all := [item] + st.down;
    assert all[0] == item;
    assert forall i :: 0 <= i < |st.down| ==> st.down[i] == all[i + 1];
  }

  /** The receiver may say anything but ACK, and change its phase and counter, at any time. */
  lemma ReplyKeeps(chunks: seq<seq<byte>>, st: State, phase: ReceiverPhase, cnt: nat, said: seq<byte>)
    requires Inv(chunks, st)
    requires ACK in said || phase == Finished ==> |st.s.fate| == |chunks| && !Underway(st.s)
    ensures Inv(chunks, st.(r := st.r.(phase := phase, cnt := cnt), up := st.up + said))
  {
    assert ACK !in said ==> multiset(said)[ACK] == 0;
    assert multiset(st.up + said) == multiset(st.up) + multiset(said);
  }

  lemma QuietKeeps(chunks: seq<seq<byte>>, st: State, h: Received)
    requires Inv(chunks, st) && Awake(st.r) && h.ret != RECV_OK
    requires h.ret == RECV_FINISHED ==> |st.s.fate| == |chunks| && !Underway(st.s)
    ensures forall chunk :: Inv(chunks, React(st, h, chunk))
  {
    var st1 := React(st, h, 0);
    var said := st1.up[|st.up|..];
    assert st1.up == st.up + said;
    assert st1 == st.(r := st.r.(phase := st1.r.phase, cnt := st1.r.cnt), up := st.up + said);
    ReplyKeeps(chunks, st, st1.r.phase, st1.r.cnt, said);
    assert forall chunk :: React(st, h, chunk) == st1;
  }

  lemma ReactKeeps(chunks: seq<seq<byte>>, st: State, item: Item, h: Received)
    requires Inv(chunks, st.(down := [item] + st.down)) && Awake(st.r) && Meaning(st, item, h)
    ensures Inv(chunks, React(st, h, if item.Block? then item.chunk else 0))
  {
    if h.ret == RECV_OK {
      TakeKeeps(chunks, st, item, h);
    } else {
      DropFirst(chunks, st, item);
      QuietKeeps(chunks, st, h);
    }
  }

  lemma MeaningOf(chunks: seq<seq<byte>>, st: State, item: Item)
    requires Sensible(chunks, st.s.fate, item)
    ensures Meaning(st, item, Understand(st.r.bn, BytesOf(item)))
  {
    match item
    case Control(code) => UnderstandControl(st.r.bn, code);
    case Block(bytes, c) => UnderstandBlock(st.r.bn, bytes);
    case Noise(bytes) => UnderstandNoise(st.r.bn, bytes);
  }

  lemma SilenceRetries(bn: byte)
    ensures Understand(bn, []).ret == RECV_RETRY
  {
    assert Io(Arrivals([]), 0, [], [], []).Next() == Silence;
  }

  /** A receive that timed out at once asks for the block again or gives up. */
  lemma SilenceKeeps(chunks: seq<seq<byte>>, st: State)
    requires Inv(chunks, st) && Awake(st.r)
    ensures Inv(chunks, React(st, Understand(st.r.bn, []), 0))
  {
    SilenceRetries(st.r.bn);
    QuietKeeps(chunks, st, Understand(st.r.bn, []));
  }

  /** Every item of `down` is visible damage or an item of `line`, and the latter keep their order. */
  predicate Drawn(down: seq<Item>, line: seq<Item>, from: seq<int>) {
    && |from| == |down|
    && (forall k :: 0 <= k < |down| ==>
          if from[k] < 0 then down[k].Noise? && Visible(down[k].bytes)
          else from[k] < |line| && down[k] == line[from[k]])
    && (forall k, l :: 0 <= k < l < |down| && 0 <= from[k] && 0 <= from[l] ==> from[k] < from[l])
  }

  lemma DrawnKeeps(chunks: seq<seq<byte>>, fate: seq<bool>, latest: nat, down: seq<Item>, line: seq<Item>,
                   from: seq<int>)
    requires Drawn(down, line, from) && LineOk(chunks, fate, latest, line)
    ensures LineOk(chunks, fate, latest, down)
    ensures Control(EOT) in down ==> Control(EOT) in line
  {
    forall k | 0 <= k < |down| ensures Sensible(chunks, fate, down[k]) {
      assert 0 <= from[k] ==> Sensible(chunks, fate, line[from[k]]);
    }
    forall k, l | 0 <= k < l < |down| && down[k].Block? && down[l].Block?
      ensures down[k].chunk <= down[l].chunk
    {
      assert down[k] == line[from[k]] && down[l] == line[from[l]];
    }
  }

  lemma ReplacedDrawn(line: seq<Item>, i: nat, n: nat, pieces: seq<seq<byte>>) returns (from: seq<int>)
    requires i + n <= |line| && forall k :: 0 <= k < |pieces| ==> Visible(pieces[k])
    ensures Drawn(Replaced(line, i, n, pieces), line, from)
  {
    var down, m := Replaced(line, i, n, pieces), |pieces|;
    from := seq(|down|, k requires 0 <= k < |down| => if k < i then k else if k < i + m then -1 else k - m + n);
    forall k | 0 <= k < |down|
      ensures if from[k] < 0 then down[k].Noise? && Visible(down[k].bytes)
              else from[k] < |line| && down[k] == line[from[k]]
    {
      if i <= k < i + m {
        assert down[k] == Noise(pieces[k - i]);
      }
    }
  }

  /** Noise may take the place of any stretch of the line, or come in between. */
  lemma ReplacedKeeps(chunks: seq<seq<byte>>, st: State, i: nat, n: nat, pieces: seq<seq<byte>>)
    requires Inv(chunks, st) && i + n <= |st.down| && forall k :: 0 <= k < |pieces| ==> Visible(pieces[k])
    ensures Inv(chunks, st.(down := Replaced(st.down, i, n, pieces)))
  {
    var from := ReplacedDrawn(st.down, i, n, pieces);
    DrawnKeeps(chunks, st.s.fate, Latest(st.r.src), Replaced(st.down, i, n, pieces), st.down, from);
  }

  lemma UpKeeps(chunks: seq<seq<byte>>, st: State, up: seq<byte>)
    requires Inv(chunks, st) && multiset(up)[ACK] <= multiset(st.up)[ACK]
    ensures Inv(chunks, st.(up := up))
  {
  }

  lemma DamageUpKeeps(chunks: seq<seq<byte>>, st: State, i: nat, n: nat, bytes: seq<byte>)
    requires Inv(chunks, st) && i + n <= |st.up| && ACK !in bytes
    ensures Inv(chunks, st.(up := Respoken(st.up, i, n, bytes)))
  {
    var a, b, c := st.up[..i], st.up[i..i + n], st.up[i + n..];
    assert st.up == a + b + c;
    assert multiset(bytes)[ACK] == 0;
    assert multiset(a + bytes + c) == multiset(a) + multiset(bytes) + multiset(c);
    UpKeeps(chunks, st, a + bytes + c);
  }

  lemma HearsKeeps(chunks: seq<seq<byte>>, st: State)
    requires Fits(chunks) && Inv(chunks, st) && Enabled(st, ReceiverHears)
    ensures Inv(chunks, Apply(chunks, st, ReceiverHears))
  {
    var item, rest := st.down[0], st.(down := st.down[1..]);
    assert [item] + rest.down == st.down;
    assert rest.(down := [item] + rest.down) == st;
    MeaningOf(chunks, rest, item);
    ReactKeeps(chunks, rest, item, Understand(st.r.bn, BytesOf(item)));
  }

  lemma LineKeeps(chunks: seq<seq<byte>>, st: State, step: Step)
    requires Fits(chunks) && Inv(chunks, st) && Enabled(st, step)
    requires step.LoseDown? || step.DamageDown? || step.LoseUp? || step.DamageUp?
    ensures Inv(chunks, Apply(chunks, st, step))
  {
    match step
    case LoseDown(i) => ReplacedKeeps(chunks, st, i, 1, []);
    case DamageDown(i, n, pieces) => ReplacedKeeps(chunks, st, i, n, pieces);
    case LoseUp(i) => DamageUpKeeps(chunks, st, i, 1, []);
    case DamageUp(i, n, bytes) => DamageUpKeeps(chunks, st, i, n, bytes);
  }

  /** Every step keeps the invariant. */
  lemma StepKeeps(chunks: seq<seq<byte>>, st: State, step: Step)
    requires Fits(chunks)
    requires Inv(chunks, st) && Enabled(st, step)
    ensures Inv(chunks, Apply(chunks, st, step))
  {
    match step
    case SenderSends => SendKeeps(chunks, st);
    case SenderReads =>
      assert st.up == [st.up[0]] + st.up[1..];
      HearKeeps(chunks, st.(up := st.up[1..]), Byte(st.up[0]));
    case SenderTimesOut => HearKeeps(chunks, st, Silence);
    case SenderFaults(code) => HearKeeps(chunks, st, Fault(code));
    case SenderCancels => AbortKeeps(chunks, st);
    case ReceiverHears => HearsKeeps(chunks, st);
    case ReceiverTimesOut => SilenceKeeps(chunks, st);
    case ReceiverStops(cancel) =>
      ReplyKeeps(chunks, st, Stopped, st.r.cnt, if cancel then [CAN, CAN] else []);
    case _ => LineKeeps(chunks, st, step);
  }

  /** Every reachable state is sound. */
  lemma {:induction false} RunSound(chunks: seq<seq<byte>>, steps: seq<Step>)
    requires Fits(chunks)
    requires Run(chunks, steps).Some?
    ensures Inv(chunks, Run(chunks, steps).value)
  {
    if steps != [] {
      var init := steps[..|steps| - 1];
      RunSound(chunks, init);
      StepKeeps(chunks, Run(chunks, init).value, steps[|steps| - 1]);
    }
  }

  // ---- What every reachable state promises ----------------------------------------------

  predicate AllAcked(fate: seq<bool>) {
    forall i :: 0 <= i < |fate| ==> fate[i]
  }

  lemma {:induction false} AllAckedCount(fate: seq<bool>)
    ensures Acked(fate) <= |fate|
    ensures Acked(fate) == |fate| <==> AllAcked(fate)
  {
    if fate != [] {
      AllAckedCount(fate[..|fate| - 1]);
    }
  }

  /**
   * Whatever is lost, damaged or given up: the receiver is at most one block ahead of the
   * acknowledgements, and a frame in flight is the last one taken or the next, so its
   * number modulo 256 is never ambiguous.
   */
  lemma NumbersNeverAlias(chunks: seq<seq<byte>>, steps: seq<Step>)
    requires Fits(chunks) && Run(chunks, steps).Some?
    ensures var st := Run(chunks, steps).value;
            var acked, taken := Acked(st.s.fate), |st.r.got|;
            && acked <= taken <= acked + 1
            && forall i :: 0 <= i < |st.down| && st.down[i].Block? ==>
                 && st.down[i].chunk < |chunks| && st.down[i].chunk <= |st.s.fate|
                 && taken <= Slot(st.s.fate, st.down[i].chunk) <= taken + 1
                 && st.down[i].bytes == Frame(Slot(st.s.fate, st.down[i].chunk) % 256, chunks[st.down[i].chunk])
  {
    RunSound(chunks, steps);
    var st := Run(chunks, steps).value;
    TakenAtMostOneAhead(chunks, st);
    forall i | 0 <= i < |st.down| && st.down[i].Block?
      ensures st.down[i].chunk <= |st.s.fate|
      ensures |st.r.got| <= Slot(st.s.fate, st.down[i].chunk) <= |st.r.got| + 1
    {
      assert Sensible(chunks, st.s.fate, st.down[i]);
      SlotNearby(chunks, st.s.fate, st.r, st.down[i].chunk);
    }
    assert forall i :: 0 <= i < |st.down| ==> Sensible(chunks, st.s.fate, st.down[i]);
  }

  lemma TakenAtMostOneAhead(chunks: seq<seq<byte>>, st: State)
    requires Inv(chunks, st)
    ensures Acked(st.s.fate) <= |st.r.got| <= Acked(st.s.fate) + 1
  {
    if st.r.src != [] {
      SlotMonotone(st.s.fate, Latest(st.r.src), |st.s.fate|);
    }
  }

  /** Unconditionally, what the receiver takes is an in-order subsequence of the file's blocks. */
  lemma TakenInOrder(chunks: seq<seq<byte>>, steps: seq<Step>)
    requires Fits(chunks) && Run(chunks, steps).Some?
    ensures var r := Run(chunks, steps).value.r;
            && |r.src| == |r.got| && Download.Increasing(r.src, |chunks|)
            && forall i :: 0 <= i < |r.got| ==> r.got[i] == Padded(chunks[r.src[i]])
  {
    RunSound(chunks, steps);
  }

  /** As long as no block has used up its tries, the receiver holds a prefix of the file. */
  lemma PrefixWithoutLoss(chunks: seq<seq<byte>>, steps: seq<Step>)
    requires Fits(chunks) && Run(chunks, steps).Some?
    requires AllAcked(Run(chunks, steps).value.s.fate)
    ensures var st := Run(chunks, steps).value;
            && |st.s.fate| <= |st.r.got| <= |st.s.fate| + 1
            && st.r.got <= Download.PaddedAll(chunks)
            && (st.r.phase == Finished ==> st.r.got == Download.PaddedAll(chunks))
            && forall i :: 0 <= i < |st.down| && st.down[i].Block? ==>
                 |st.r.got| - 1 <= st.down[i].chunk <= |st.r.got|
  {
    RunSound(chunks, steps);
    var st := Run(chunks, steps).value;
    var fate := st.s.fate;
    AllAckedCount(fate);
    TakenAtMostOneAhead(chunks, st);
    forall i | 0 <= i < |st.r.src| ensures st.r.src[i] == i {
      AllAckedCount(fate[..st.r.src[i]]);
    }
    forall i | 0 <= i < |st.down| && st.down[i].Block?
      ensures |st.r.got| - 1 <= st.down[i].chunk <= |st.r.got|
    {
      assert Sensible(chunks, fate, st.down[i]);
      SlotNearby(chunks, fate, st.r, st.down[i].chunk);
      AllAckedCount(fate[..st.down[i].chunk]);
    }
  }

  lemma TakenBounded(chunks: seq<seq<byte>>, st: State)
    requires Inv(chunks, st)
    ensures |st.r.got| <= |chunks|
    ensures |st.r.got| == |chunks| ==> forall i :: 0 <= i < |chunks| ==> st.r.src[i] == i
  {
    var src := st.r.src;
    if src != [] {
      Download.IncreasingBelow(src, |chunks|, 0);
    }
    if |src| == |chunks| {
      forall i | 0 <= i < |chunks| ensures src[i] == i {
        Download.IncreasingIsIdentity(src, i);
      }
    }
  }

  /** In the course of the run the receiver has heard the frame of block `c`. */
  ghost predicate HeardBlock(chunks: seq<seq<byte>>, steps: seq<Step>, c: nat)
    requires Fits(chunks)
  {
    exists j :: 0 <= j < |steps| && Hears(chunks, steps, j, c)
  }

  /** Step `j` is the hearing of block `c`. */
  predicate Hears(chunks: seq<seq<byte>>, steps: seq<Step>, j: nat, c: nat)
    requires Fits(chunks) && j < |steps|
  {
    steps[j] == ReceiverHears &&
    match Run(chunks, steps[..j])
    case None => false
    case Some(st) => st.down != [] && st.down[0].Block? && st.down[0].chunk == c
  }

  /** Sender and receiver only ever append to what they have left behind and taken. */
  predicate Grows(a: State, b: State) {
    a.s.fate <= b.s.fate && a.r.src <= b.r.src
  }

  lemma StepGrows(chunks: seq<seq<byte>>, st: State, step: Step)
    requires Fits(chunks) && Enabled(st, step)
    ensures Grows(st, Apply(chunks, st, step))
  {
  }

  lemma {:induction false} RunGrows(chunks: seq<seq<byte>>, steps: seq<Step>, j: nat)
    requires Fits(chunks) && j <= |steps| && Run(chunks, steps).Some?
    ensures Run(chunks, steps[..j]).Some? && Grows(Run(chunks, steps[..j]).value, Run(chunks, steps).value)
    decreases |steps|
  {
    if j == |steps| {
      assert steps[..j] == steps;
    } else {
      var init := steps[..|steps| - 1];
      RunGrows(chunks, init, j);
      assert init[..j] == steps[..j];
      StepGrows(chunks, Run(chunks, init).value, steps[|steps| - 1]);
    }
  }

  /** What was taken was heard. */
  lemma {:induction false} TakenWasHeard(chunks: seq<seq<byte>>, steps: seq<Step>, c: nat)
    requires Fits(chunks) && Run(chunks, steps).Some? && c in Run(chunks, steps).value.r.src
    ensures HeardBlock(chunks, steps, c)
    decreases |steps|
  {
    var n := |steps| - 1;
    var init := steps[..n];
    var st := Run(chunks, init).value;
    if c in st.r.src {
      TakenWasHeard(chunks, init, c);
      var j :| 0 <= j < |init| && Hears(chunks, init, j, c);
      assert init[..j] == steps[..j] && Hears(chunks, steps, j, c);
    } else {
      RunSound(chunks, init);
      TakesWhatItHears(chunks, st, steps[n], c);
      assert Hears(chunks, steps, n, c);
    }
  }

  lemma TakesWhatItHears(chunks: seq<seq<byte>>, st: State, step: Step, c: nat)
    requires Fits(chunks) && Inv(chunks, st) && Enabled(st, step)
    requires c !in st.r.src && c in Apply(chunks, st, step).r.src
    ensures step == ReceiverHears && st.down[0].Block? && st.down[0].chunk == c
  {
    if step == ReceiverHears {
      assert Sensible(chunks, st.s.fate, st.down[0]);
      MeaningOf(chunks, st, st.down[0]);
      var item := st.down[0];
      ReactTakes(st.(down := st.down[1..]), Understand(st.r.bn, BytesOf(item)), if item.Block? then item.chunk else 0);
    } else {
      OthersTakeNothing(chunks, st, step);
    }
  }

  /** A reaction takes a block exactly when it was received well. */
  lemma ReactTakes(st: State, h: Received, chunk: nat)
    requires Awake(st.r)
    ensures React(st, h, chunk).r.src == if h.ret == RECV_OK then st.r.src + [chunk] else st.r.src
  {
  }

  lemma OthersTakeNothing(chunks: seq<seq<byte>>, st: State, step: Step)
    requires Fits(chunks) && Enabled(st, step) && step != ReceiverHears
    ensures Apply(chunks, st, step).r.src == st.r.src
  {
    if step == ReceiverTimesOut {
      SilenceRetries(st.r.bn);
      ReactTakes(st, Understand(st.r.bn, []), 0);
    }
  }

  /** When all blocks before it were acknowledged, the receiver that hears a frame of block `c` has it from then on. */
  lemma HeardIsTaken(chunks: seq<seq<byte>>, st: State)
    requires Fits(chunks) && Inv(chunks, st) && Enabled(st, ReceiverHears) && st.down[0].Block?
    requires var c := st.down[0].chunk; c <= |st.s.fate| && AllAcked(st.s.fate[..c])
    ensures |Apply(chunks, st, ReceiverHears).r.src| >= st.down[0].chunk + 1
  {
    var c, fate, r := st.down[0].chunk, st.s.fate, st.r;
    assert Sensible(chunks, fate, st.down[0]);
    AllAckedCount(fate[..c]);
    TakenAtMostOneAhead(chunks, st);
    SlotNearby(chunks, fate, r, c);
    var item := st.down[0];
    ReactTakes(st.(down := st.down[1..]), Understand(r.bn, BytesOf(item)), c);
    if |r.got| == c {
      NextUnderstood(r.bn, item.bytes, chunks[c], |r.got|);
    }
  }

  lemma NextUnderstood(bn: byte, bytes: seq<byte>, p: seq<byte>, n: nat)
    requires |p| <= BLOCK && bn == n % 256 && bytes == Frame((n + 1) % 256, p)
    ensures Understand(bn, bytes).ret == RECV_OK
  {
    Succeeds(n);
    assert Heard(Arrivals(bytes), 0, Frame(Successor(bn), p));
    FrameRoundTrip(Io(Arrivals(bytes), 0, [], [], []), bn, p);
  }

  /**
   * Exactly when a finished receiver holds the whole file: every block before the last was
   * acknowledged, and the frame of the last one was heard, acknowledged or not.
   */
  lemma WholeFileIff(chunks: seq<seq<byte>>, steps: seq<Step>)
    requires Fits(chunks) && chunks != [] && Run(chunks, steps).Some?
    requires Run(chunks, steps).value.r.phase == Finished
    ensures var st, n := Run(chunks, steps).value, |chunks|;
            && |st.s.fate| == n
            && (st.r.got == Download.PaddedAll(chunks) <==>
                AllAcked(st.s.fate[..n - 1]) && HeardBlock(chunks, steps, n - 1))
  {
    RunSound(chunks, steps);
    var st, n := Run(chunks, steps).value, |chunks|;
    TakenBounded(chunks, st);
    TakenAtMostOneAhead(chunks, st);
    AllAckedCount(st.s.fate[..n - 1]);
    if |st.r.got| == n {
      WholeIsAcked(chunks, st);
      assert st.r.src[n - 1] == n - 1;
      TakenWasHeard(chunks, steps, n - 1);
    }
    if AllAcked(st.s.fate[..n - 1]) && HeardBlock(chunks, steps, n - 1) {
      var j :| 0 <= j < |steps| && Hears(chunks, steps, j, n - 1);
      HeardAt(chunks, steps, j);
    }
  }

  /** All blocks taken means all before the last acknowledged, and the payloads in place. */
  lemma WholeIsAcked(chunks: seq<seq<byte>>, st: State)
    requires Fits(chunks) && Inv(chunks, st) && |st.r.got| == |chunks| == |st.s.fate| && chunks != []
    requires forall i :: 0 <= i < |chunks| ==> st.r.src[i] == i
    ensures AllAcked(st.s.fate[..|chunks| - 1]) && st.r.got == Download.PaddedAll(chunks)
  {
    var n := |chunks|;
    assert Slot(st.s.fate, st.r.src[n - 1]) == n;
    AllAckedCount(st.s.fate[..n - 1]);
    forall i | 0 <= i < n ensures st.r.got[i] == Download.PaddedAll(chunks)[i] {
      assert st.r.src[i] == i;
    }
  }

  lemma HeardAt(chunks: seq<seq<byte>>, steps: seq<Step>, j: nat)
    requires Fits(chunks) && chunks != [] && Run(chunks, steps).Some? && j < |steps|
    requires Hears(chunks, steps, j, |chunks| - 1)
    requires var fate := Run(chunks, steps).value.s.fate;
             |fate| == |chunks| && AllAcked(fate[..|chunks| - 1])
    ensures Run(chunks, steps).value.r.got == Download.PaddedAll(chunks)
  {
    RunSound(chunks, steps);
    RunSound(chunks, steps[..j]);
    RunGrows(chunks, steps, j + 1);
    RunAt(chunks, steps, j);
    HeardByThen(chunks, Run(chunks, steps[..j]).value, Run(chunks, steps).value);
  }

  /** One step of a run. */
  lemma RunAt(chunks: seq<seq<byte>>, steps: seq<Step>, j: nat)
    requires Fits(chunks) && Run(chunks, steps).Some? && j < |steps|
    ensures Run(chunks, steps[..j]).Some? && Enabled(Run(chunks, steps[..j]).value, steps[j])
    ensures Run(chunks, steps[..j + 1]) == Some(Apply(chunks, Run(chunks, steps[..j]).value, steps[j]))
    ensures Grows(Run(chunks, steps[..j]).value, Run(chunks, steps).value)
  {
    RunGrows(chunks, steps, j);
    RunGrows(chunks, steps, j + 1);
    assert steps[..j + 1][..j] == steps[..j];
  }

  lemma HeardByThen(chunks: seq<seq<byte>>, st: State, end: State)
    requires Fits(chunks) && chunks != [] && Inv(chunks, st) && Inv(chunks, end)
    requires Enabled(st, ReceiverHears) && st.down[0].Block? && st.down[0].chunk == |chunks| - 1
    requires Grows(st, end) && Grows(Apply(chunks, st, ReceiverHears), end)
    requires |end.s.fate| == |chunks| && AllAcked(end.s.fate[..|chunks| - 1])
    ensures end.r.got == Download.PaddedAll(chunks)
  {
    var n := |chunks|;
    assert Sensible(chunks, st.s.fate, st.down[0]);
    assert st.s.fate[..n - 1] == end.s.fate[..n - 1];
    HeardIsTaken(chunks, st);
    TakenBounded(chunks, end);
    WholeIsAcked(chunks, end);
  }

  // ---- The declared size ---------------------------------------------------------------------

  /** The test behind the last block: what was taken makes up the declared size. If not, the socket is closed. */
  predicate Enough(size: nat, r: Receiver) {
    size <= BLOCK * |r.got|
  }

  /** A file of these blocks can be `size` bytes long. */
  predicate LengthOf(size: nat, chunks: seq<seq<byte>>) {
    chunks != [] && BLOCK * (|chunks| - 1) < size <= BLOCK * |chunks|
  }

  /**
   * Whatever is lost, damaged or given up, and whoever ends the session: with the file's own size
   * declared, the test is passed exactly when every block has arrived, each in its place.
   */
  lemma EnoughIffWhole(chunks: seq<seq<byte>>, steps: seq<Step>, size: nat)
    requires Fits(chunks) && Run(chunks, steps).Some? && LengthOf(size, chunks)
    ensures var r := Run(chunks, steps).value.r;
            Enough(size, r) <==> r.got == Download.PaddedAll(chunks)
  {
    RunSound(chunks, steps);
    EnoughInState(chunks, Run(chunks, steps).value, size);
  }

  lemma EnoughInState(chunks: seq<seq<byte>>, st: State, size: nat)
    requires Fits(chunks) && Inv(chunks, st) && LengthOf(size, chunks)
    ensures Enough(size, st.r) <==> st.r.got == Download.PaddedAll(chunks)
  {
    var n := |chunks|;
    TakenBounded(chunks, st);
    if |st.r.got| == n {
      forall i | 0 <= i < n ensures st.r.got[i] == Download.PaddedAll(chunks)[i] {
        assert st.r.src[i] == i;
      }
      assert st.r.got == Download.PaddedAll(chunks);
    }
  }

  lemma {:induction false} ChunksCount(file: seq<byte>)
    requires file != []
    ensures LengthOf(|file|, Download.Chunks(file))
  {
    if |file| > BLOCK {
      ChunksCount(file[BLOCK..]);
    }
  }

  lemma {:induction false} BlocksLength(ps: seq<seq<byte>>)
    requires forall i :: 0 <= i < |ps| ==> |ps[i]| == BLOCK
    ensures |Flatten(ps)| == BLOCK * |ps|
  {
    if ps != [] {
      BlocksLength(ps[1..]);
    }
  }

  /** For a file cut into blocks: the test is passed exactly when what has arrived begins with the file. */
  lemma EnoughIffFile(file: seq<byte>, steps: seq<Step>)
    requires file != [] && Run(Download.Chunks(file), steps).Some?
    ensures var r := Run(Download.Chunks(file), steps).value.r;
            Enough(|file|, r) <==> file <= Flatten(r.got)
  {
    var chunks := Download.Chunks(file);
    var r := Run(chunks, steps).value.r;
    ChunksCount(file);
    EnoughIffWhole(chunks, steps, |file|);
    Download.ChunksJoin(file);
    Download.PaddedJoin(chunks);
    TakenInOrder(chunks, steps);
    BlocksLength(r.got);
  }

  /**
   * An EOT at the start of a message, wherever it comes from, ends the receiver's session with whatever
   * has been taken so far, and says ACK to a sender that will count it for a block. Only the declared
   * size tells this from the end of the file.
   */
  lemma StrayEot(chunks: seq<seq<byte>>, st: State, size: nat)
    requires Fits(chunks) && Inv(chunks, st) && st.r.phase == Rest && LengthOf(size, chunks)
    ensures var end := React(st, Understand(st.r.bn, [EOT]), 0);
            && end == st.(r := st.r.(phase := Finished), up := st.up + [ACK])
            && (Enough(size, end.r) <==> end.r.got == Download.PaddedAll(chunks))
  {
    UnderstandControl(st.r.bn, EOT);
    EnoughInState(chunks, st, size);
  }

  // ---- Two runs ------------------------------------------------------------------------------

  lemma RunStep(chunks: seq<seq<byte>>, steps: seq<Step>, step: Step)
    requires Fits(chunks) && Run(chunks, steps).Some? && Enabled(Run(chunks, steps).value, step)
    ensures Run(chunks, steps + [step]) == Some(Apply(chunks, Run(chunks, steps).value, step))
  {
    assert (steps + [step])[..|steps|] == steps;
  }

  /** Three steps that can be taken in turn from `st` and end in `end`. */
  predicate Leads(chunks: seq<seq<byte>>, st: State, a: Step, b: Step, c: Step, end: State)
    requires Fits(chunks)
  {
    Enabled(st, a) &&
    var st1 := Apply(chunks, st, a);
    Enabled(st1, b) &&
    var st2 := Apply(chunks, st1, b);
    Enabled(st2, c) && Apply(chunks, st2, c) == end
  }

  lemma RunThree(chunks: seq<seq<byte>>, steps: seq<Step>, st: State, a: Step, b: Step, c: Step, end: State)
    requires Fits(chunks) && Run(chunks, steps) == Some(st) && Leads(chunks, st, a, b, c, end)
    ensures Run(chunks, steps + [a, b, c]) == Some(end)
  {
    RunStep(chunks, steps, a);
    RunStep(chunks, steps + [a], b);
    RunStep(chunks, steps + [a] + [b], c);
    assert steps + [a] + [b] + [c] == steps + [a, b, c];
  }

  /** Nothing on the line and the sender about to send. */
  predicate Quiet(st: State) {
    st.s.phase == Ready && st.s.tries < Download.TRIES && st.down == [] && st.up == []
  }

  /** One block sent, heard and acknowledged. */
  function Delivered(chunks: seq<seq<byte>>, st: State): State
    requires Fits(chunks) && |st.s.fate| < |chunks|
  {
    var k := |st.s.fate|;
    State(Sender(Ready, st.s.fate + [true], 0, Successor(st.s.bn)),
          Receiver(Rest, st.s.bn, 0, st.r.got + [Padded(chunks[k])], st.r.src + [k]), [], [])
  }

  lemma Delivery(chunks: seq<seq<byte>>, st: State)
    requires Fits(chunks) && Quiet(st) && Awake(st.r)
    requires |st.s.fate| < |chunks| && st.s.bn == Successor(st.r.bn)
    ensures Leads(chunks, st, SenderSends, ReceiverHears, SenderReads, Delivered(chunks, st))
  {
    var k := |st.s.fate|;
    var frame := Frame(st.s.bn, chunks[k]);
    var st1 := Apply(chunks, st, SenderSends);
    assert st1 == st.(s := st.s.(phase := Waiting), down := [Block(frame, k)]);
    HearBlock(chunks, st1, frame, k);
    var st2 := Apply(chunks, st1, ReceiverHears);
    ReadAck(chunks, st2);
  }

  lemma HearBlock(chunks: seq<seq<byte>>, st: State, frame: seq<byte>, k: nat)
    requires Fits(chunks) && Awake(st.r) && k < |chunks| && st.down == [Block(frame, k)] && st.up == []
    requires frame == Frame(Successor(st.r.bn), chunks[k])
    ensures var r := Receiver(Rest, Successor(st.r.bn), 0, st.r.got + [Padded(chunks[k])], st.r.src + [k]);
            Apply(chunks, st, ReceiverHears) == st.(r := r, down := [], up := [ACK])
  {
    assert BytesOf(st.down[0]) == frame && st.down[1..] == [];
    UnderstandFrame(st.r.bn, frame, chunks[k]);
    ReactOk(st.(down := []), Understand(st.r.bn, frame), k);
  }

  lemma UnderstandFrame(bn: byte, frame: seq<byte>, p: seq<byte>)
    requires |p| <= BLOCK && frame == Frame(Successor(bn), p)
    ensures var h := Understand(bn, frame);
            h.ret == RECV_OK && h.bn == Successor(bn) && |h.got| == FRAME && h.got[3..131] == Padded(p)
  {
    UnderstandBlock(bn, frame);
    FrameRoundTrip(Io(Arrivals(frame), 0, [], [], []), bn, p);
  }

  lemma ReactOk(st: State, h: Received, chunk: nat)
    requires Awake(st.r) && st.up == [] && h.ret == RECV_OK && |h.got| == FRAME
    ensures React(st, h, chunk) ==
            st.(r := Receiver(Rest, h.bn, 0, st.r.got + [h.got[3..131]], st.r.src + [chunk]), up := [ACK])
  {
  }

  lemma ReadAck(chunks: seq<seq<byte>>, st: State)
    requires Fits(chunks) && st.s.phase == Waiting && st.up == [ACK]
    ensures Apply(chunks, st, SenderReads) ==
            st.(s := Sender(Ready, st.s.fate + [true], 0, Successor(st.s.bn)), up := [])
  {
    assert st.up[0] == ACK && st.up[1..] == [];
  }

  /** The end of the transmission, heard and acknowledged. */
  lemma Conclusion(chunks: seq<seq<byte>>, st: State)
    requires Fits(chunks) && Quiet(st) && st.r.phase == Rest && |st.s.fate| == |chunks|
    ensures Leads(chunks, st, SenderSends, ReceiverHears, SenderReads,
                  st.(s := st.s.(phase := Ended), r := st.r.(phase := Finished)))
  {
    var st1 := Apply(chunks, st, SenderSends);
    assert st1 == st.(s := st.s.(phase := Ending), down := [Control(EOT)]);
    HearEnd(chunks, st1);
  }

  lemma HearEnd(chunks: seq<seq<byte>>, st: State)
    requires Fits(chunks) && st.down == [Control(EOT)] && st.up == [] && st.r.phase == Rest
    ensures Apply(chunks, st, ReceiverHears) == st.(r := st.r.(phase := Finished), down := [], up := [ACK])
  {
    UnderstandControl(st.r.bn, EOT);
    assert BytesOf(st.down[0]) == [EOT] && st.down[1..] == [];
    ConcludeOn(st.(down := []), Understand(st.r.bn, [EOT]));
  }

  lemma ConcludeOn(st: State, h: Received)
    requires st.r.phase == Rest && st.up == [] && h.ret == RECV_FINISHED
    ensures React(st, h, 0) == st.(r := st.r.(phase := Finished), up := [ACK])
  {
  }

  function Deliveries(n: nat): seq<Step> {
    if n == 0 then [SenderReads] else Deliveries(n - 1) + [SenderSends, ReceiverHears, SenderReads]
  }

  function Trues(n: nat): seq<bool> {
    seq(n, _ => true)
  }

  function UpTo(n: nat): seq<nat> {
    seq(n, i requires 0 <= i < n => i)
  }

  /** After `n` undisturbed deliveries. */
  function AfterDeliveries(chunks: seq<seq<byte>>, n: nat): State
    requires Fits(chunks) && n <= |chunks|
  {
    State(Sender(Ready, Trues(n), 0, (n + 1) % 256),
          Receiver(if n == 0 then First else Rest, n % 256, 0, Download.PaddedAll(chunks[..n]), UpTo(n)), [], [])
  }

  lemma DeliveredNext(chunks: seq<seq<byte>>, n: nat)
    requires Fits(chunks) && n < |chunks|
    ensures AfterDeliveries(chunks, n).s.bn == Successor(AfterDeliveries(chunks, n).r.bn)
    ensures Delivered(chunks, AfterDeliveries(chunks, n)) == AfterDeliveries(chunks, n + 1)
  {
    assert Trues(n) + [true] == Trues(n + 1) && UpTo(n) + [n] == UpTo(n + 1);
    assert Download.PaddedAll(chunks[..n]) + [Padded(chunks[n])] == Download.PaddedAll(chunks[..n + 1]);
    Wrap(n);
    Succeeds(n);
  }

  lemma OpeningRun(chunks: seq<seq<byte>>)
    requires Fits(chunks)
    ensures Run(chunks, [SenderReads]) == Some(AfterDeliveries(chunks, 0))
  {
    assert Run(chunks, []) == Some(INIT);
    RunStep(chunks, [], SenderReads);
    assert [] + [SenderReads] == [SenderReads];
    assert INIT.up[0] == NAK && INIT.up[1..] == [];
    assert Apply(chunks, INIT, SenderReads) == INIT.(s := INIT.s.(phase := Ready, tries := 0), up := []);
    assert Download.PaddedAll(chunks[..0]) == [] && Trues(0) == [] && UpTo(0) == [];
  }

  lemma {:induction false} DeliveriesRun(chunks: seq<seq<byte>>, n: nat)
    requires Fits(chunks) && n <= |chunks|
    ensures Run(chunks, Deliveries(n)) == Some(AfterDeliveries(chunks, n))
  {
    if n == 0 {
      OpeningRun(chunks);
    } else {
      DeliveriesRun(chunks, n - 1);
      OneMore(chunks, Deliveries(n - 1), n - 1, Deliveries(n));
    }
  }

  lemma OneMore(chunks: seq<seq<byte>>, steps: seq<Step>, n: nat, longer: seq<Step>)
    requires Fits(chunks) && n < |chunks| && Run(chunks, steps) == Some(AfterDeliveries(chunks, n))
    requires longer == steps + [SenderSends, ReceiverHears, SenderReads]
    ensures Run(chunks, longer) == Some(AfterDeliveries(chunks, n + 1))
  {
    DeliveredNext(chunks, n);
    var more, st1 := DeliveryRun(chunks, steps, AfterDeliveries(chunks, n));
  }

  /** A run in which both ends finish and the receiver has taken `got`. */
  predicate BothFinish(chunks: seq<seq<byte>>, steps: seq<Step>, got: seq<seq<byte>>)
    requires Fits(chunks)
  {
    match Run(chunks, steps)
    case None => false
    case Some(st) => st.s.phase == Ended && st.r.phase == Finished && st.r.got == got
  }

  /** On an undisturbed line every file, however long, arrives whole and both ends finish. */
  lemma UndisturbedRun(chunks: seq<seq<byte>>)
    requires Fits(chunks) && chunks != []
    ensures exists steps :: BothFinish(chunks, steps, Download.PaddedAll(chunks))
  {
    var n := |chunks|;
    DeliveriesRun(chunks, n);
    assert chunks[..n] == chunks;
    var steps := ConclusionRun(chunks, Deliveries(n), AfterDeliveries(chunks, n));
  }

  /** An empty file is refused: the sender ends its session well, and the receiver reports a failure. */
  lemma EmptyFile()
    ensures exists steps ::
              && Run([], steps).Some?
              && Run([], steps).value.s.phase == Ended && Run([], steps).value.r == Receiver(Stopped, 0, 0, [], [])
  {
    var chunks: seq<seq<byte>> := [];
    OpeningRun(chunks);
    assert Trues(0) == [] && UpTo(0) == [] && Download.PaddedAll(chunks[..0]) == [];
    var st := AfterDeliveries(chunks, 0);
    EotRefused(chunks, st);
    RunThree(chunks, [SenderReads], st, SenderSends, ReceiverHears, SenderReads,
             State(st.s.(phase := Ended), Receiver(Stopped, 0, 0, [], []), [], []));
  }

  lemma EotRefused(chunks: seq<seq<byte>>, st: State)
    requires Fits(chunks) && Quiet(st) && |st.s.fate| == |chunks| && st.r == Receiver(First, 0, 0, [], [])
    ensures Leads(chunks, st, SenderSends, ReceiverHears, SenderReads,
                  State(st.s.(phase := Ended), Receiver(Stopped, 0, 0, [], []), [], []))
  {
    UnderstandControl(0, EOT);
    var st1 := Apply(chunks, st, SenderSends);
    assert st1 == st.(s := st.s.(phase := Ending), down := [Control(EOT)]) && st1.down[1..] == [];
    var st2 := Apply(chunks, st1, ReceiverHears);
    assert st2 == st1.(r := Receiver(Stopped, 0, 0, [], []), down := [], up := [ACK]);
    assert st2.up[0] == ACK && st2.up[1..] == [];
  }

  /** One try lost on the way, and the sender timing out. */
  function TryLost(st: State): State {
    st.(s := if st.s.tries + 1 >= Download.TRIES then Sender(Ready, st.s.fate + [false], 0, st.s.bn)
             else st.s.(tries := st.s.tries + 1))
  }

  lemma LostTry(chunks: seq<seq<byte>>, st: State)
    requires Fits(chunks) && Quiet(st) && |st.s.fate| < |chunks|
    ensures Leads(chunks, st, SenderSends, LoseDown(0), SenderTimesOut, TryLost(st))
  {
    var frame := Frame(st.s.bn, chunks[|st.s.fate|]);
    var st1 := Apply(chunks, st, SenderSends);
    assert st1.down == [Block(frame, |st.s.fate|)];
    LoseOnly(chunks, st1);
    var st2 := st.(s := st.s.(phase := Waiting));
    assert Apply(chunks, st1, LoseDown(0)) == st2;
    assert Apply(chunks, st2, SenderTimesOut) == TryLost(st);
  }

  lemma LoseOnly(chunks: seq<seq<byte>>, st: State)
    requires Fits(chunks) && |st.down| == 1
    ensures Apply(chunks, st, LoseDown(0)) == st.(down := [])
  {
  }

  lemma LostTryRun(chunks: seq<seq<byte>>, steps: seq<Step>, st: State)
    requires Fits(chunks) && Run(chunks, steps) == Some(st) && Quiet(st) && |st.s.fate| < |chunks|
    ensures Run(chunks, steps + [SenderSends, LoseDown(0), SenderTimesOut]) == Some(TryLost(st))
  {
    LostTry(chunks, st);
    RunThree(chunks, steps, st, SenderSends, LoseDown(0), SenderTimesOut, TryLost(st));
  }

  /**
   * A block that uses up its tries is missing without either end noticing by the protocol: both finish,
   * and the receiver holds only the second block, numbered 1. It is left with the open socket of a
   * success exactly when no more than this one block was declared.
   */
  lemma SilentLoss(first: seq<byte>, second: seq<byte>)
    requires |first| <= BLOCK && |second| <= BLOCK
    ensures exists steps ::
              && BothFinish([first, second], steps, [Padded(second)])
              && forall size: nat :: Enough(size, Run([first, second], steps).value.r) <==> size <= BLOCK
  {
    var chunks := [first, second];
    assert Fits(chunks);
    var lost := [SenderSends, LoseDown(0), SenderTimesOut];
    var s0, st0 := [SenderReads], AfterDeliveries(chunks, 0);
    OpeningRun(chunks);
    assert Trues(0) == [] && UpTo(0) == [] && Download.PaddedAll(chunks[..0]) == [];
    LostTryRun(chunks, s0, st0);
    LostTryRun(chunks, s0 + lost, TryLost(st0));
    LostTryRun(chunks, s0 + lost + lost, TryLost(TryLost(st0)));
    var s3, st3 := s0 + lost + lost + lost, TryLost(TryLost(TryLost(st0)));
    var steps := SkippedThenDone(chunks, s3, st3);
  }

  lemma SkippedThenDone(chunks: seq<seq<byte>>, steps: seq<Step>, st: State) returns (longer: seq<Step>)
    requires Fits(chunks) && |chunks| == 2 && Run(chunks, steps) == Some(st)
    requires Quiet(st) && Awake(st.r) && |st.s.fate| == 1 && st.s.bn == Successor(st.r.bn) && st.r.got == []
    ensures BothFinish(chunks, longer, [Padded(chunks[1])])
  {
    var more, st1 := DeliveryRun(chunks, steps, st);
    assert st1.r.got == [Padded(chunks[1])];
    longer := ConclusionRun(chunks, more, st1);
  }

  lemma DeliveryRun(chunks: seq<seq<byte>>, steps: seq<Step>, st: State) returns (longer: seq<Step>, st1: State)
    requires Fits(chunks) && Quiet(st) && Awake(st.r) && Run(chunks, steps) == Some(st)
    requires |st.s.fate| < |chunks| && st.s.bn == Successor(st.r.bn)
    ensures longer == steps + [SenderSends, ReceiverHears, SenderReads]
    ensures st1 == Delivered(chunks, st) && Run(chunks, longer) == Some(st1)
    ensures Quiet(st1) && st1.r.phase == Rest && |st1.s.fate| == |st.s.fate| + 1
    ensures st1.r.got == st.r.got + [Padded(chunks[|st.s.fate|])]
  {
    longer, st1 := steps + [SenderSends, ReceiverHears, SenderReads], Delivered(chunks, st);
    Delivery(chunks, st);
    RunThree(chunks, steps, st, SenderSends, ReceiverHears, SenderReads, st1);
  }

  lemma ConclusionRun(chunks: seq<seq<byte>>, steps: seq<Step>, st: State) returns (longer: seq<Step>)
    requires Fits(chunks) && Quiet(st) && st.r.phase == Rest && |st.s.fate| == |chunks|
    requires Run(chunks, steps) == Some(st)
    ensures BothFinish(chunks, longer, st.r.got)
  {
    var end := st.(s := st.s.(phase := Ended), r := st.r.(phase := Finished));
    longer := steps + [SenderSends, ReceiverHears, SenderReads];
    Conclusion(chunks, st);
    RunThree(chunks, steps, st, SenderSends, ReceiverHears, SenderReads, end);
  }
}
