/** XMODEM frames in checksum mode: building, checking, receiving and sending them. */
module Xmodem {
  import opened Bytes
  import opened Serial

  const SOH: byte := 0x01
  const EOT: byte := 0x04
  const ACK: byte := 0x06
  const NAK: byte := 0x15
  const CAN: byte := 0x18
  const PAD: byte := 0x1a

  const BLOCK: nat := 128
  const FRAME: nat := 132

  const RECV_OK: int := 0
  const RECV_FINISHED: int := 1
  const RECV_CANCELED: int := 2
  const RECV_RETRY: int := 3
  const RECV_DUP: int := 4
  const RECV_FAILED: int := -1

  const SEND_OK: int := 0
  const SEND_RETRY: int := 1
  const SEND_CANCELED: int := 2
  const SEND_FAILED: int := -1
  const SEND_TIMEOUT: int := -2

  // ---- Frames -------------------------------------------------------------

  function Sum(s: seq<byte>): byte {
    if s == [] then 0 else (Sum(s[..|s| - 1]) + s[|s| - 1]) % 256
  }

  function Padded(payload: seq<byte>): (r: seq<byte>)
    requires |payload| <= BLOCK
    ensures |r| == BLOCK
  {
    payload + seq(BLOCK - |payload|, _ => PAD)
  }

  function Frame(bn: byte, payload: seq<byte>): (f: seq<byte>)
    requires |payload| <= BLOCK
    ensures |f| == FRAME
    ensures f[3..131] == Padded(payload)
  {
    [SOH, bn, 255 - bn] + Padded(payload) + [Sum(Padded(payload))]
  }

  function Successor(bn: byte): byte {
    (bn + 1) % 256
  }

  /** The block number found, -1 for a bad or out-of-order block, -2 for a repeated one. */
  function Validation(block: seq<byte>, bn: byte): int
    requires |block| == FRAME
  {
    if block[1] as int + block[2] as int != 0xff then -1
    else if bn == block[1] then -2
    else if Successor(bn) != block[1] then -1
    else if Sum(block[3..131]) == block[131] then block[1]
    else -1
  }

  method BlockValidation(block: array<byte>, bn: byte) returns (r: int)
    requires block.Length == FRAME
    ensures r == Validation(block[..], bn)
  {
    if block[1] as int + block[2] as int != 0xff {
      return -1;
    }
    if bn == block[1] {
      return -2;
    }
    if (bn + 1) % 256 != block[1] {
      return -1;
    }
    var s: byte := 0;
    var i := 0;
    while i < 128
      invariant 0 <= i <= 128
      invariant s == Sum(block[3..3 + i])
    {
      assert block[3..3 + i + 1][..i] == block[3..3 + i];
      s := (s as int + block[3 + i] as int) % 256;
      i := i + 1;
    }
    assert block[..][3..131] == block[3..131];
    if s == block[131] {
      return block[1];
    } else {
      return -1;
    }
  }

  /** A block is taken exactly when it is the frame of the next number around its own payload. */
  lemma AcceptedIffNextFrame(block: seq<byte>, bn: byte)
    requires |block| == FRAME && block[0] == SOH
    ensures Validation(block, bn) >= 0 <==> block == Frame(Successor(bn), block[3..131])
    ensures Validation(block, bn) >= 0 ==> Validation(block, bn) == Successor(bn)
  {
    var p := block[3..131];
    assert Padded(p) == p;
    assert Successor(bn) != bn;
    if Validation(block, bn) >= 0 {
      assert block == [block[0], block[1], block[2]] + p + [block[131]];
    }
  }

  function Total(s: seq<byte>): nat {
    if s == [] then 0 else s[0] + Total(s[1..])
  }

  lemma {:induction false} TotalSplit(s: seq<byte>, k: nat)
    requires k <= |s|
    ensures Total(s) == Total(s[..k]) + Total(s[k..])
  {
    if k > 0 {
      TotalSplit(s[1..], k - 1);
      assert s[..k][1..] == s[1..][..k - 1] && s[1..][k - 1..] == s[k..];
    } else {
      assert s[0..] == s;
    }
  }

  /** The checksum is the sum of all bytes, modulo 256. */
  lemma {:induction false} SumIsTotal(s: seq<byte>)
    ensures Sum(s) == Total(s) % 256
  {
    if s != [] {
      var n := |s| - 1;
      SumIsTotal(s[..n]);
      TotalSplit(s, n);
      assert s[n..] == [s[n]] && Total([s[n]]) == s[n] + Total([s[n]][1..]);
      RemainderAdds(Total(s[..n]), s[n]);
    }
  }

  lemma RemainderAdds(a: nat, b: nat)
    ensures (a % 256 + b) % 256 == (a + b) % 256
  {
  }

  /** A frame, byte for byte: 0x01, number and complement, the payload filled up with 0x1a, and the sum of all 128. */
  lemma FrameBytes(bn: byte, payload: seq<byte>)
    requires |payload| <= 128
    ensures var f := Frame(bn, payload);
            && |f| == 132 && f[0] == 0x01 && f[1] == bn && f[2] == 255 - bn
            && f[3..3 + |payload|] == payload && (forall i :: 3 + |payload| <= i < 131 ==> f[i] == 0x1a)
            && f[131] == Total(f[3..131]) % 256
  {
    var f := Frame(bn, payload);
    SumIsTotal(Padded(payload));
    assert f[3..131] == Padded(payload);
    forall i | 3 + |payload| <= i < 131 ensures f[i] == 0x1a {
      assert f[i] == f[3..131][i - 3];
    }
    assert f[3..3 + |payload|] == f[3..131][..|payload|];
  }

  /** A repeat is reported exactly for a whole frame in whose header the current number stands, with its complement. */
  lemma RepeatIff(io: Io, bn: byte)
    requires io.pos <= |io.rx|
    ensures Receive(io, bn).ret == RECV_DUP <==>
            && io.pos + 132 <= |io.rx| && (forall i :: io.pos <= i < io.pos + 132 ==> io.rx[i].Byte?)
            && io.rx[io.pos].b == 0x01 && io.rx[io.pos + 1].b == bn && io.rx[io.pos + 2].b == 255 - bn
  {
    if io.Next() == Byte(SOH) {
      CollectedWasHeard(io.Advance(), 131);
      var rest := Collect(io.Advance(), 131);
      if rest.err == 0 {
        assert io.rx[io.Advance().pos + 0] == Byte(rest.bytes[0]) && io.rx[io.Advance().pos + 1] == Byte(rest.bytes[1]);
        forall i | io.pos <= i < io.pos + 132 ensures io.rx[i].Byte? {
          if i > io.pos {
            assert io.rx[io.Advance().pos + (i - io.pos - 1)] == Byte(rest.bytes[i - io.pos - 1]);
          }
        }
      } else if io.pos + 132 <= |io.rx| && forall i :: io.pos <= i < io.pos + 132 ==> io.rx[i].Byte? {
        CollectsAll(io.Advance(), 131);
      }
    }
  }

  lemma {:induction false} CollectsAll(io: Io, n: nat)
    requires io.pos + n <= |io.rx| && forall i :: io.pos <= i < io.pos + n ==> io.rx[i].Byte?
    ensures Collect(io, n).err == 0
    decreases n
  {
    if n > 0 {
      CollectsAll(io.Advance(), n - 1);
    }
  }

  lemma {:induction false} CollectStops(io: Io, n: nat, bs: seq<byte>)
    requires |bs| < n && Heard(io.rx, io.pos, bs) && io.pos + |bs| < |io.rx| && !io.rx[io.pos + |bs|].Byte?
    ensures var r, stop := Collect(io, n), io.rx[io.pos + |bs|];
            && r.bytes == bs && r.io == io.(pos := io.pos + |bs| + 1)
            && r.err == if stop.Silence? then -11 else stop.code
    decreases n
  {
    if bs != [] {
      assert io.rx[io.pos + 0] == Byte(bs[0]);
      forall i | 0 <= i < |bs[1..]| ensures io.rx[io.Advance().pos + i] == Byte(bs[1..][i]) {
        assert io.rx[io.pos + (i + 1)] == Byte(bs[i + 1]);
      }
      CollectStops(io.Advance(), n - 1, bs[1..]);
      assert [bs[0]] + bs[1..] == bs;
    }
  }

  /** A frame that a pause or an error cuts short ends with that error as its result, and what came is stored. */
  lemma CutShort(io: Io, bn: byte, bs: seq<byte>)
    requires |bs| < 131 && io.Next() == Byte(0x01) && Heard(io.rx, io.pos + 1, bs)
    requires io.pos + 1 + |bs| < |io.rx| && !io.rx[io.pos + 1 + |bs|].Byte?
    ensures var stop := io.rx[io.pos + 1 + |bs|];
            Receive(io, bn) == Received(if stop.Silence? then -11 else stop.code, bn, [0x01] + bs,
                                        io.(pos := io.pos + |bs| + 2))
  {
    CollectStops(io.Advance(), 131, bs);
  }

  /** What single bytes mean: 0x04 the end, acknowledged with 0x06; 0x18 a cancellation; and silence a retry. */
  lemma ControlsReceived(io: Io, bn: byte)
    ensures io.Next() == Byte(0x04) ==>
              var r := Receive(io, bn);
              && r.ret == (if Queued(io.verdicts, 1) == 1 then RECV_FINISHED else RECV_FAILED)
              && r.bn == bn && r.io == io.Advance().Offer([0x06])
    ensures io.Next() == Byte(0x18) ==> Receive(io, bn) == Received(RECV_CANCELED, bn, [], io.Advance())
    ensures io.Next() == Silence ==> Receive(io, bn) == Received(RECV_RETRY, bn, [], io.Advance())
    ensures io.Next().Fault? ==> Receive(io, bn) == Received(io.Next().code, bn, [], io.Advance())
  {
  }

  /** The additive checksum notices every change of one payload byte. */
  lemma {:induction false} SumDetects(s: seq<byte>, k: nat, x: byte)
    requires k < |s| && x != s[k]
    ensures Sum(s[k := x]) != Sum(s)
  {
    var n := |s| - 1;
    var t := s[k := x];
    if k == n {
      assert t[..n] == s[..n];
      Distinct(Sum(s[..n]), s[n], x);
    } else {
      SumDetects(s[..n], k, x);
      assert t[..n] == s[..n][k := x];
      Distinct(s[n], Sum(s[..n]), Sum(t[..n]));
    }
  }

  lemma Distinct(a: byte, b: byte, c: byte)
    requires b != c
    ensures (a as int + b as int) % 256 != (a as int + c as int) % 256
  {
  }

  // ---- Receiving ----------------------------------------------------------

  /** `got` is what was stored at the front of the block buffer. */
  datatype Received = Received(ret: int, bn: byte, got: seq<byte>, io: Io)

  datatype Collected = Collected(err: int, bytes: seq<byte>, io: Io)

  /** Up to `n` bytes, stopping at the first read that answers no byte. */
  function Collect(io: Io, n: nat): (r: Collected)
    ensures r.err == 0 <==> |r.bytes| == n
    ensures |r.bytes| <= n && r.err <= 0
    ensures r.io == io.(pos := r.io.pos)
    ensures io.pos <= |io.rx| ==> io.pos <= r.io.pos <= |io.rx|
    ensures r.err == 0 ==> r.io.pos == io.pos + n
    decreases n, io
  {
    if n == 0 then Collected(0, [], io)
    else match io.Next()
      case Byte(b) =>
        var r := Collect(io.Advance(), n - 1);
        Collected(r.err, [b] + r.bytes, r.io)
      case Silence => Collected(EAGAIN, [], io.Advance())
      case Fault(code) => Collected(code, [], io.Advance())
  }

  /** One call of the block receiver whose last good block number is `bn`. */
  function Receive(io: Io, bn: byte): (r: Received)
    ensures |r.got| <= FRAME
  {
    var io1 := io.Advance();
    match io.Next()
    case Silence => Received(RECV_RETRY, bn, [], io1)
    case Fault(code) => Received(code, bn, [], io1)
    case Byte(b) =>
      if b == EOT then
        Received(if Queued(io1.verdicts, 1) == 1 then RECV_FINISHED else RECV_FAILED, bn, [], io1.Offer([ACK]))
      else if b == CAN then Received(RECV_CANCELED, bn, [], io1)
      else if b != SOH then Received(RECV_RETRY, bn, [], io1)
      else
        var rest := Collect(io1, 131);
        var got := [SOH] + rest.bytes;
        if rest.err != 0 then Received(rest.err, bn, got, rest.io)
        else
          var v := Validation(got, bn);
          if v == -1 then Received(RECV_RETRY, bn, got, rest.io)
          else if v == -2 then Received(RECV_DUP, bn, got, rest.io)
          else Received(RECV_OK, v, got, rest.io)
  }

  /** The loop that reads the rest of a frame into the block buffer, behind its SOH. */
  method CollectInto(port: Port, block: array<byte>) returns (ret: int)
    requires block.Length == FRAME && block[0] == SOH
    modifies port, block
    ensures var r := Collect(old(port.io), 131);
            ret == r.err && port.io == r.io && block[..] == Overlay(old(block[..]), [SOH] + r.bytes)
  {
    ghost var was, io1 := block[..], port.io;
    ghost var bytes: seq<byte> := [];
    var idx := 1;
    var i := 0;
    var b;
    while i < 131
      invariant 0 <= i <= 131 && idx == i + 1 && |bytes| == i
      invariant block[..] == Overlay(was, [SOH] + bytes)
      invariant var whole, rest := Collect(io1, 131), Collect(port.io, 131 - i);
                whole == Collected(rest.err, bytes + rest.bytes, rest.io)
    {
      ghost var io2 := port.io;
      ret, b := port.GetByteTm();
      if ret == 0 {
        ghost var rest, next := Collect(io2, 131 - i), Collect(port.io, 131 - i - 1);
        assert rest == Collected(next.err, [b] + next.bytes, next.io);
        Rejoin(bytes, [b], next.bytes);
        block[idx] := b;
        bytes := bytes + [b];
        assert Overlay(was, [SOH] + bytes) == Overlay(was, [SOH] + bytes[..i])[idx := b];
        idx := idx + 1;
      } else {
        assert Collect(io1, 131) == Collected(ret, bytes + [], port.io);
        assert bytes + [] == bytes;
        return;
      }
      i := i + 1;
    }
    assert bytes + [] == bytes;
    ret := 0;
  }

  method ReceiveBlock(port: Port, bn: byte, block: array<byte>) returns (ret: int, newBn: byte)
    requires block.Length == FRAME
    modifies port, block
    ensures var r := Receive(old(port.io), bn);
            ret == r.ret && newBn == r.bn && port.io == r.io && block[..] == Overlay(old(block[..]), r.got)
  {
    newBn := bn;
    ghost var was := block[..];
    var b;
    ret, b := port.GetByteTm();
    if ret == EAGAIN {
      return RECV_RETRY, bn;
    } else if ret != 0 {
      return;
    }
    if b == SOH {
      block[0] := SOH;
    } else if b == EOT {
      var put := port.PutByte(ACK);
      if put != 0 {
        return RECV_FAILED, bn;
      }
      return RECV_FINISHED, bn;
    } else if b == CAN {
      return RECV_CANCELED, bn;
    } else {
      return RECV_RETRY, bn;
    }
    ghost var io1 := port.io;
    ret := CollectInto(port, block);
    ghost var rest := Collect(io1, 131);
    assert Overlay(Overlay(was, [SOH]), [SOH] + rest.bytes) == Overlay(was, [SOH] + rest.bytes);
    if ret != 0 {
      return ret, bn;
    }
    assert block[..] == [SOH] + rest.bytes;
    var found := BlockValidation(block, bn);
    if found == -1 {
      return RECV_RETRY, bn;
    } else if found == -2 {
      return RECV_DUP, bn;
    }
    return RECV_OK, found;
  }

  /** `rx[at..]` begins with the bytes `bs`. */
  predicate Heard(rx: seq<Arrival>, at: nat, bs: seq<byte>) {
    && at + |bs| <= |rx|
    && forall i :: 0 <= i < |bs| ==> rx[at + i] == Byte(bs[i])
  }

  lemma {:induction false} CollectHeard(io: Io, bs: seq<byte>)
    requires Heard(io.rx, io.pos, bs)
    ensures Collect(io, |bs|) == Collected(0, bs, io.(pos := io.pos + |bs|))
    decreases |bs|
  {
    if bs != [] {
      assert io.rx[io.pos + 0] == Byte(bs[0]);
      forall i | 0 <= i < |bs[1..]| ensures io.rx[io.pos + 1 + i] == Byte(bs[1..][i]) {
        assert io.rx[io.pos + (i + 1)] == Byte(bs[i + 1]);
      }
      CollectHeard(io.Advance(), bs[1..]);
      assert [bs[0]] + bs[1..] == bs;
    }
  }

  /** The line pauses at `at`. */
  predicate SilentAt(rx: seq<Arrival>, at: nat) {
    at >= |rx| || rx[at] == Silence
  }

  /** Reading on over `bs` and, when they are too few, into the pause behind them. */
  lemma {:induction false} CollectUpTo(io: Io, n: nat, bs: seq<byte>)
    requires |bs| <= n && Heard(io.rx, io.pos, bs)
    requires |bs| < n ==> SilentAt(io.rx, io.pos + |bs|)
    ensures var r := Collect(io, n);
            && r.bytes == bs && r.err == (if |bs| == n then 0 else EAGAIN)
            && r.io == (if |bs| < n then io.(pos := io.pos + |bs|).Advance() else io.(pos := io.pos + |bs|))
    decreases n
  {
    if bs != [] {
      assert io.rx[io.pos + 0] == Byte(bs[0]);
      forall i | 0 <= i < |bs[1..]| ensures io.rx[io.Advance().pos + i] == Byte(bs[1..][i]) {
        assert io.rx[io.pos + (i + 1)] == Byte(bs[i + 1]);
      }
      CollectUpTo(io.Advance(), n - 1, bs[1..]);
      assert [bs[0]] + bs[1..] == bs;
    }
  }

  lemma {:induction false} CollectedWasHeard(io: Io, n: nat)
    requires io.pos <= |io.rx|
    ensures var r := Collect(io, n); Heard(io.rx, io.pos, r.bytes)
    decreases n
  {
    if n > 0 && io.Next().Byte? {
      CollectedWasHeard(io.Advance(), n - 1);
      var r, rest := Collect(io, n), Collect(io.Advance(), n - 1);
      forall i | 0 <= i < |r.bytes| ensures io.rx[io.pos + i] == Byte(r.bytes[i]) {
        if i > 0 {
          assert io.rx[io.pos + 1 + (i - 1)] == Byte(rest.bytes[i - 1]);
        }
      }
    }
  }

  /** Receiving 132 arrived bytes that start with SOH is validating them. */
  lemma ReceiveHeard(io: Io, bn: byte, block: seq<byte>)
    requires |block| == FRAME && block[0] == SOH && Heard(io.rx, io.pos, block)
    ensures var r, v := Receive(io, bn), Validation(block, bn);
            && r.got == block && r.io == io.(pos := io.pos + FRAME)
            && r.ret == (if v == -1 then RECV_RETRY else if v == -2 then RECV_DUP else RECV_OK)
            && r.bn == (if v >= 0 then v else bn)
  {
    assert io.rx[io.pos + 0] == Byte(block[0]);
    var io1, rest := io.Advance(), block[1..];
    forall i | 0 <= i < |rest| ensures io.rx[io1.pos + i] == Byte(rest[i]) {
      assert io.rx[io.pos + (i + 1)] == Byte(block[i + 1]);
    }
    CollectHeard(io1, rest);
    assert [SOH] + rest == block;
  }

  /** What a successful receive has heard. */
  lemma ReceivedOk(io: Io, bn: byte)
    requires io.pos <= |io.rx| && Receive(io, bn).ret == RECV_OK
    ensures var r := Receive(io, bn);
            && |r.got| == FRAME && r.bn == Successor(bn)
            && r.io == io.(pos := io.pos + FRAME)
            && r.got == Frame(Successor(bn), r.got[3..131])
            && Heard(io.rx, io.pos, r.got)
  {
    var io1 := io.Advance();
    var rest := Collect(io1, 131);
    CollectedWasHeard(io1, 131);
    var r := Receive(io, bn);
    AcceptedIffNextFrame(r.got, bn);
    forall i | 0 <= i < FRAME ensures io.rx[io.pos + i] == Byte(r.got[i]) {
      if i > 0 {
        assert io.rx[io1.pos + (i - 1)] == Byte(rest.bytes[i - 1]);
      }
    }
  }

  /** The stream moves on with every outcome except a retry, which may be plain silence. */
  lemma ReceiveProgress(io: Io, bn: byte)
    requires io.pos <= |io.rx|
    ensures var r := Receive(io, bn);
            && io.pos <= r.io.pos <= |io.rx| && r.io.rx == io.rx && r.io.writes == io.writes
            && (r.ret != RECV_RETRY ==> io.pos < r.io.pos)
            && (r.ret != RECV_OK ==> r.bn == bn)
  {
    if Receive(io, bn).ret == RECV_OK {
      ReceivedOk(io, bn);
    }
  }

  /** A built frame is received whole, yields its payload padded, and steps the block number. */
  lemma FrameRoundTrip(io: Io, bn: byte, payload: seq<byte>)
    requires |payload| <= BLOCK
    requires Heard(io.rx, io.pos, Frame(Successor(bn), payload))
    ensures var r := Receive(io, bn);
            && r.ret == RECV_OK && r.bn == Successor(bn)
            && r.io == io.(pos := io.pos + FRAME)
            && r.got[3..131] == Padded(payload)
  {
    var f := Frame(Successor(bn), payload);
    ReceiveHeard(io, bn, f);
    assert Padded(f[3..131]) == f[3..131];
    assert f == Frame(Successor(bn), f[3..131]);
    AcceptedIffNextFrame(f, bn);
  }

  /** Any one byte changed after the SOH makes the expected frame a retry. */
  lemma DamageDetected(io: Io, bn: byte, payload: seq<byte>, k: nat, x: byte)
    requires |payload| <= BLOCK && 1 <= k < FRAME
    requires var f := Frame(Successor(bn), payload);
             x != f[k] && Heard(io.rx, io.pos, f[k := x])
    ensures var r := Receive(io, bn);
            r.ret == RECV_RETRY && r.bn == bn && r.io == io.(pos := io.pos + FRAME)
  {
    var f := Frame(Successor(bn), payload);
    var g := f[k := x];
    ReceiveHeard(io, bn, g);
    assert f[1] == Successor(bn) && f[2] == 255 - f[1] && f[131] == Sum(f[3..131]);
    if 3 <= k < 131 {
      assert g[3..131] == f[3..131][k - 3 := x];
      SumDetects(f[3..131], k - 3, x);
    } else {
      assert g[3..131] == f[3..131];
    }
  }

  /** A frame of the number just received, around any payload, is reported as a repeat. */
  lemma FrameRepeated(io: Io, bn: byte, payload: seq<byte>)
    requires |payload| <= BLOCK && Heard(io.rx, io.pos, Frame(bn, payload))
    ensures Receive(io, bn) == Received(RECV_DUP, bn, Frame(bn, payload), io.(pos := io.pos + FRAME))
  {
    ReceiveHeard(io, bn, Frame(bn, payload));
  }

  /** The bytes that can begin a message; any other is a message of its own that asks for a retry. */
  predicate Starter(b: byte) {
    b == SOH || b == EOT || b == CAN
  }

  /** A byte that begins no message is consumed alone and asks for a retry. */
  lemma NoiseReceived(io: Io, bn: byte)
    requires io.Next().Byte? && !Starter(io.Next().b)
    ensures Receive(io, bn) == Received(RECV_RETRY, bn, [], io.(pos := io.pos + 1))
  {
  }

  /**
   * A changed first byte is not covered: this receive takes it for a message of one byte, and the
   * next receives go on inside the frame.
   */
  lemma DamagedStart(io: Io, bn: byte, payload: seq<byte>, x: byte)
    requires |payload| <= BLOCK && x != SOH
    requires Heard(io.rx, io.pos, Frame(Successor(bn), payload)[0 := x])
    ensures var r := Receive(io, bn);
            && r.io.pos == io.pos + 1 && r.bn == bn
            && (r.ret == RECV_RETRY <==> x != EOT && x != CAN)
  {
    var g := Frame(Successor(bn), payload)[0 := x];
    assert io.rx[io.pos + 0] == Byte(g[0]);
  }

  // ---- Where messages begin -----------------------------------------------

  /** Where the reading of up to `n` more bytes from `at` on stops. */
  function Gathered(rx: seq<Arrival>, at: nat, n: nat): (end: nat)
    ensures at <= end && (at <= |rx| ==> end <= |rx|)
    decreases n
  {
    if n == 0 || at >= |rx| then at else if rx[at].Byte? then Gathered(rx, at + 1, n - 1) else at + 1
  }

  /** The end of the message that starts at `at`. */
  function MessageEnd(rx: seq<Arrival>, at: nat): (end: nat)
    ensures at <= end && (at < |rx| ==> at < end <= |rx|)
  {
    if at >= |rx| then at else if rx[at] == Byte(SOH) then Gathered(rx, at + 1, 131) else at + 1
  }

  /** Reading message after message from `from` on comes to `at`. */
  predicate Reaches(rx: seq<Arrival>, from: nat, at: nat)
    decreases at - from
  {
    from == at || (from < at && from < |rx| && Reaches(rx, MessageEnd(rx, from), at))
  }

  /** A message starts at `at`, not only a byte in the middle of one. */
  predicate MessageStart(rx: seq<Arrival>, at: nat) {
    at <= |rx| && Reaches(rx, 0, at)
  }

  lemma {:induction false} ReachesNext(rx: seq<Arrival>, from: nat, at: nat)
    requires Reaches(rx, from, at)
    ensures Reaches(rx, from, MessageEnd(rx, at))
    decreases at - from
  {
    if from < at {
      ReachesNext(rx, MessageEnd(rx, from), at);
    } else if at < |rx| {
      assert Reaches(rx, MessageEnd(rx, at), MessageEnd(rx, at));
    }
  }

  lemma {:induction false} CollectEnds(io: Io, n: nat)
    requires io.pos <= |io.rx|
    ensures Collect(io, n).io.pos == Gathered(io.rx, io.pos, n)
    decreases n
  {
    if n > 0 && io.Next().Byte? {
      CollectEnds(io.Advance(), n - 1);
    }
  }

  /** Every receive goes from the start of one message to the start of the next. */
  lemma ReceiveEnds(io: Io, bn: byte)
    requires MessageStart(io.rx, io.pos)
    ensures var r := Receive(io, bn);
            r.io.rx == io.rx && r.io.pos == MessageEnd(io.rx, io.pos) && MessageStart(io.rx, r.io.pos)
  {
    CollectEnds(io.Advance(), 131);
    ReachesNext(io.rx, 0, io.pos);
  }

  // ---- Sending ------------------------------------------------------------

  /** How the sender reads the answer to a block. */
  function ReplyOutcome(reply: Arrival): int {
    match reply
    case Silence => SEND_TIMEOUT
    case Fault(_) => SEND_FAILED
    case Byte(b) =>
      if b == ACK then SEND_OK
      else if b == NAK then SEND_RETRY
      else if b == CAN then SEND_CANCELED
      else SEND_FAILED
  }

  /** The port after offering a frame and reading one reply. */
  function Exchange(io: Io, frame: seq<byte>): Io {
    io.Offer(frame).Advance()
  }

  /** The frame layout: padding first, then header, payload and checksum over it. */
  method BuildFrame(bn: byte, buff: array<byte>, off: nat, sz: nat, block: array<byte>)
    requires off + sz <= buff.Length && sz <= BLOCK && block.Length == FRAME && block != buff
    modifies block
    ensures block[..] == Frame(bn, buff[off..off + sz])
  {
    forall i | 0 <= i < FRAME {
      block[i] := PAD;
    }
    block[0] := SOH;
    block[1] := bn;
    block[2] := 255 - bn;
    forall i | 0 <= i < sz {
      block[3 + i] := buff[off + i];
    }
    FrontLaid(block[..131], bn, buff[off..off + sz]);
    assert block[3..131] == block[..131][3..];
    AddSum(block, Padded(buff[off..off + sz]));
  }

  /** The running sum over the payload already in place. */
  method AddSum(block: array<byte>, ghost padded: seq<byte>)
    requires block.Length == FRAME && |padded| == BLOCK && block[3..131] == padded
    modifies block
    ensures block[..] == old(block[..131]) + [Sum(padded)]
  {
    ghost var front := block[..131];
    block[131] := 0;
    var i := 3;
    while i < 131
      invariant 3 <= i <= 131
      invariant block[..131] == front && block[131] == Sum(padded[..i - 3])
    {
      SumStep(padded, i - 3);
      assert block[i] == front[i] == padded[i - 3];
      block[131] := (block[131] as int + block[i] as int) % 256;
      i := i + 1;
    }
    assert padded[..128] == padded;
  }

  lemma FrontLaid(front: seq<byte>, bn: byte, payload: seq<byte>)
    requires |payload| <= BLOCK && |front| == 131 && front[0] == SOH && front[1] == bn && front[2] == 255 - bn
    requires forall i :: 3 <= i < 131 ==> front[i] == if i < 3 + |payload| then payload[i - 3] else PAD
    ensures front == [SOH, bn, 255 - bn] + Padded(payload) && front[3..] == Padded(payload)
  {
  }

  lemma SumStep(bytes: seq<byte>, k: nat)
    requires k < |bytes|
    ensures Sum(bytes[..k + 1]) as int == (Sum(bytes[..k]) as int + bytes[k] as int) % 256
  {
    assert bytes[..k + 1][..k] == bytes[..k];
  }

  method SendBlock(port: Port, bn: byte, buff: array<byte>, off: nat, sz: nat, block: array<byte>)
    returns (ret: int)
    requires off + sz <= buff.Length && block.Length == FRAME && block != buff
    modifies port, block
    ensures sz > BLOCK ==> ret == SEND_FAILED && port.io == old(port.io) && block[..] == old(block[..])
    ensures sz <= BLOCK ==>
              && ret == ReplyOutcome(old(port.io).Next())
              && block[..] == Frame(bn, buff[off..off + sz])
              && port.io == Exchange(old(port.io), Frame(bn, buff[off..off + sz]))
  {
    if sz > 128 {
      return SEND_FAILED;
    }
    BuildFrame(bn, buff, off, sz, block);
    assert block[..132] == block[..];
    var put := port.PutAll(block, 132);
    if put < 0 {
      return SEND_FAILED;
    }
    var got, b := port.GetByteTm();
    if got == EAGAIN {
      return SEND_TIMEOUT;
    } else if got < 0 {
      return SEND_FAILED;
    }
    if b == ACK {
      return SEND_OK;
    } else if b == NAK {
      return SEND_RETRY;
    } else if b == CAN {
      return SEND_CANCELED;
    } else {
      return SEND_FAILED;
    }
  }

  /** What becomes of an EOT: refused by the queue, unanswered, answered with 0x06, or with anything else. */
  lemma EndAnswered(io: Io)
    ensures var end, io1 := Finish(io), io.Offer([0x04]);
            if Queued(io.verdicts, 1) == 0 then end == Waited(SEND_FAILED, io1)
            else
              && end.io == io1.Advance()
              && end.ret == if io.Next() == Silence then SEND_TIMEOUT
                            else if io.Next() == Byte(0x06) then SEND_OK else SEND_FAILED
  {
  }

  datatype Waited = Waited(ret: int, io: Io)

  /** The wait for the receiver's opening NAK, with `tries` reads left. */
  function AwaitRequest(io: Io, tries: nat): Waited
    decreases tries, io
  {
    if tries == 0 then Waited(SEND_FAILED, io)
    else match io.Next()
      case Fault(_) => Waited(SEND_FAILED, io.Advance())
      case Silence => AwaitRequest(io.Advance(), tries - 1)
      case Byte(b) =>
        if b == NAK then Waited(SEND_OK, io.Advance())
        else if b == CAN then Waited(SEND_CANCELED, io.Advance())
        else AwaitRequest(io.Advance(), tries - 1)
  }

  method SendWaitRequest(port: Port) returns (ret: int)
    modifies port
    ensures Waited(ret, port.io) == AwaitRequest(old(port.io), 10)
  {
    var i := 0;
    while i < 10
      invariant 0 <= i <= 10
      invariant AwaitRequest(old(port.io), 10) == AwaitRequest(port.io, 10 - i)
    {
      var got, b := port.GetByteTm();
      i := i + 1;
      if got < 0 {
        if got == EAGAIN {
          continue;
        }
        return SEND_FAILED;
      }
      if b == NAK {
        return SEND_OK;
      } else if b == CAN {
        return SEND_CANCELED;
      }
    }
    return SEND_FAILED;
  }

  /** End of transmission: one EOT, one read, and only an ACK is success. */
  function Finish(io: Io): Waited {
    var io1 := io.Offer([EOT]);
    if Queued(io.verdicts, 1) == 0 then Waited(SEND_FAILED, io1)
    else
      Waited(match io1.Next()
             case Silence => SEND_TIMEOUT
             case Fault(_) => SEND_FAILED
             case Byte(b) => if b == ACK then SEND_OK else SEND_FAILED,
             io1.Advance())
  }

  method SendEnd(port: Port) returns (ret: int)
    modifies port
    ensures Waited(ret, port.io) == Finish(old(port.io))
  {
    var put := port.PutByte(EOT);
    if put < 0 {
      return SEND_FAILED;
    }
    var got, b := port.GetByteTm();
    if got < 0 {
      if got == EAGAIN {
        return SEND_TIMEOUT;
      }
      return SEND_FAILED;
    }
    if b == ACK {
      return SEND_OK;
    } else {
      return SEND_FAILED;
    }
  }
}
