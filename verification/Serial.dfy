/**
 * The serial port and the upload socket as the transfer code meets them: a script of what every
 * timed read, queue offer and socket write will answer, and a record of what the code did.
 */
module Serial {
  import opened Bytes

  const EAGAIN: int := -11

  /** An error return of the queue other than a timeout. */
  type Errno = e: int | e < 0 && e != EAGAIN witness -35

  /** What one timed read of the receive queue answers. */
  datatype Arrival = Byte(b: byte) | Silence | Fault(code: Errno)

  /** One thing the code did; `at` is how many arrivals it had consumed by then. */
  datatype Event =
    | Put(data: seq<byte>, queued: nat, at: nat)
    | Deliver(data: seq<byte>, ok: bool, at: nat)
    | Close(at: nat)

  /**
   * `rx[pos..]` is what the line still holds, and after that it stays silent. `verdicts` says of
   * each byte offered to the transmit queue whether it is taken (an empty script: yes), `writes`
   * of each socket write 0 for a full write or a positive errno (an empty script: full).
   */
  datatype Io = Io(rx: seq<Arrival>, pos: nat, verdicts: seq<bool>, writes: seq<nat>, trace: seq<Event>) {
    function Next(): Arrival {
      if pos < |rx| then rx[pos] else Silence
    }

    function Advance(): Io {
      if pos < |rx| then this.(pos := pos + 1) else this
    }

    /** Offer `data` to the transmit queue until the queue refuses a byte. */
    function Offer(data: seq<byte>): Io {
      var n := Queued(verdicts, |data|);
      this.(verdicts := AfterOffer(verdicts, |data|), trace := trace + [Put(data, n, pos)])
    }

    /** Write `data` to the socket: all of it, or an error. */
    function Write(data: seq<byte>): Io {
      var ok := writes == [] || writes[0] == 0;
      this.(writes := if writes == [] then [] else writes[1..], trace := trace + [Deliver(data, ok, pos)])
    }
  }

  /** How many of `n` offered bytes are taken before the first refusal. */
  function Queued(verdicts: seq<bool>, n: nat): (k: nat)
    ensures k <= n
  {
    if n == 0 then 0
    else if verdicts == [] then n
    else if verdicts[0] then 1 + Queued(verdicts[1..], n - 1)
    else 0
  }

  function AfterOffer(verdicts: seq<bool>, n: nat): seq<bool> {
    if n == 0 || verdicts == [] then verdicts
    else if verdicts[0] then AfterOffer(verdicts[1..], n - 1)
    else verdicts[1..]
  }

  class Port {
    var io: Io

    constructor (io: Io)
      ensures this.io == io
    {
      this.io := io;
    }

    method GetByteTm() returns (ret: int, b: byte)
      modifies this
      ensures io == old(io).Advance()
      ensures match old(io).Next()
              case Byte(v) => ret == 0 && b == v
              case Silence => ret == EAGAIN
              case Fault(code) => ret == code
    {
      b := 0;
      match io.Next() {
        case Byte(v) => ret, b := 0, v;
        case Silence => ret := EAGAIN;
        case Fault(code) => ret := code;
      }
      io := io.Advance();
    }

    /** `k_msgq_put` on the transmit queue. */
    method QueuePut(b: byte) returns (ok: bool)
      modifies this
      ensures ok == (old(io).verdicts == [] || old(io).verdicts[0])
      ensures io == old(io).(verdicts := if old(io).verdicts == [] then [] else old(io).verdicts[1..])
    {
      ok := io.verdicts == [] || io.verdicts[0];
      io := io.(verdicts := if io.verdicts == [] then [] else io.verdicts[1..]);
    }

    method PutByte(b: byte) returns (ret: int)
      modifies this
      ensures io == old(io).Offer([b])
      ensures ret == if Queued(old(io).verdicts, 1) == 1 then 0 else EAGAIN
    {
      var ok := QueuePut(b);
      ret := if ok then 0 else EAGAIN;
      assert Queued(old(io).verdicts, 1) == if ok then 1 else 0;
      assert AfterOffer(old(io).verdicts, 1) == io.verdicts;
      io := io.(trace := io.trace + [Put([b], if ok then 1 else 0, io.pos)]);
    }

    /** The counting loop of `UartBrokerPut`. */
    method PutAll(data: array<byte>, len: nat) returns (cnt: nat)
      requires len <= data.Length
      modifies this
      ensures io == old(io).Offer(data[..len])
      ensures cnt == Queued(old(io).verdicts, len)
    {
      cnt := 0;
      var i := 0;
      while i < len
        invariant 0 <= i <= len && cnt == i
        invariant io == old(io).(verdicts := io.verdicts)
        invariant Queued(old(io).verdicts, len) == cnt + Queued(io.verdicts, len - i)
        invariant AfterOffer(old(io).verdicts, len) == AfterOffer(io.verdicts, len - i)
      {
        var ok := QueuePut(data[i]);
        if !ok {
          break;
        }
        cnt := cnt + 1;
        i := i + 1;
      }
      io := io.(trace := io.trace + [Put(data[..len], cnt, io.pos)]);
    }

    /** `send` of `data` on the upload socket. */
    method Write(data: seq<byte>) returns (ret: int)
      modifies this
      ensures io == old(io).Write(data)
      ensures ret == if old(io).writes == [] || old(io).writes[0] == 0 then |data| else 0 - old(io).writes[0] as int
    {
      ret := if io.writes == [] || io.writes[0] == 0 then |data| else 0 - io.writes[0] as int;
      io := io.Write(data);
    }

    method CloseSocket()
      modifies this
      ensures io == old(io).(trace := old(io).trace + [Close(old(io).pos)])
    {
      io := io.(trace := io.trace + [Close(io.pos)]);
    }
  }
}
