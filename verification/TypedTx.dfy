/** `$TX` as a whole: from the keys typed to the packet sent, and from that back to the objects. */
module TypedTx {
  import opened Bytes
  import opened SipfObject
  import opened TxCommand
  import Dispatch
  import LineEditor
  import UpdateGate

  /**
   * The command up to its request: the argument is parsed into the send buffer, and what has been laid
   * down is framed.
   */
  method CmdTx(chars: array<byte>, len: nat, tx: array<byte>, request: array<byte>) returns (ok: bool, packetLen: int)
    requires len + 6 <= chars.Length && len + 6 < 65536 && RunText(chars[..], len).top < tx.Length
    requires request.Length == 12 + 65535 && tx != chars && request != tx && request != chars
    modifies chars, tx, request
    ensures ok <==> RunText(old(chars[..]), len).objs.Some?
    ensures ok ==> var data := Records(RunText(old(chars[..]), len).objs.value);
                   && |data| <= 65523
                   && if |data| > 1487 then packetLen == -1 && request[..] == old(request[..])
                      else packetLen == 12 + |data| && request[..packetLen] == Packet(data)
    ensures !ok ==> request[..] == old(request[..])
  {
    ghost var i := chars[..];
    ghost var ran := RunText(i, len);
    TopBounded(i, len);
    var n;
    ghost var top;
    ok, n, top := Parse(chars, len, tx);
    packetLen := -1;
    if ok {
      AcceptedTop(i, len, ran.objs.value);
      packetLen := ObjUpPacket(request, tx, n);
    }
  }

  // ---- The keys -----------------------------------------------------------------------------

  /** What spells a list is made of digits and spaces, and so extends a line. */
  lemma {:induction false} SpelledPlain(t: seq<byte>, objs: seq<Obj>)
    requires SpellsAll(t, objs)
    ensures forall i :: 0 <= i < |t| ==> LineEditor.Plain(t[i])
  {
    if objs != [] {
      var n := 7 + 2 * |objs[0].value|;
      SpelledPlain(t[n..], objs[1..]);
      ObjectPlain(t[..n], objs[0]);
      forall i | 0 <= i < |t| ensures LineEditor.Plain(t[i]) {
        assert t[i] == if i < n then t[..n][i] else t[n..][i - n];
      }
    }
  }

  lemma ObjectPlain(t: seq<byte>, o: Obj)
    requires SpellsObj(t, o)
    ensures forall i :: 0 <= i < |t| ==> LineEditor.Plain(t[i])
  {
    forall i | 7 <= i < |t| ensures LineEditor.Plain(t[i]) {
      var k := (i - 7) / 2;
      assert t[7..][2 * k] == t[7 + 2 * k] && t[7..][2 * k + 1] == t[7 + 2 * k + 1];
      assert PairValue(t[7..][2 * k], t[7..][2 * k + 1]) == Some(o.value[k]);
    }
  }

  /** The line as it is handed over. */
  function TypedLine(t: seq<byte>): LineEditor.Outcome
    requires |t| + 6 <= LineEditor.CMD_BUFF_SZ
  {
    LineEditor.Handed((Dispatch.TX + t) + Zeros(LineEditor.CMD_BUFF_SZ - 3 - |t|), 3 + |t|)
  }

  /** Its name is found, and its argument handed on with NULs behind it. */
  lemma LineIsTx(t: seq<byte>, behind: UpdateGate.Memory) returns (c: UpdateGate.Cmd)
    requires |t| + 6 <= LineEditor.CMD_BUFF_SZ && t != [] && t[0] == SPACE
    ensures UpdateGate.Shaped(TypedLine(t)) && UpdateGate.Dispatched(TypedLine(t), behind) == Some(c)
    ensures c.name == Dispatch.TX && c.len == |t| && c.rest[..|t|] == t
    ensures forall k :: |t| <= k < |t| + 3 ==> c.rest[k] == NUL
  {
    var b, len := TypedLine(t).buffer, 3 + |t|;
    Dispatch.TableNamed();
    Dispatch.TableDistinct();
    assert b[..3] == Dispatch.TX && b[3] == SPACE && b[..len] == Dispatch.TX + t;
    FirstWordIsTx(t);
    Dispatch.FirstWordOfText(b, len);
    Dispatch.SearchFindsFirstWord(Dispatch.TABLE, b, len);
    assert Dispatch.TABLE[3] == Dispatch.TX;
    c := UpdateGate.Dispatched(TypedLine(t), behind).value;
    assert b[3..] == t + Zeros(LineEditor.CMD_BUFF_SZ - 3 - |t|);
  }

  lemma FirstWordIsTx(t: seq<byte>)
    requires t != [] && t[0] == SPACE
    ensures Dispatch.FirstWord(Dispatch.TX + t) == Dispatch.TX
  {
    var u := Dispatch.TX + t;
    assert u[1..][0] == Dispatch.TX[1] && u[1..][1..][0] == Dispatch.TX[2] && u[1..][1..][1..] == t;
    assert Dispatch.FirstWord(t) == [];
  }

  /** Walking and parsing the first `n` bytes of `payload` gives `objs`. */
  predicate ReadsBack(payload: seq<byte>, n: nat, objs: seq<Obj>) {
    3 <= n && n + 2 <= |payload| &&
    var starts := Walk(payload, 0, n, 0);
    && |starts| == |objs|
    && forall i :: 0 <= i < |objs| ==>
         && starts[i] + 3 <= |payload| && starts[i] + 3 + payload[starts[i] + 2] <= |payload|
         && ObjAt(payload[starts[i]..]) == objs[i]
  }

  lemma HeldReadsBack(payload: seq<byte>, n: nat, objs: seq<Obj>)
    requires objs != [] && Short(objs) && |objs| <= OBJ_MAX_CNT && Holds(payload, 0, n, objs) && n + 3 <= |payload|
    ensures ReadsBack(payload, n, objs)
  {
    RecordsLength(objs);
    WalkFindsStarts(payload, 0, n, objs, 0);
    var starts := Starts(objs, 0);
    assert starts[..|objs|] == starts;
    forall i | 0 <= i < |objs|
      ensures && starts[i] + 3 <= |payload| && starts[i] + 3 + payload[starts[i] + 2] <= |payload|
              && ObjAt(payload[starts[i]..]) == objs[i]
    {
      ParseAtStart(payload, 0, n, objs, i);
    }
  }

  /** The packet of `objs` says the length of their records and carries them; they are read back, if short. */
  predicate Carries(p: seq<byte>, objs: seq<Obj>, slack: seq<byte>) {
    && |p| == 12 + |Records(objs)| && BigEndian(p[10..12]) == |Records(objs)|
    && (Short(objs) && |objs| <= OBJ_MAX_CNT ==> ReadsBack(p[12..] + slack, |p| - 12, objs))
  }

  lemma PacketCarries(objs: seq<Obj>, slack: seq<byte>)
    requires objs != [] && |Records(objs)| < 65536 && |slack| >= 3
    ensures Carries(Packet(Records(objs)), objs, slack)
  {
    var data := Records(objs);
    PacketFields(data);
    if Short(objs) && |objs| <= OBJ_MAX_CNT {
      assert (data + slack)[0..|data|] == data;
      HeldReadsBack(data + slack, |data|, objs);
    }
  }

  /** The command's run over the line accepts `objs` and lays down just their records. */
  predicate Runs(l: LineEditor.Outcome, behind: UpdateGate.Memory, objs: seq<Obj>)
    requires UpdateGate.Shaped(l)
  {
    var d := UpdateGate.Dispatched(l, behind);
    d.Some? && d.value.name == Dispatch.TX && RunText(d.value.rest, d.value.len) == Ran(Some(objs), |Records(objs)|)
  }

  /**
   * From keys to packet: `$`, `$TX`, an accepted text whose records the send buffer has room for, and Enter
   * are one line, dispatched to `$TX`, whose run lays down just the records; the packet takes them, says
   * their length, and when walked and parsed gives the objects typed.
   */
  lemma TypedIsSent(t: seq<byte>, objs: seq<Obj>, end: byte, behind: UpdateGate.Memory, slack: seq<byte>)
    requires ParseText(t) == Some(objs) && |Records(objs)| <= TX_BUFF && LineEditor.EndsLine(end) && |slack| >= 3
    ensures |t| + 6 <= LineEditor.CMD_BUFF_SZ && UpdateGate.Shaped(TypedLine(t))
    ensures LineEditor.Lines(LineEditor.Waiting, [LineEditor.DOLLAR] + (Dispatch.TX + t) + [end]) == [TypedLine(t)]
    ensures Runs(TypedLine(t), behind, objs)
    ensures !TooBig(|Records(objs)|) && Carries(Packet(Records(objs)), objs, slack)
  {
    TextFits(t, objs);
    LineTyped(t, objs, end);
    LineRuns(t, objs, behind);
    PacketCarries(objs, slack);
  }

  lemma LineTyped(t: seq<byte>, objs: seq<Obj>, end: byte)
    requires SpellsAll(t, objs) && |t| + 6 <= LineEditor.CMD_BUFF_SZ && LineEditor.EndsLine(end)
    ensures LineEditor.Lines(LineEditor.Waiting, [LineEditor.DOLLAR] + (Dispatch.TX + t) + [end]) == [TypedLine(t)]
  {
    SpelledPlain(t, objs);
    forall i | 0 <= i < |Dispatch.TX + t| ensures LineEditor.Plain((Dispatch.TX + t)[i]) {
      assert i >= 3 ==> (Dispatch.TX + t)[i] == t[i - 3];
    }
    LineEditor.PlainLine(Dispatch.TX + t, end);
  }

  lemma LineRuns(t: seq<byte>, objs: seq<Obj>, behind: UpdateGate.Memory)
    requires ParseText(t) == Some(objs) && t != [] && t[0] == SPACE && |t| + 6 <= LineEditor.CMD_BUFF_SZ
    ensures UpdateGate.Shaped(TypedLine(t)) && Runs(TypedLine(t), behind, objs)
  {
    var c := LineIsTx(t, behind);
    RunIsParse(c.rest, c.len);
    AcceptedTop(c.rest, c.len, objs);
  }

  /** A text whose records the send buffer has room for leaves room in the line, too. */
  lemma TextFits(t: seq<byte>, objs: seq<Obj>)
    requires ParseText(t) == Some(objs) && |Records(objs)| <= TX_BUFF
    ensures SpellsAll(t, objs) && objs != [] && t != [] && t[0] == SPACE && |t| + 6 <= LineEditor.CMD_BUFF_SZ
  {
    ParseIffSpells(t, objs);
    TextLength(t, objs);
    RecordsLength(objs);
  }
}
