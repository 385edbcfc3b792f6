/** `$RX`: the downlink answer printed as lines of hexadecimal text. */
module RxReport {
  import opened Bytes
  import opened SipfObject

  const OUT_BUFF: nat := 4096

  /** "OK", "NG" and the complaint about parameters, each with its line end. */
  const OK_TEXT: seq<byte> := [0x4f, 0x4b, CR, LF]
  const NG_TEXT: seq<byte> := [0x4e, 0x47, CR, LF]
  const ILLEGAL_TEXT: seq<byte> :=
    [0x49, 0x4c, 0x4c, 0x49, 0x47, 0x41, 0x4c, SPACE, 0x50, 0x41, 0x52, 0x41, 0x4d, 0x45, 0x54, 0x45, 0x52, CR, LF]
    + NG_TEXT

  datatype Report = Report(otid: seq<byte>, sent: seq<byte>, received: seq<byte>, remains: byte, objs: seq<Obj>)

  /** Tag, type, length and value of one object. */
  function Line(o: Obj): (t: seq<byte>)
    requires |o.value| <= 255
    ensures |t| == 11 + 2 * |o.value|
  {
    Hex(o.tag) + [SPACE] + Hex(o.typ) + [SPACE] + Hex(|o.value|) + [SPACE] + HexText(o.value) + CRLF
  }

  function Lines(objs: seq<Obj>): seq<byte>
    requires Short(objs)
  {
    if objs == [] then [] else Line(objs[0]) + Lines(objs[1..])
  }

  /** One line of digits. */
  function FieldText(bs: seq<byte>): (t: seq<byte>)
    ensures |t| == 2 * |bs| + 2
  {
    HexText(bs) + CRLF
  }

  /** Everything in front of the object lines. */
  function Head(otid: seq<byte>, sent: seq<byte>, received: seq<byte>, remains: byte, qty: byte): seq<byte> {
    FieldText(otid) + FieldText(sent) + FieldText(received) + FieldText([remains]) + FieldText([qty])
  }

  function Text(r: Report): seq<byte>
    requires Short(r.objs) && |r.objs| <= 255
  {
    Head(r.otid, r.sent, r.received, r.remains, |r.objs|) + Lines(r.objs) + OK_TEXT
  }

  predicate Shaped(r: Report) {
    |r.otid| == 16 && |r.sent| == 8 && |r.received| == 8 && |r.objs| <= 255 && Short(r.objs)
  }

  lemma {:induction false} LinesLength(objs: seq<Obj>)
    requires Short(objs)
    ensures |Lines(objs)| == 11 * |objs| + 2 * ValueBytes(objs)
  {
    if objs != [] {
      LinesLength(objs[1..]);
    }
  }

  /** The size of the report, and when it fits the output buffer with its NUL. */
  lemma TextLength(r: Report)
    requires Shaped(r)
    ensures |Text(r)| == 82 + 11 * |r.objs| + 2 * ValueBytes(r.objs)
    ensures |Text(r)| == 82 + 5 * |r.objs| + 2 * |Records(r.objs)|
    ensures |Text(r)| + 1 <= OUT_BUFF <==> 5 * |r.objs| + 2 * |Records(r.objs)| <= 4013
  {
    LinesLength(r.objs);
    RecordsLength(r.objs);
  }

  // ---- Reading a report back --------------------------------------------------------

  function UnHex(t: seq<byte>): Option<seq<byte>> {
    if t == [] then Some([])
    else if |t| == 1 || PairValue(t[0], t[1]).None? then None
    else
      match UnHex(t[2..])
      case None => None
      case Some(bs) => Some([PairValue(t[0], t[1]).value] + bs)
  }

  lemma {:induction false} UnHexText(bs: seq<byte>)
    ensures UnHex(HexText(bs)) == Some(bs)
  {
    if bs != [] {
      UnHexText(bs[1..]);
      assert HexText(bs)[2..] == HexText(bs[1..]);
      assert [bs[0]] + bs[1..] == bs;
    }
  }

  /** A field of `n` bytes and its line end; what follows them. */
  function Field(t: seq<byte>, n: nat): Option<(seq<byte>, seq<byte>)> {
    if |t| < 2 * n + 2 || t[2 * n..2 * n + 2] != CRLF then None
    else
      match UnHex(t[..2 * n])
      case None => None
      case Some(bs) => Some((bs, t[2 * n + 2..]))
  }

  lemma FieldRead(bs: seq<byte>, rest: seq<byte>)
    ensures Field(FieldText(bs) + rest, |bs|) == Some((bs, rest))
  {
    var t, n := FieldText(bs) + rest, |bs|;
    UnHexText(bs);
    assert t[..2 * n] == HexText(bs) && t[2 * n..2 * n + 2] == CRLF && t[2 * n + 2..] == rest;
  }

  /** The first `n` object lines and the closing OK. */
  function ReadLines(t: seq<byte>, n: nat): Option<seq<Obj>>
    decreases n, t
  {
    if n == 0 then (if t == OK_TEXT then Some([]) else None)
    else if |t| < 9 || t[2] != SPACE || t[5] != SPACE || t[8] != SPACE then None
    else if PairValue(t[0], t[1]).None? || PairValue(t[3], t[4]).None? || PairValue(t[6], t[7]).None? then None
    else
      match Field(t[9..], PairValue(t[6], t[7]).value)
      case None => None
      case Some((value, rest)) =>
        match ReadLines(rest, n - 1)
        case None => None
        case Some(os) => Some([Obj(PairValue(t[3], t[4]).value, PairValue(t[0], t[1]).value, value)] + os)
  }

  lemma {:induction false} LinesRead(objs: seq<Obj>)
    requires Short(objs)
    ensures ReadLines(Lines(objs) + OK_TEXT, |objs|) == Some(objs)
    decreases |objs|
  {
    if objs == [] {
      assert Lines(objs) + OK_TEXT == OK_TEXT;
    } else {
      var o, rest := objs[0], Lines(objs[1..]) + OK_TEXT;
      LinesRead(objs[1..]);
      Rejoin(Line(o), Lines(objs[1..]), OK_TEXT);
      LineRead(Line(o) + rest, |objs|, o, rest, objs[1..]);
      assert [o] + objs[1..] == objs;
    }
  }

  lemma LineThenRest(o: Obj, rest: seq<byte>)
    requires |o.value| <= 255
    ensures var t := Line(o) + rest;
            && |t| >= 9 && t[2] == SPACE && t[5] == SPACE && t[8] == SPACE
            && PairValue(t[0], t[1]) == Some(o.tag) && PairValue(t[3], t[4]) == Some(o.typ)
            && PairValue(t[6], t[7]) == Some(|o.value|)
            && Field(t[9..], |o.value|) == Some((o.value, rest))
  {
    var tail := FieldText(o.value) + rest;
    var head := Hex(o.tag) + [SPACE] + Hex(o.typ) + [SPACE] + Hex(|o.value|) + [SPACE];
    Rejoin(head, HexText(o.value), CRLF);
    Rejoin(head, FieldText(o.value), rest);
    LineHead(o, tail);
    FieldRead(o.value, rest);
  }

  lemma LineRead(t: seq<byte>, n: nat, o: Obj, rest: seq<byte>, os: seq<Obj>)
    requires n > 0 && |o.value| <= 255 && t == Line(o) + rest && ReadLines(rest, n - 1) == Some(os)
    ensures ReadLines(t, n) == Some([o] + os)
  {
    LineThenRest(o, rest);
    ReadOne(t, n, o, rest, os);
  }

  lemma ReadOne(t: seq<byte>, n: nat, o: Obj, rest: seq<byte>, os: seq<Obj>)
    requires n > 0 && |o.value| <= 255
    requires |t| >= 9 && t[2] == SPACE && t[5] == SPACE && t[8] == SPACE
    requires PairValue(t[0], t[1]) == Some(o.tag) && PairValue(t[3], t[4]) == Some(o.typ)
    requires PairValue(t[6], t[7]) == Some(|o.value|)
    requires Field(t[9..], |o.value|) == Some((o.value, rest)) && ReadLines(rest, n - 1) == Some(os)
    ensures ReadLines(t, n) == Some([o] + os)
  {
  }

  lemma LineHead(o: Obj, tail: seq<byte>)
    requires |o.value| <= 255
    ensures var t := Hex(o.tag) + [SPACE] + Hex(o.typ) + [SPACE] + Hex(|o.value|) + [SPACE] + tail;
            && |t| >= 9 && t[2] == SPACE && t[5] == SPACE && t[8] == SPACE && t[9..] == tail
            && PairValue(t[0], t[1]) == Some(o.tag) && PairValue(t[3], t[4]) == Some(o.typ)
            && PairValue(t[6], t[7]) == Some(|o.value|)
  {
    var a, b, c := Hex(o.tag), Hex(o.typ), Hex(|o.value|);
    var t := a + [SPACE] + b + [SPACE] + c + [SPACE] + tail;
    assert t[0] == a[0] && t[1] == a[1] && t[3] == b[0] && t[4] == b[1] && t[6] == c[0] && t[7] == c[1];
  }

  function ReadReport(t: seq<byte>): Option<Report> {
    match Field(t, 16)
    case None => None
    case Some((otid, t1)) =>
      match Field(t1, 8)
      case None => None
      case Some((sent, t2)) =>
        match Field(t2, 8)
        case None => None
        case Some((received, t3)) =>
          match Field(t3, 1)
          case None => None
          case Some((remains, t4)) =>
            match Field(t4, 1)
            case None => None
            case Some((qty, t5)) =>
              if |remains| != 1 || |qty| != 1 then None
              else
                match ReadLines(t5, qty[0])
                case None => None
                case Some(objs) => Some(Report(otid, sent, received, remains[0], objs))
  }

  lemma HeadFirst(r: Report, rest: seq<byte>)
    requires Shaped(r) && rest == Lines(r.objs) + OK_TEXT
    ensures Text(r) ==
            FieldText(r.otid) + (FieldText(r.sent) + (FieldText(r.received) +
              (FieldText([r.remains]) + (FieldText([|r.objs|]) + rest))))
  {
    Rejoin(Head(r.otid, r.sent, r.received, r.remains, |r.objs|), Lines(r.objs), OK_TEXT);
    var a, b, c := FieldText(r.otid), FieldText(r.sent), FieldText(r.received);
    var d, e := FieldText([r.remains]), FieldText([|r.objs|]);
    Rejoin(a + b + c + d, e, rest);
    Rejoin(a + b + c, d, e + rest);
    Rejoin(a + b, c, d + (e + rest));
    Rejoin(a, b, c + (d + (e + rest)));
  }

  /** The printed lines determine everything that was reported. */
  lemma ReportReadBack(r: Report)
    requires Shaped(r)
    ensures ReadReport(Text(r)) == Some(r)
  {
    var qty: byte := |r.objs|;
    var t5 := Lines(r.objs) + OK_TEXT;
    var t4 := FieldText([qty]) + t5;
    var t3 := FieldText([r.remains]) + t4;
    var t2 := FieldText(r.received) + t3;
    var t1 := FieldText(r.sent) + t2;
    HeadFirst(r, t5);
    FieldRead(r.otid, t1);
    FieldRead(r.sent, t2);
    FieldRead(r.received, t3);
    FieldRead([r.remains], t4);
    FieldRead([qty], t5);
    LinesRead(r.objs);
  }

  // ---- The command ------------------------------------------------------------------

  /** Room for a whole record behind every start, whatever its length byte says. */
  predicate InBounds(payload: seq<byte>, starts: seq<nat>) {
    forall i :: 0 <= i < |starts| ==> starts[i] + 258 <= |payload|
  }

  function ObjsAt(payload: seq<byte>, starts: seq<nat>): (objs: seq<Obj>)
    requires InBounds(payload, starts)
    ensures |objs| == |starts| && Short(objs)
  {
    seq(|starts|, i requires 0 <= i < |starts| => ObjAt(payload[starts[i]..]))
  }

  /** What the command prints for an argument of `inLen` characters and the answer `down`. */
  function Printed(inLen: nat, down: Downloaded, payload: seq<byte>): seq<byte>
    requires down.Down? ==> |down.starts| <= 255 && InBounds(payload, down.starts)
  {
    if inLen != 0 then ILLEGAL_TEXT
    else match down
      case DownFailed(code) => NG_TEXT
      case Down(otid, sent, received, remains, starts) =>
        if starts == [] then OK_TEXT else Text(Report(otid, sent, received, remains, ObjsAt(payload, starts)))
  }

  lemma {:induction false} WalkInBounds(payload: seq<byte>, idx: nat, end: int, k: nat)
    requires idx + 258 <= |payload| && end + 258 <= |payload| && k < OBJ_MAX_CNT
    ensures InBounds(payload, Walk(payload, idx, end, k))
    decreases |payload| - idx
  {
    var next := idx + 3 + payload[idx + 2];
    if k + 1 < OBJ_MAX_CNT && next < end {
      WalkInBounds(payload, next, end, k + 1);
      assert Walk(payload, idx, end, k) == [idx] + Walk(payload, next, end, k + 1);
    }
  }

  /** `sprintf` of a text at `idx`, with its NUL. */
  method PutText(out: array<byte>, idx: nat, t: seq<byte>) returns (next: nat)
    requires idx + |t| < out.Length
    modifies out
    ensures next == idx + |t| && out[..next] == old(out[..idx]) + t && out[next] == NUL
  {
    forall k | 0 <= k < |t| {
      out[idx + k] := t[k];
    }
    next := idx + |t|;
    out[next] := NUL;
  }

  method PutHexes(out: array<byte>, idx: nat, bs: seq<byte>) returns (next: nat)
    requires idx + 2 * |bs| < out.Length
    modifies out
    ensures next == idx + 2 * |bs| && out[..next] == old(out[..idx]) + HexText(bs)
  {
    next := idx;
    var i := 0;
    assert HexText([]) == [];
    while i < |bs|
      invariant 0 <= i <= |bs| && next == idx + 2 * i
      invariant out[..next] == old(out[..idx]) + HexText(bs[..i])
    {
      HexTextAppend(bs[..i], [bs[i]]);
      assert bs[..i] + [bs[i]] == bs[..i + 1] && HexText([bs[i]]) == Hex(bs[i]) + HexText([]);
      ghost var before := out[..next];
      next := PutText(out, next, Hex(bs[i]));
      assert out[..next] == before + Hex(bs[i]);
      i := i + 1;
    }
    assert bs[..i] == bs;
  }

  method PutField(out: array<byte>, idx: nat, bs: seq<byte>) returns (next: nat)
    requires idx + 2 * |bs| + 2 < out.Length
    modifies out
    ensures next == idx + 2 * |bs| + 2 && out[..next] == old(out[..idx]) + FieldText(bs)
  {
    ghost var before := out[..idx];
    next := PutHexes(out, idx, bs);
    next := PutText(out, next, CRLF);
    Rejoin(before, HexText(bs), CRLF);
  }

  method PutLine(out: array<byte>, idx: nat, typ: byte, tag: byte, value: seq<byte>) returns (next: nat)
    requires |value| <= 255 && idx + 11 + 2 * |value| < out.Length
    modifies out
    ensures next == idx + 11 + 2 * |value| && out[..next] == old(out[..idx]) + Line(Obj(typ, tag, value))
  {
    ghost var before := out[..idx];
    var head := Hex(tag) + [SPACE] + Hex(typ) + [SPACE] + Hex(|value|) + [SPACE];
    next := PutText(out, idx, head);
    next := PutField(out, next, value);
    Rejoin(before, head, FieldText(value));
    Rejoin(head, HexText(value), CRLF);
  }

  lemma LinesCons(objs: seq<Obj>, o: Obj, rest: seq<Obj>)
    requires objs == [o] + rest && Short(objs)
    ensures Short(rest) && |o.value| <= 255 && Lines(objs) == Line(o) + Lines(rest)
  {
    assert objs[0] == o && objs[1..] == rest;
    assert forall i :: 0 <= i < |rest| ==> rest[i] == objs[i + 1];
  }

  lemma NothingAround(a: seq<byte>)
    ensures a + [] == a == [] + a
  {
  }

  lemma {:induction false} LinesAppend(objs: seq<Obj>, o: Obj)
    requires Short(objs) && |o.value| <= 255
    ensures Lines(objs + [o]) == Lines(objs) + Line(o)
  {
    if objs == [] {
      LinesCons(objs + [o], o, []);
      NothingAround(Line(o));
    } else {
      var first, rest := objs[0], objs[1..];
      LinesCons(objs, first, rest);
      LinesAppend(rest, o);
      Rejoin([first], rest, [o]);
      LinesCons(objs + [o], first, rest + [o]);
      Rejoin(Line(first), Lines(rest), Line(o));
    }
  }

  lemma {:induction false} LinesPrefix(objs: seq<Obj>, i: nat)
    requires Short(objs) && i <= |objs|
    ensures |Lines(objs[..i])| <= |Lines(objs)|
    decreases |objs| - i
  {
    if i == |objs| {
      assert objs[..i] == objs;
    } else {
      assert objs[..i] + [objs[i]] == objs[..i + 1];
      LinesAppend(objs[..i], objs[i]);
      LinesPrefix(objs, i + 1);
    }
  }

  lemma LinesStep(objs: seq<Obj>, i: nat)
    requires Short(objs) && i < |objs|
    ensures Lines(objs[..i + 1]) == Lines(objs[..i]) + Line(objs[i])
    ensures |Lines(objs[..i])| + |Line(objs[i])| <= |Lines(objs)|
  {
    assert objs[..i] + [objs[i]] == objs[..i + 1];
    LinesAppend(objs[..i], objs[i]);
    LinesPrefix(objs, i + 1);
  }

  /** Parses the object at `at` and prints its line. */
  method PutObject(out: array<byte>, idx: nat, body: seq<byte>, at: nat, work: array<byte>) returns (next: nat)
    requires out != work && work.Length == 256
    requires at + 258 <= |body|
    requires idx + |Line(ObjAt(body[at..]))| < out.Length
    modifies out, work
    ensures next == idx + |Line(ObjAt(body[at..]))|
    ensures out[..next] == old(out[..idx]) + Line(ObjAt(body[at..]))
  {
    var ret, typ, tag, valueLen := ObjectParse(body[at..], 256, work);
    next := PutLine(out, idx, typ, tag, work[..valueLen]);
  }

  /** Prints the objects that start at `starts`. */
  method PutLines(out: array<byte>, idx: nat, payload: seq<byte>, starts: seq<nat>, ghost objs: seq<Obj>,
                  work: array<byte>)
    returns (next: nat)
    requires out != work && work.Length == 256
    requires InBounds(payload, starts) && objs == ObjsAt(payload, starts)
    requires idx + |Lines(objs)| < out.Length
    modifies out, work
    ensures next == idx + |Lines(objs)|
    ensures out[..next] == old(out[..idx]) + Lines(objs)
  {
    ghost var front := out[..idx];
    next := idx;
    var i := 0;
    assert objs[..0] == [] && front + [] == front;
    while i < |starts|
      invariant 0 <= i <= |starts|
      invariant next == idx + |Lines(objs[..i])| < out.Length
      invariant out[..next] == front + Lines(objs[..i])
    {
      LinesStep(objs, i);
      Rejoin(front, Lines(objs[..i]), Line(objs[i]));
      next := PutObject(out, next, payload, starts[i], work);
      i := i + 1;
    }
    assert objs[..i] == objs;
  }

  method PutHead(out: array<byte>, otid: seq<byte>, sent: seq<byte>, received: seq<byte>, remains: byte, qty: byte)
    returns (len: nat)
    requires |Head(otid, sent, received, remains, qty)| < out.Length
    modifies out
    ensures len == |Head(otid, sent, received, remains, qty)|
    ensures out[..len] == Head(otid, sent, received, remains, qty)
  {
    len := PutField(out, 0, otid);
    assert out[..len] == [] + FieldText(otid) == FieldText(otid);
    len := PutField(out, len, sent);
    len := PutField(out, len, received);
    len := PutField(out, len, [remains]);
    len := PutField(out, len, [qty]);
  }

  method PutReport(out: array<byte>, payload: seq<byte>, starts: seq<nat>, ghost objs: seq<Obj>, work: array<byte>,
                   otid: seq<byte>, sent: seq<byte>, received: seq<byte>, remains: byte) returns (len: nat)
    requires out != work && work.Length == 256 && |starts| <= 255
    requires InBounds(payload, starts) && objs == ObjsAt(payload, starts)
    requires |Text(Report(otid, sent, received, remains, objs))| < out.Length
    modifies out, work
    ensures len < out.Length && out[len] == NUL
    ensures out[..len] == Text(Report(otid, sent, received, remains, objs))
  {
    len := PutHead(out, otid, sent, received, remains, |starts|);
    len := PutLines(out, len, payload, starts, objs, work);
    len := PutText(out, len, OK_TEXT);
  }

  /** `sprintf` of a whole response. */
  method Respond(out: array<byte>, t: seq<byte>) returns (len: nat)
    requires |t| < out.Length
    modifies out
    ensures len == |t| && out[..len] == t && out[len] == NUL
  {
    len := PutText(out, 0, t);
    assert out[..len] == [] + t;
  }

  /**
   * The command. The output array has more cells than the program's 4096, because the program prints
   * whatever the answer holds; `AnswerFitsIff` says when the first 4096 are enough.
   */
  method CmdRx(inLen: nat, request: int, status: HttpStatus, body: seq<byte>, contentLength: int,
               starts: array<nat>, work: array<byte>, out: array<byte>) returns (len: nat)
    requires |body| >= REACH
    requires starts.Length == OBJ_MAX_CNT && work.Length == 256 && request > -256 && out != work
    requires out.Length > MOST_PRINTED
    modifies starts, work, out
    ensures len < out.Length && out[len] == NUL
    ensures out[..len] == PrintedAnswer(inLen, request, status, body, contentLength)
  {
    AnswerInBounds(request, status, body, contentLength);
    AnswerBounded(inLen, request, status, body, contentLength);
    if inLen != 0 {
      len := Respond(out, ILLEGAL_TEXT);
      return;
    }
    var ret, otid, sent, received, remains, objqty := ObjDown(request, status, body, contentLength, starts);
    len := PrintOutcome(ret % 256, otid, sent, received, remains, objqty, starts, body[12..], work, out,
                        ReadDown(request, status, body, contentLength));
  }

  /** What is printed for the results of the request, of which the code keeps one byte. */
  method PrintOutcome(err: byte, otid: seq<byte>, sent: seq<byte>, received: seq<byte>, remains: byte,
                      objqty: byte, starts: array<nat>, payload: seq<byte>, work: array<byte>, out: array<byte>,
                      ghost down: Downloaded)
    returns (len: nat)
    requires starts.Length == OBJ_MAX_CNT && work.Length == 256 && out != work && out.Length > MOST_PRINTED
    requires match down
             case DownFailed(_) => err != 0
             case Down(o, s, r, m, offsets) =>
               && err == 0 && otid == o && sent == s && received == r && remains == m
               && objqty == |offsets| && starts[..objqty] == offsets && InBounds(payload, offsets)
    requires |Printed(0, down, payload)| < out.Length
    modifies work, out
    ensures len < out.Length && out[len] == NUL && out[..len] == Printed(0, down, payload)
  {
    if err != 0 {
      len := Respond(out, NG_TEXT);
    } else if objqty == 0 {
      len := Respond(out, OK_TEXT);
    } else {
      var offsets := starts[..objqty];
      len := PutReport(out, payload, offsets, ObjsAt(payload, offsets), work, otid, sent, received, remains);
    }
  }

  function PrintedAnswer(inLen: nat, request: int, status: HttpStatus, body: seq<byte>, contentLength: int): seq<byte>
    requires |body| >= REACH
  {
    AnswerInBounds(request, status, body, contentLength);
    Printed(inLen, ReadDown(request, status, body, contentLength), body[12..])
  }

  /** The offsets of every answer leave room for whole records behind them. */
  lemma AnswerInBounds(request: int, status: HttpStatus, body: seq<byte>, contentLength: int)
    requires |body| >= REACH
    ensures var down := ReadDown(request, status, body, contentLength);
            down.Down? ==> InBounds(body[12..], down.starts) && |down.starts| <= 255
  {
    var down := ReadDown(request, status, body, contentLength);
    if down.Down? && contentLength != 12 + FIRST_OBJ {
      WalkInBounds(body[12..], FIRST_OBJ, contentLength - 12, 0);
    }
  }

  // ---- The report, character by character -----------------------------------------------

  /** An argument is refused, a failed request gives `NG`, an answer without objects `OK`. */
  lemma ShortAnswers(inLen: nat, request: int, status: HttpStatus, body: seq<byte>, contentLength: int)
    requires |body| >= REACH
    ensures var t, down := PrintedAnswer(inLen, request, status, body, contentLength),
                           ReadDown(request, status, body, contentLength);
            && (inLen != 0 ==> |t| == 23 && t[..7] == [0x49, 0x4c, 0x4c, 0x49, 0x47, 0x41, 0x4c]
                               && t[19..] == [0x4e, 0x47, 0x0d, 0x0a])
            && (inLen == 0 && down.DownFailed? ==> t == [0x4e, 0x47, 0x0d, 0x0a])
            && (inLen == 0 && down.Down? && contentLength == 47 ==> t == [0x4f, 0x4b, 0x0d, 0x0a])
  {
    AcceptedIff(request, status, body, contentLength);
  }

  /** One object's line, from the bytes at which it starts: the tag, the type, the length, and then the value. */
  lemma LineOfBytes(raw: seq<byte>)
    requires |raw| >= 3 && 3 + raw[2] <= |raw|
    ensures Line(ObjAt(raw)) ==
            Hex(raw[1]) + [0x20] + Hex(raw[0]) + [0x20] + Hex(raw[2]) + [0x20] + HexText(raw[3..3 + raw[2]])
            + [0x0d, 0x0a]
  {
  }

  /** The lines above the objects, from the body: identifier, time of sending, time of reception, and two numbers. */
  lemma HeadOfBytes(request: int, status: HttpStatus, body: seq<byte>, contentLength: int)
    requires |body| >= REACH && ReadDown(request, status, body, contentLength).Down? && contentLength != 47
    ensures var t, n := PrintedAnswer(0, request, status, body, contentLength),
                        |ReadDown(request, status, body, contentLength).starts|;
            && |t| >= 82 && t[..32] == HexText(body[13..29]) && t[34..50] == HexText(body[29..37])
            && t[52..68] == HexText(body[37..45]) && t[70..72] == Hex(body[45]) && n <= 255 && t[74..76] == Hex(n)
            && t[|t| - 4..] == [0x4f, 0x4b, 0x0d, 0x0a]
  {
    AcceptedIff(request, status, body, contentLength);
    AnswerInBounds(request, status, body, contentLength);
    var down := ReadDown(request, status, body, contentLength);
    HeadOfReport(Report(down.otid, down.sent, down.received, down.remains, ObjsAt(body[12..], down.starts)));
  }

  lemma HeadOfReport(r: Report)
    requires Shaped(r)
    ensures var t, n: byte := Text(r), |r.objs|;
            && |t| >= 82 && t[..32] == HexText(r.otid)
            && t[34..50] == HexText(r.sent) && t[52..68] == HexText(r.received)
            && t[70..72] == Hex(r.remains) && t[74..76] == Hex(n) && t[|t| - 4..] == [0x4f, 0x4b, 0x0d, 0x0a]
  {
    var n: byte := |r.objs|;
    var a, b, c := FieldText(r.otid), FieldText(r.sent), FieldText(r.received);
    var d, e := FieldText([r.remains]), FieldText([n]);
    var t, rest := Text(r), Lines(r.objs) + OK_TEXT;
    HeadFirst(r, rest);
    OneHex(r.remains);
    OneHex(n);
    var t1 := Leading(a, b + (c + (d + (e + rest))), 32);
    var t2 := Leading(b, c + (d + (e + rest)), 16);
    var t3 := Leading(c, d + (e + rest), 16);
    var t4 := Leading(d, e + rest, 2);
    var t5 := Leading(e, rest, 2);
    assert t1 == t;
    Behind(t, t2, 34, 16);
    Behind(t2, t3, 18, 16);
    Behind(t, t3, 52, 16);
    Behind(t, t4, 70, 2);
    Behind(t, t5, 74, 2);
  }

  lemma Leading(a: seq<byte>, rest: seq<byte>, n: nat) returns (t: seq<byte>)
    requires n <= |a|
    ensures t == a + rest && t[..n] == a[..n] && t[|a|..] == rest
  {
    t := a + rest;
  }

  lemma Behind(t: seq<byte>, u: seq<byte>, at: nat, n: nat)
    requires at <= |t| && t[at..] == u && n <= |u|
    ensures t[at..at + n] == u[..n]
  {
  }

  lemma OneHex(b: byte)
    ensures HexText([b]) == Hex(b) && FieldText([b])[..2] == Hex(b)
  {
    assert [b][1..] == [];
  }

  // ---- How much is printed ----------------------------------------------------------

  /** No answer makes the command print more. */
  const MOST_PRINTED: nat := 4799

  lemma ObjsAtFirst(payload: seq<byte>, idx: nat, rest: seq<nat>)
    requires InBounds(payload, [idx] + rest)
    ensures InBounds(payload, rest) && idx + 258 <= |payload|
    ensures Records(ObjsAt(payload, [idx] + rest)) == Record(ObjAt(payload[idx..])) + Records(ObjsAt(payload, rest))
  {
    var starts := [idx] + rest;
    assert starts[0] == idx;
    forall i | 0 <= i < |rest| ensures rest[i] == starts[i + 1] {}
    assert ObjsAt(payload, starts)[1..] == ObjsAt(payload, rest);
  }

  /** The records that the walk finds lie one behind the other, and only the last may pass the end. */
  lemma {:induction false} WalkSpan(payload: seq<byte>, idx: nat, end: int, k: nat)
    requires idx + 258 <= |payload| && end + 258 <= |payload| && k < OBJ_MAX_CNT
    requires InBounds(payload, Walk(payload, idx, end, k))
    ensures |Records(ObjsAt(payload, Walk(payload, idx, end, k)))| <= (if end > idx then end - idx else 1) + 257
    decreases |payload| - idx
  {
    var next := idx + 3 + payload[idx + 2];
    var w := Walk(payload, idx, end, k);
    if k + 1 < OBJ_MAX_CNT && next < end {
      var rest := Walk(payload, next, end, k + 1);
      assert w == [idx] + rest;
      ObjsAtFirst(payload, idx, rest);
      WalkSpan(payload, next, end, k + 1);
    } else {
      assert w == [idx] + [];
      ObjsAtFirst(payload, idx, []);
      assert Records(ObjsAt(payload, [])) == [];
    }
  }

  /** The objects that the command prints. */
  function PrintedObjs(inLen: nat, request: int, status: HttpStatus, body: seq<byte>, contentLength: int): seq<Obj>
    requires |body| >= REACH
  {
    AnswerInBounds(request, status, body, contentLength);
    var down := ReadDown(request, status, body, contentLength);
    if inLen != 0 || down.DownFailed? then [] else ObjsAt(body[12..], down.starts)
  }

  /** What is printed has 82 + 5n + 2S characters for n objects of S bytes, and few when there are none. */
  lemma PrintedLength(inLen: nat, request: int, status: HttpStatus, body: seq<byte>, contentLength: int)
    requires |body| >= REACH
    ensures var objs, t := PrintedObjs(inLen, request, status, body, contentLength),
                           PrintedAnswer(inLen, request, status, body, contentLength);
            if objs == [] then |t| <= 24 else |t| == 82 + 5 * |objs| + 2 * |Records(objs)|
  {
    AnswerInBounds(request, status, body, contentLength);
    match ReadDown(request, status, body, contentLength)
    case DownFailed(_) =>
    case Down(otid, sent, received, remains, starts) =>
      if inLen == 0 && starts != [] {
        TextLength(Report(otid, sent, received, remains, ObjsAt(body[12..], starts)));
      }
  }

  lemma AnswerBounded(inLen: nat, request: int, status: HttpStatus, body: seq<byte>, contentLength: int)
    requires |body| >= REACH
    ensures |PrintedAnswer(inLen, request, status, body, contentLength)| <= MOST_PRINTED
  {
    AnswerInBounds(request, status, body, contentLength);
    PrintedLength(inLen, request, status, body, contentLength);
    if PrintedObjs(inLen, request, status, body, contentLength) != [] {
      WalkSpan(body[12..], FIRST_OBJ, contentLength - 12, 0);
    }
  }

  /** The 4096-byte output holds what is printed, with its NUL, exactly when the objects are this few and short. */
  lemma AnswerFitsIff(inLen: nat, request: int, status: HttpStatus, body: seq<byte>, contentLength: int)
    requires |body| >= REACH
    ensures var objs := PrintedObjs(inLen, request, status, body, contentLength);
            |PrintedAnswer(inLen, request, status, body, contentLength)| + 1 <= OUT_BUFF <==>
            5 * |objs| + 2 * |Records(objs)| <= 4013
  {
    PrintedLength(inLen, request, status, body, contentLength);
    assert Records([]) == [];
  }

  /** The objects printed for the answer that carries `objs`. */
  lemma PrintedAreCarried(header: seq<byte>, otid: seq<byte>, sent: seq<byte>, received: seq<byte>, remains: byte,
                          reserved: byte, objs: seq<Obj>, slack: seq<byte>)
    requires |header| == 11 && |otid| == 16 && |sent| == 8 && |received| == 8 && |slack| >= REACH
    requires objs != [] && Short(objs) && 47 + |Records(objs)| < 12 + BUFF_SZ
    ensures var b := DownBody(header, otid, sent, received, remains, reserved, objs);
            && |b| == 47 + |Records(objs)|
            && PrintedObjs(0, 0, StatusOk, b + slack, |b|) == objs[..Min(|objs|, OBJ_MAX_CNT)]
  {
    var b := DownBody(header, otid, sent, received, remains, reserved, objs);
    DownBodyFields(header, otid, sent, received, remains, reserved, objs, slack);
    DownRoundTrip(header, otid, sent, received, remains, reserved, objs, slack);
    AnswerInBounds(0, StatusOk, b + slack, |b|);
    HeldObjects((b + slack)[12..], objs);
  }

  lemma {:induction false} EvenValues(objs: seq<Obj>, v: nat)
    requires forall i :: 0 <= i < |objs| ==> |objs[i].value| == v
    ensures ValueBytes(objs) == v * |objs|
  {
    if objs != [] {
      EvenValues(objs[1..], v);
    }
  }

  lemma {:induction false} ValueBytesAppend(a: seq<Obj>, b: seq<Obj>)
    ensures ValueBytes(a + b) == ValueBytes(a) + ValueBytes(b)
  {
    if a == [] {
      assert a + b == b;
    } else {
      assert (a + b)[0] == a[0] && (a + b)[1..] == a[1..] + b;
      ValueBytesAppend(a[1..], b);
    }
  }

  /**
   * An answer that the response buffer holds, behind a header of up to 83 bytes, and whose report does not
   * fit: 95 objects of three bytes and 160 of two.
   */
  lemma LongAnswer(header: seq<byte>, otid: seq<byte>, sent: seq<byte>, received: seq<byte>, remains: byte,
                   reserved: byte, threes: seq<Obj>, twos: seq<Obj>, slack: seq<byte>)
    requires |header| == 11 && |otid| == 16 && |sent| == 8 && |received| == 8 && |slack| >= REACH
    requires |threes| == 95 && forall i :: 0 <= i < |threes| ==> |threes[i].value| == 3
    requires |twos| == 160 && forall i :: 0 <= i < |twos| ==> |twos[i].value| == 2
    ensures var b := DownBody(header, otid, sent, received, remains, reserved, threes + twos);
            && 83 + |b| == BUFF_SZ && ReadDown(0, StatusOk, b + slack, |b|).Down?
            && |PrintedAnswer(0, 0, StatusOk, b + slack, |b|)| == 4097 > OUT_BUFF
  {
    var objs := threes + twos;
    EvenValues(threes, 3);
    EvenValues(twos, 2);
    ValueBytesAppend(threes, twos);
    RecordsLength(objs);
    LongReport(header, otid, sent, received, remains, reserved, objs, slack);
  }

  lemma LongReport(header: seq<byte>, otid: seq<byte>, sent: seq<byte>, received: seq<byte>, remains: byte,
                   reserved: byte, objs: seq<Obj>, slack: seq<byte>)
    requires |header| == 11 && |otid| == 16 && |sent| == 8 && |received| == 8 && |slack| >= REACH
    requires |objs| == OBJ_MAX_CNT && Short(objs) && |Records(objs)| == 1370
    ensures var b := DownBody(header, otid, sent, received, remains, reserved, objs);
            && |b| == 1417 && ReadDown(0, StatusOk, b + slack, |b|).Down?
            && |PrintedAnswer(0, 0, StatusOk, b + slack, |b|)| == 4097
  {
    var b := DownBody(header, otid, sent, received, remains, reserved, objs);
    PrintedAreCarried(header, otid, sent, received, remains, reserved, objs, slack);
    DownRoundTrip(header, otid, sent, received, remains, reserved, objs, slack);
    assert objs[..OBJ_MAX_CNT] == objs;
    PrintedLength(0, 0, StatusOk, b + slack, |b|);
  }

  /** From the objects in an answer to the lines printed and back: the first 255 of them survive. */
  lemma AnswerReadBack(header: seq<byte>, otid: seq<byte>, sent: seq<byte>, received: seq<byte>, remains: byte,
                       reserved: byte, objs: seq<Obj>, slack: seq<byte>)
    requires |header| == 11 && |otid| == 16 && |sent| == 8 && |received| == 8 && |slack| >= REACH
    requires objs != [] && Short(objs) && 47 + |Records(objs)| < 12 + BUFF_SZ
    ensures var b := DownBody(header, otid, sent, received, remains, reserved, objs);
            ReadReport(PrintedAnswer(0, 0, StatusOk, b + slack, |b|)) ==
            Some(Report(otid, sent, received, remains, objs[..Min(|objs|, OBJ_MAX_CNT)]))
  {
    var b := DownBody(header, otid, sent, received, remains, reserved, objs);
    DownBodyFields(header, otid, sent, received, remains, reserved, objs, slack);
    DownRoundTrip(header, otid, sent, received, remains, reserved, objs, slack);
    AnswerInBounds(0, StatusOk, b + slack, |b|);
    HeldObjects((b + slack)[12..], objs);
    ReportReadBack(Report(otid, sent, received, remains, objs[..Min(|objs|, OBJ_MAX_CNT)]));
  }

  /** The objects parsed at the starts are those whose records are held. */
  lemma HeldObjects(payload: seq<byte>, objs: seq<Obj>)
    requires Short(objs) && Holds(payload, FIRST_OBJ, FIRST_OBJ + |Records(objs)|, objs)
    requires InBounds(payload, Starts(objs, FIRST_OBJ)[..Min(|objs|, OBJ_MAX_CNT)])
    ensures ObjsAt(payload, Starts(objs, FIRST_OBJ)[..Min(|objs|, OBJ_MAX_CNT)]) == objs[..Min(|objs|, OBJ_MAX_CNT)]
  {
    var n := Min(|objs|, OBJ_MAX_CNT);
    var found := ObjsAt(payload, Starts(objs, FIRST_OBJ)[..n]);
    forall i | 0 <= i < n ensures found[i] == objs[..n][i] {
      ParseAtStart(payload, FIRST_OBJ, FIRST_OBJ + |Records(objs)|, objs, i);
    }
  }
}
