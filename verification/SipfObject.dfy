/** SIPF objects: their records on the wire, the uplink packet and the downlink walk. */
module SipfObject {
  import opened Bytes

  const OBJ_MAX_CNT: nat := 255
  const BUFF_SZ: nat := 1500

  const OBJECTS_UP: byte := 0x00
  const OBJECTS_DOWN: byte := 0x12

  const OBJ_TYPE_UINT8: byte := 0x00
  const OBJ_TYPE_INT8: byte := 0x01
  const OBJ_TYPE_UINT16: byte := 0x02
  const OBJ_TYPE_INT16: byte := 0x03
  const OBJ_TYPE_UINT32: byte := 0x04
  const OBJ_TYPE_INT32: byte := 0x05
  const OBJ_TYPE_UINT64: byte := 0x06
  const OBJ_TYPE_INT64: byte := 0x07
  const OBJ_TYPE_FLOAT32: byte := 0x08
  const OBJ_TYPE_FLOAT64: byte := 0x09
  const OBJ_TYPE_BIN: byte := 0x10
  const OBJ_TYPE_STR_UTF8: byte := 0x20

  datatype Obj = Obj(typ: byte, tag: byte, value: seq<byte>)

  /** Type, tag, length in one byte, value. */
  function Record(o: Obj): (r: seq<byte>)
    ensures |r| == 3 + |o.value|
  {
    [o.typ, o.tag, |o.value| % 256] + o.value
  }

  function Records(objs: seq<Obj>): seq<byte> {
    if objs == [] then [] else Record(objs[0]) + Records(objs[1..])
  }

  lemma {:induction false} RecordsAppend(a: seq<Obj>, b: seq<Obj>)
    ensures Records(a + b) == Records(a) + Records(b)
  {
    if a == [] {
      assert a + b == b;
    } else {
      RecordsAppend(a[1..], b);
      assert (a + b)[0] == a[0] && (a + b)[1..] == a[1..] + b;
      Rejoin(Record(a[0]), Records(a[1..]), Records(b));
    }
  }

  /** The length byte tells the whole truth. */
  predicate Short(objs: seq<Obj>) {
    forall i :: 0 <= i < |objs| ==> |objs[i].value| <= 255
  }

  function ValueBytes(objs: seq<Obj>): nat {
    if objs == [] then 0 else |objs[0].value| + ValueBytes(objs[1..])
  }

  lemma {:induction false} RecordsLength(objs: seq<Obj>)
    ensures |Records(objs)| == 3 * |objs| + ValueBytes(objs)
  {
    if objs != [] {
      RecordsLength(objs[1..]);
    }
  }

  // ---- Reading one record -----------------------------------------------------

  /** The object whose record starts at `raw[0]`. */
  function ObjAt(raw: seq<byte>): Obj
    requires |raw| >= 3 && 3 + raw[2] <= |raw|
  {
    Obj(raw[0], raw[1], raw[3..3 + raw[2]])
  }

  /** Copies the value into `value` and returns type, tag and length; -1 for an unusable `rawLen`. */
  method ObjectParse(raw: seq<byte>, rawLen: nat, value: array<byte>)
    returns (ret: int, typ: byte, tag: byte, valueLen: byte)
    requires 3 <= |raw| && 3 + raw[2] <= |raw| && raw[2] <= value.Length
    modifies value
    ensures rawLen < 4 || rawLen > 256 <==> ret == -1
    ensures ret == -1 ==> value[..] == old(value[..])
    ensures ret != -1 ==>
              && ret == 0 && valueLen == raw[2]
              && Obj(typ, tag, value[..valueLen]) == ObjAt(raw)
              && value[valueLen..] == old(value[valueLen..])
  {
    if rawLen < 4 || rawLen > 256 {
      return -1, 0, 0, 0;
    }
    typ := raw[0];
    tag := raw[1];
    valueLen := raw[2];
    forall i | 0 <= i < valueLen {
      value[i] := raw[3 + i];
    }
    assert value[..valueLen] == raw[3..3 + valueLen];
    ret := 0;
  }

  // ---- The downlink walk ----------------------------------------------------------

  /** Offsets of the objects from `idx` on, when `k` have been found already. */
  function Walk(payload: seq<byte>, idx: nat, end: int, k: nat): (s: seq<nat>)
    requires idx + 2 < |payload| && end + 2 <= |payload| && k < OBJ_MAX_CNT
    ensures 1 <= |s| <= OBJ_MAX_CNT - k && s[0] == idx
    decreases |payload| - idx
  {
    if k + 1 >= OBJ_MAX_CNT then [idx]
    else
      var next := idx + 3 + payload[idx + 2];
      if next >= end then [idx] else [idx] + Walk(payload, next, end, k + 1)
  }

  datatype HttpStatus = StatusOk | Unauthorized | OtherStatus

  datatype Downloaded =
    | DownFailed(code: int)
    | Down(otid: seq<byte>, sent: seq<byte>, received: seq<byte>, remains: byte, starts: seq<nat>)

  /** The offset of the first object in the payload. */
  const FIRST_OBJ: nat := 35

  /** No accepted answer makes the program read further behind the start of its body than this. */
  const REACH: nat := 12 + BUFF_SZ + 258

  /**
   * The answer read from an HTTP response; `request` is the result of the request itself. `body` is the
   * memory from the first byte of the body on, whatever part of it the response has filled.
   */
  function ReadDown(request: int, status: HttpStatus, body: seq<byte>, contentLength: int): Downloaded
    requires |body| >= REACH
  {
    if request < 0 then DownFailed(request)
    else if status == Unauthorized then DownFailed(-401)
    else if status != StatusOk then DownFailed(-1)
    else if contentLength < 12 || contentLength >= 12 + BUFF_SZ then DownFailed(-1)
    else if body[0] != OBJECTS_DOWN then DownFailed(-1)
    else
      var payload := body[12..];
      if payload[0] != 0x00 then DownFailed(-1)
      else
        Down(payload[1..17], payload[17..25], payload[25..33], payload[33],
             if contentLength == 12 + FIRST_OBJ then [] else Walk(payload, FIRST_OBJ, contentLength - 12, 0))
  }

  /** `starts[..objqty]` are the object offsets; the other results are copied out as they are met. */
  method ObjDown(request: int, status: HttpStatus, body: seq<byte>, contentLength: int, starts: array<nat>)
    returns (ret: int, otid: seq<byte>, sent: seq<byte>, received: seq<byte>, remains: byte, objqty: byte)
    requires |body| >= REACH
    requires starts.Length == OBJ_MAX_CNT
    modifies starts
    ensures match ReadDown(request, status, body, contentLength)
            case DownFailed(code) => ret == code && starts[..] == old(starts[..])
            case Down(o, s, r, m, offsets) =>
              && ret == 0 && otid == o && sent == s && received == r && remains == m
              && objqty == |offsets| && starts[..objqty] == offsets
  {
    otid, sent, received, remains, objqty := [], [], [], 0, 0;
    if request < 0 {
      return request, otid, sent, received, remains, objqty;
    }
    if status != StatusOk {
      if status == Unauthorized {
        return -401, otid, sent, received, remains, objqty;
      }
      return -1, otid, sent, received, remains, objqty;
    }
    if contentLength < 12 || contentLength >= 12 + BUFF_SZ {
      return -1, otid, sent, received, remains, objqty;
    }
    if body[0] != OBJECTS_DOWN || body[12] != 0x00 {
      return -1, otid, sent, received, remains, objqty;
    }
    ghost var payload := body[12..];
    otid := body[13..29];
    sent := body[29..37];
    received := body[37..45];
    remains := body[45];
    assert otid == payload[1..17] && sent == payload[17..25] && received == payload[25..33];
    ret := 0;
    if contentLength == 12 + FIRST_OBJ {
      return;
    }
    objqty := WalkObjects(body, contentLength, starts);
  }

  method WalkObjects(body: seq<byte>, contentLength: int, starts: array<nat>) returns (objqty: byte)
    requires |body| >= REACH && 12 <= contentLength < 12 + BUFF_SZ
    requires starts.Length == OBJ_MAX_CNT
    modifies starts
    ensures starts[..objqty] == Walk(body[12..], FIRST_OBJ, contentLength - 12, 0)
  {
    ghost var payload := body[12..];
    ghost var all := Walk(payload, FIRST_OBJ, contentLength - 12, 0);
    objqty := 0;
    var idx := 35;
    while true
      invariant objqty < OBJ_MAX_CNT && idx + 2 < |payload| && FIRST_OBJ <= idx
      invariant all == starts[..objqty] + Walk(payload, idx, contentLength - 12, objqty)
      decreases |payload| - idx
    {
      starts[objqty] := idx;
      objqty := objqty + 1;
      if objqty >= OBJ_MAX_CNT {
        break;
      }
      idx := idx + (3 + body[12 + idx + 2] as nat);
      if idx >= contentLength - 12 {
        break;
      }
    }
  }

  /**
   * Exactly which answers are accepted, and what is read of them: by request, status, content length, the
   * type 0x12 and the result 0x00, and with identifier, both times and the remaining number at their places.
   */
  lemma AcceptedIff(request: int, status: HttpStatus, body: seq<byte>, contentLength: int)
    requires |body| >= REACH
    ensures var down := ReadDown(request, status, body, contentLength);
            && (down.Down? <==> request >= 0 && status == StatusOk && 12 <= contentLength <= 1511
                                && body[0] == 0x12 && body[12] == 0x00)
            && (down.Down? ==> down.otid == body[13..29] && down.sent == body[29..37] && down.received == body[37..45]
                               && down.remains == body[45] && (down.starts == [] <==> contentLength == 47))
            && (down.DownFailed? ==>
                  down.code == if request < 0 then request else if status == Unauthorized then -401 else -1)
  {
    var payload := body[12..];
    assert payload[1..17] == body[13..29] && payload[17..25] == body[29..37] && payload[25..33] == body[37..45];
  }

  // ---- What the walk stays within ------------------------------------------------------

  /** All starts can be read, and each record ends within the first `room` cells of the payload. */
  predicate Inside(payload: seq<byte>, starts: seq<nat>, room: int) {
    forall i :: 0 <= i < |starts| ==>
      starts[i] + 2 < |payload| && starts[i] + 3 + payload[starts[i] + 2] <= room
  }

  /** Where the last of the records found ends. */
  function LastEnd(payload: seq<byte>, starts: seq<nat>): nat {
    if starts == [] || starts[|starts| - 1] + 2 >= |payload| then 0
    else starts[|starts| - 1] + 3 + payload[starts[|starts| - 1] + 2]
  }

  lemma InsideCons(payload: seq<byte>, idx: nat, rest: seq<nat>, room: int)
    ensures Inside(payload, [idx] + rest, room) <==>
            idx + 2 < |payload| && idx + 3 + payload[idx + 2] <= room && Inside(payload, rest, room)
    ensures rest != [] ==> LastEnd(payload, [idx] + rest) == LastEnd(payload, rest)
  {
    var all := [idx] + rest;
    assert all[0] == idx && forall i :: 0 <= i < |rest| ==> rest[i] == all[i + 1];
  }

  /**
   * Exactly when the records that the walk finds lie within the first `room` cells: when the last of
   * them does. Those before it lie even before `end`.
   */
  lemma {:induction false} WalkInsideIff(payload: seq<byte>, idx: nat, end: int, k: nat, room: int)
    requires idx + 2 < |payload| && end + 2 <= |payload| && k < OBJ_MAX_CNT
    ensures var w := Walk(payload, idx, end, k);
            && (Inside(payload, w, room) <==> LastEnd(payload, w) <= room)
            && LastEnd(payload, w) > idx && Inside(payload, w[..|w| - 1], end - 1)
    decreases |payload| - idx
  {
    var next := idx + 3 + payload[idx + 2];
    if k + 1 < OBJ_MAX_CNT && next < end {
      WalkInsideIff(payload, next, end, k + 1, room);
      FurtherInside(payload, idx, Walk(payload, next, end, k + 1), end, room);
    } else {
      assert [idx] + [] == [idx] && [idx][..0] == [];
      InsideCons(payload, idx, [], room);
    }
  }

  lemma FurtherInside(payload: seq<byte>, idx: nat, rest: seq<nat>, end: int, room: int)
    requires idx + 2 < |payload| && rest != [] && rest[0] == idx + 3 + payload[idx + 2] < end
    requires Inside(payload, rest, room) <==> LastEnd(payload, rest) <= room
    requires LastEnd(payload, rest) > rest[0] && Inside(payload, rest[..|rest| - 1], end - 1)
    ensures var w := [idx] + rest;
            && (Inside(payload, w, room) <==> LastEnd(payload, w) <= room)
            && LastEnd(payload, w) > idx && Inside(payload, w[..|w| - 1], end - 1)
  {
    assert ([idx] + rest)[..|rest|] == [idx] + rest[..|rest| - 1];
    InsideCons(payload, idx, rest, room);
    InsideCons(payload, idx, rest[..|rest| - 1], end - 1);
  }

  /**
   * An accepted answer, in a body of `room` cells: the records found lie inside exactly when the last
   * of them does, whatever the content length says. One that is shorter than its fields yields a record, too.
   */
  lemma AnswerInsideIff(request: int, status: HttpStatus, body: seq<byte>, contentLength: int, room: nat)
    requires |body| >= REACH && ReadDown(request, status, body, contentLength).Down?
    ensures var payload, starts := body[12..], ReadDown(request, status, body, contentLength).starts;
            && (Inside(payload, starts, room - 12) <==> starts == [] || LastEnd(payload, starts) <= room - 12)
            && LastEnd(payload, starts) + 12 <= REACH
            && (contentLength < 47 ==> starts == [FIRST_OBJ])
  {
    var payload := body[12..];
    if contentLength != 12 + FIRST_OBJ {
      WalkInsideIff(payload, FIRST_OBJ, contentLength - 12, 0, room - 12);
      WalkReach(payload, FIRST_OBJ, contentLength - 12, 0);
    }
  }

  lemma {:induction false} WalkReach(payload: seq<byte>, idx: nat, end: int, k: nat)
    requires idx + 2 < |payload| && end + 2 <= |payload| && k < OBJ_MAX_CNT
    ensures LastEnd(payload, Walk(payload, idx, end, k)) <= (if end > idx then end else idx + 1) + 257
    decreases |payload| - idx
  {
    var next := idx + 3 + payload[idx + 2];
    if k + 1 < OBJ_MAX_CNT && next < end {
      WalkReach(payload, next, end, k + 1);
      InsideCons(payload, idx, Walk(payload, next, end, k + 1), 0);
    }
  }

  // ---- Records written, walked and read back ----------------------------------------

  /** Where each of `objs` starts when their records begin at `idx`. */
  function Starts(objs: seq<Obj>, idx: nat): (s: seq<nat>)
    ensures |s| == |objs|
  {
    if objs == [] then [] else [idx] + Starts(objs[1..], idx + 3 + |objs[0].value|)
  }

  function Min(a: nat, b: nat): nat {
    if a < b then a else b
  }

  /** `payload[idx..end]` holds the records of `objs`. */
  predicate Holds(payload: seq<byte>, idx: nat, end: nat, objs: seq<Obj>) {
    idx <= end <= |payload| && payload[idx..end] == Records(objs)
  }

  lemma HoldsStep(payload: seq<byte>, idx: nat, end: nat, objs: seq<Obj>)
    requires Holds(payload, idx, end, objs) && objs != []
    ensures var n := 3 + |objs[0].value|;
            && idx + n <= end && payload[idx + 2] == |objs[0].value| % 256
            && payload[idx..idx + n] == Record(objs[0])
            && Holds(payload, idx + n, end, objs[1..])
  {
    var n := 3 + |objs[0].value|;
    var all, rest := Records(objs), Records(objs[1..]);
    assert all == Record(objs[0]) + rest;
    assert payload[idx..idx + n] == all[..n] && payload[idx + n..end] == all[n..] == rest;
    assert payload[idx..idx + n][2] == payload[idx + 2];
  }

  lemma ShortStep(payload: seq<byte>, idx: nat, end: nat, objs: seq<Obj>)
    requires Holds(payload, idx, end, objs) && objs != [] && Short(objs)
    ensures var n := 3 + |objs[0].value|;
            && idx + n <= end && payload[idx + 2] == |objs[0].value|
            && payload[idx..idx + n] == Record(objs[0])
            && Holds(payload, idx + n, end, objs[1..]) && Short(objs[1..])
            && (idx + n < end <==> |objs| > 1)
  {
    HoldsStep(payload, idx, end, objs);
    RecordsLength(objs[1..]);
    assert forall i :: 0 <= i < |objs[1..]| ==> objs[1..][i] == objs[i + 1];
  }

  lemma {:induction false} LastRecordFits(objs: seq<Obj>)
    requires objs != []
    ensures |Records(objs)| >= 3 + |objs[|objs| - 1].value|
  {
    if |objs| > 1 {
      LastRecordFits(objs[1..]);
    }
  }

  /** The first `n` of the starts. */
  function FirstStarts(objs: seq<Obj>, idx: nat, n: nat): seq<nat>
    decreases objs
  {
    if n == 0 || objs == [] then [] else [idx] + FirstStarts(objs[1..], idx + 3 + |objs[0].value|, n - 1)
  }

  lemma {:induction false} FirstStartsAre(objs: seq<Obj>, idx: nat, n: nat)
    ensures FirstStarts(objs, idx, n) == Starts(objs, idx)[..Min(|objs|, n)]
    decreases objs
  {
    if n > 0 && objs != [] {
      var next, rest := idx + 3 + |objs[0].value|, objs[1..];
      FirstStartsAre(rest, next, n - 1);
      StartsCons(idx, objs, next, rest, Min(|rest|, n - 1));
    }
  }

  lemma {:induction false} WalkFindsFirst(payload: seq<byte>, idx: nat, full: nat, end: int, objs: seq<Obj>, k: nat,
                                          n: nat)
    requires Holds(payload, idx, full, objs) && objs != [] && Short(objs)
    requires full - |objs[|objs| - 1].value| - 3 < end <= full
    requires idx + 2 < |payload| && end + 2 <= |payload| && k < OBJ_MAX_CNT && n == OBJ_MAX_CNT - k
    ensures Walk(payload, idx, end, k) == FirstStarts(objs, idx, n)
    decreases |objs|
  {
    var next, rest := CutStep(payload, idx, full, end, objs);
    if n > 1 && next < end {
      WalkFindsFirst(payload, next, full, end, rest, k + 1, n - 1);
    } else {
      assert FirstStarts(rest, next, n - 1) == [];
    }
  }

  /** The walk finds the starts of all objects, up to 255 of them, even if it is to end inside the last of them. */
  lemma WalkFindsCut(payload: seq<byte>, idx: nat, full: nat, end: int, objs: seq<Obj>, k: nat)
    requires Holds(payload, idx, full, objs) && objs != [] && Short(objs)
    requires full - |objs[|objs| - 1].value| - 3 < end <= full
    requires idx + 2 < |payload| && end + 2 <= |payload| && k < OBJ_MAX_CNT
    ensures Walk(payload, idx, end, k) == Starts(objs, idx)[..Min(|objs|, OBJ_MAX_CNT - k)]
  {
    WalkFindsFirst(payload, idx, full, end, objs, k, OBJ_MAX_CNT - k);
    FirstStartsAre(objs, idx, OBJ_MAX_CNT - k);
  }

  /** The walk goes on behind the first record exactly when there is another. */
  lemma CutStep(payload: seq<byte>, idx: nat, full: nat, end: int, objs: seq<Obj>)
    returns (next: nat, rest: seq<Obj>)
    requires Holds(payload, idx, full, objs) && objs != [] && Short(objs)
    requires full - |objs[|objs| - 1].value| - 3 < end <= full
    ensures next == idx + 3 + |objs[0].value| <= full && payload[idx + 2] == |objs[0].value|
    ensures rest == objs[1..] && Holds(payload, next, full, rest) && Short(rest)
    ensures rest != [] <==> next < end
    ensures rest != [] ==> full - |rest[|rest| - 1].value| - 3 < end
  {
    next, rest := idx + 3 + |objs[0].value|, objs[1..];
    ShortStep(payload, idx, full, objs);
    if rest != [] {
      LastRecordFits(rest);
    }
  }

  lemma StartsCons(idx: nat, objs: seq<Obj>, next: nat, rest: seq<Obj>, m: nat)
    requires objs != [] && m < |objs| && next == idx + 3 + |objs[0].value| && rest == objs[1..]
    ensures Starts(objs, idx)[..m + 1] == [idx] + Starts(rest, next)[..m]
  {
  }

  /** Over the records of a list the walk finds the starts of all objects, up to 255 of them. */
  lemma WalkFindsStarts(payload: seq<byte>, idx: nat, end: nat, objs: seq<Obj>, k: nat)
    requires Holds(payload, idx, end, objs) && objs != [] && Short(objs)
    requires idx + 2 < |payload| && end + 2 <= |payload| && k < OBJ_MAX_CNT
    ensures Walk(payload, idx, end, k) == Starts(objs, idx)[..Min(|objs|, OBJ_MAX_CNT - k)]
  {
    WalkFindsCut(payload, idx, end, end, objs, k);
  }

  /** Parsing at any of those starts recovers the object. */
  lemma {:induction false} ParseAtStart(payload: seq<byte>, idx: nat, end: nat, objs: seq<Obj>, i: nat)
    requires Holds(payload, idx, end, objs) && Short(objs) && i < |objs|
    ensures var at := Starts(objs, idx)[i];
            && at + 3 <= |payload| && at + 3 + payload[at + 2] <= |payload|
            && ObjAt(payload[at..]) == objs[i]
    decreases |objs|
  {
    ShortStep(payload, idx, end, objs);
    var next := idx + 3 + |objs[0].value|;
    assert Starts(objs, idx) == [idx] + Starts(objs[1..], next);
    if i == 0 {
      ParseRecord(payload, idx, objs[0]);
    } else {
      ParseAtStart(payload, next, end, objs[1..], i - 1);
      assert Starts(objs, idx)[i] == Starts(objs[1..], next)[i - 1] && objs[i] == objs[1..][i - 1];
    }
  }

  lemma ParseRecord(payload: seq<byte>, idx: nat, o: Obj)
    requires |o.value| <= 255 && idx + 3 + |o.value| <= |payload|
    requires payload[idx..idx + 3 + |o.value|] == Record(o)
    ensures payload[idx + 2] == |o.value| && ObjAt(payload[idx..]) == o
  {
    var n := 3 + |o.value|;
    assert payload[idx..][..n] == Record(o);
    assert payload[idx..][3..n] == Record(o)[3..] == o.value;
    assert Record(o)[0] == payload[idx] && Record(o)[1] == payload[idx + 1] && Record(o)[2] == payload[idx + 2];
  }

  /** Every object is parsed back from its start exactly when no length overflows its byte. */
  lemma AllParsedIffShort(payload: seq<byte>, idx: nat, end: nat, objs: seq<Obj>)
    requires Holds(payload, idx, end, objs)
    ensures Short(objs) <==>
            forall i :: 0 <= i < |objs| ==>
              var at := Starts(objs, idx)[i];
              && at + 3 <= |payload| && at + 3 + payload[at + 2] <= |payload|
              && ObjAt(payload[at..]) == objs[i]
  {
    if Short(objs) {
      forall i | 0 <= i < |objs|
        ensures var at := Starts(objs, idx)[i];
                at + 3 <= |payload| && at + 3 + payload[at + 2] <= |payload| && ObjAt(payload[at..]) == objs[i]
      {
        ParseAtStart(payload, idx, end, objs, i);
      }
    }
  }

  /** An accepted answer: its 12-byte header, 35 bytes of fields and the records of `objs`. */
  function DownBody(header: seq<byte>, otid: seq<byte>, sent: seq<byte>, received: seq<byte>, remains: byte,
                    reserved: byte, objs: seq<Obj>): seq<byte> {
    [OBJECTS_DOWN] + header + [0x00] + otid + sent + received + [remains, reserved] + Records(objs)
  }

  lemma DownBodyFields(header: seq<byte>, otid: seq<byte>, sent: seq<byte>, received: seq<byte>, remains: byte,
                       reserved: byte, objs: seq<Obj>, slack: seq<byte>)
    requires |header| == 11 && |otid| == 16 && |sent| == 8 && |received| == 8
    ensures var b := DownBody(header, otid, sent, received, remains, reserved, objs);
            var payload := (b + slack)[12..];
            && |b| == 47 + |Records(objs)| && (b + slack)[0] == OBJECTS_DOWN && payload[0] == 0x00
            && payload[1..17] == otid && payload[17..25] == sent && payload[25..33] == received
            && payload[33] == remains
            && Holds(payload, FIRST_OBJ, FIRST_OBJ + |Records(objs)|, objs)
  {
    var r := Records(objs);
    var fields := [0x00] + otid + sent + received + [remains, reserved];
    var b := DownBody(header, otid, sent, received, remains, reserved, objs);
    assert b == ([OBJECTS_DOWN] + header) + fields + r;
    var payload := (b + slack)[12..];
    assert payload == fields + r + slack;
    assert payload[..35] == fields && payload[35..35 + |r|] == r;
    assert fields[1..17] == otid && fields[17..25] == sent && fields[25..33] == received && fields[33] == remains;
    assert payload[1..17] == payload[..35][1..17] && payload[17..25] == payload[..35][17..25];
    assert payload[25..33] == payload[..35][25..33] && payload[33] == payload[..35][33];
  }

  /**
   * The codec round trip over the downlink: the answer that carries `objs` is read back field by
   * field, with the starts of its objects, up to 255 of them, and nothing beyond.
   */
  lemma DownRoundTrip(header: seq<byte>, otid: seq<byte>, sent: seq<byte>, received: seq<byte>, remains: byte,
                      reserved: byte, objs: seq<Obj>, slack: seq<byte>)
    requires |header| == 11 && |otid| == 16 && |sent| == 8 && |received| == 8
    requires Short(objs) && |slack| >= REACH
    requires 47 + |Records(objs)| < 12 + BUFF_SZ
    ensures var b := DownBody(header, otid, sent, received, remains, reserved, objs);
            ReadDown(0, StatusOk, b + slack, |b|) ==
            Down(otid, sent, received, remains, Starts(objs, FIRST_OBJ)[..Min(|objs|, OBJ_MAX_CNT)])
  {
    DownBodyFields(header, otid, sent, received, remains, reserved, objs, slack);
    var b := DownBody(header, otid, sent, received, remains, reserved, objs);
    ReadHolding(b + slack, |b|, objs);
  }

  /** An answer that holds the records of `objs` yields its fields and the starts of the objects. */
  lemma ReadHolding(body: seq<byte>, contentLength: nat, objs: seq<Obj>)
    requires Short(objs) && contentLength == 47 + |Records(objs)| < 12 + BUFF_SZ && |body| >= REACH
    requires body[0] == OBJECTS_DOWN && body[12..][0] == 0x00
    requires Holds(body[12..], FIRST_OBJ, FIRST_OBJ + |Records(objs)|, objs)
    ensures var payload := body[12..];
            ReadDown(0, StatusOk, body, contentLength) ==
            Down(payload[1..17], payload[17..25], payload[25..33], payload[33],
                 Starts(objs, FIRST_OBJ)[..Min(|objs|, OBJ_MAX_CNT)])
  {
    RecordsLength(objs);
    if objs != [] {
      WalkFindsStarts(body[12..], FIRST_OBJ, contentLength - 12, objs, 0);
    } else {
      assert Starts(objs, FIRST_OBJ)[..0] == [];
    }
  }

  /**
   * Answers that leave the response behind: the last record's length byte says more than the content
   * holds, and the answer is accepted. In a body of `room` cells, what is read lies inside only if
   * there is room for that many bytes behind the content.
   */
  lemma TruncatedAnswer(header: seq<byte>, otid: seq<byte>, sent: seq<byte>, received: seq<byte>, remains: byte,
                        reserved: byte, objs: seq<Obj>, last: Obj, slack: seq<byte>, room: nat)
    requires |header| == 11 && |otid| == 16 && |sent| == 8 && |received| == 8
    requires Short(objs) && |objs| < OBJ_MAX_CNT && |last.value| <= 255 && |slack| >= REACH
    requires 50 + |Records(objs)| < 12 + BUFF_SZ
    ensures var b := DownBody(header, otid, sent, received, remains, reserved, objs + [last]);
            var c := |b| - |last.value|;
            && c == 50 + |Records(objs)|
            && ReadDown(0, StatusOk, b + slack, c) ==
               Down(otid, sent, received, remains, Starts(objs + [last], FIRST_OBJ))
            && (Inside((b + slack)[12..], Starts(objs + [last], FIRST_OBJ), room - 12) <==>
                c + |last.value| <= room)
  {
    var all := objs + [last];
    var b := DownBody(header, otid, sent, received, remains, reserved, all);
    DownBodyFields(header, otid, sent, received, remains, reserved, all, slack);
    RecordsAppend(objs, [last]);
    assert Records([last]) == Record(last) + Records([]);
    CutAnswer(b + slack, all, |b| - |last.value|, room);
  }

  /** An answer that is to end behind the header of its last record. */
  lemma CutAnswer(body: seq<byte>, all: seq<Obj>, contentLength: nat, room: nat)
    requires |body| >= REACH && body[0] == OBJECTS_DOWN && body[12..][0] == 0x00
    requires Short(all) && 0 < |all| <= OBJ_MAX_CNT && 50 <= contentLength < 12 + BUFF_SZ
    requires contentLength + |all[|all| - 1].value| == 47 + |Records(all)|
    requires Holds(body[12..], FIRST_OBJ, FIRST_OBJ + |Records(all)|, all)
    ensures var payload, starts := body[12..], Starts(all, FIRST_OBJ);
            && ReadDown(0, StatusOk, body, contentLength) ==
               Down(payload[1..17], payload[17..25], payload[25..33], payload[33], starts)
            && (Inside(payload, starts, room - 12) <==> 47 + |Records(all)| <= room)
  {
    var full := FIRST_OBJ + |Records(all)|;
    WalkFindsCut(body[12..], FIRST_OBJ, full, contentLength - 12, all, 0);
    assert Starts(all, FIRST_OBJ)[..|all|] == Starts(all, FIRST_OBJ);
    AnswerInsideIff(0, StatusOk, body, contentLength, room);
    LastStart(body[12..], FIRST_OBJ, full, all);
  }

  /** The last record of a list ends where the list does. */
  lemma {:induction false} LastStart(payload: seq<byte>, idx: nat, end: nat, objs: seq<Obj>)
    requires Holds(payload, idx, end, objs) && objs != [] && Short(objs)
    ensures LastEnd(payload, Starts(objs, idx)) == end
    decreases |objs|
  {
    ShortStep(payload, idx, end, objs);
    if |objs| > 1 {
      LastStart(payload, idx + 3 + |objs[0].value|, end, objs[1..]);
      InsideCons(payload, idx, Starts(objs[1..], idx + 3 + |objs[0].value|), 0);
    }
  }

  // ---- The uplink packet -------------------------------------------------------------

  /** Command type, eight bytes of time, an option byte, the size in big-endian order, the payload. */
  function Packet(payload: seq<byte>): (p: seq<byte>)
    requires |payload| < 65536
    ensures |p| == 12 + |payload|
  {
    [OBJECTS_UP] + Zeros(9) + [|payload| / 256, |payload| % 256] + payload
  }

  lemma PacketFields(payload: seq<byte>)
    requires |payload| < 65536
    ensures var p := Packet(payload);
            && p[0] == 0x00 && p[10] == |payload| / 256 && p[11] == |payload| % 256
            && BigEndian(p[10..12]) == |payload| && p[12..] == payload
            && forall i :: 1 <= i < 10 ==> p[i] == 0
  {
    var p := Packet(payload);
    var size := p[10..12];
    assert size == [|payload| / 256, |payload| % 256];
    assert size[..1] == [size[0]] && size[..1][..0] == [];
    assert BigEndian(size[..1]) == size[0];
  }

  /** The packet's length as the code computes it, in sixteen bits. */
  function PacketLength(size: nat): nat {
    (12 + size) % 65536
  }

  predicate TooBig(size: nat) {
    PacketLength(size) >= BUFF_SZ
  }

  /** The cells that the code then writes in the 1500-byte request buffer. */
  function Touched(size: nat): nat {
    if TooBig(size) then 0 else 12 + size
  }

  /** The guard refuses all sizes that do not fit but the largest twelve, whose packet length wraps. */
  lemma GuardIff(size: nat)
    requires size < 65536
    ensures TooBig(size) <==> 1488 <= size <= 65523
    ensures Touched(size) <= BUFF_SZ <==> size <= 65523
  {
  }

  /**
   * Frames `payload[..size]` in the request buffer; -1 when the guard finds it too big. The buffer has
   * more cells than the program's 1500, as many as a sixteen-bit size can ask for.
   */
  method ObjUpPacket(request: array<byte>, payload: array<byte>, size: nat) returns (packetLen: int)
    requires request.Length == 12 + 65535 && request != payload
    requires size <= payload.Length && size < 65536
    modifies request
    ensures packetLen == -1 <==> 1488 <= size <= 65523
    ensures packetLen == -1 ==> request[..] == old(request[..])
    ensures packetLen != -1 ==>
              && packetLen == (if size <= 65523 then 12 + size else size - 65524)
              && request[..12 + size] == Packet(payload[..size]) && request[12 + size..] == old(request[12 + size..])
  {
    packetLen := (12 + size) % 65536;
    if packetLen >= BUFF_SZ {
      return -1;
    }
    request[0] := OBJECTS_UP;
    forall i | 1 <= i < 10 {
      request[i] := 0x00;
    }
    request[10] := size / 256;
    request[11] := size % 256;
    forall i | 0 <= i < size {
      request[12 + i] := payload[i];
    }
    assert request[..12 + size] == Packet(payload[..size]);
  }

  // ---- The byte-swapping encoder --------------------------------------------------------

  /** Types whose value is sent as it is; all others are turned from little to big endian. */
  predicate KeepsOrder(typ: byte) {
    typ == OBJ_TYPE_UINT8 || typ == OBJ_TYPE_INT8 || typ == OBJ_TYPE_BIN || typ == OBJ_TYPE_STR_UTF8
  }

  /** The object as it appears on the wire. */
  function Swapped(o: Obj): (w: Obj)
    ensures |w.value| == |o.value|
  {
    if KeepsOrder(o.typ) then o else o.(value := Reverse(o.value))
  }

  function SwappedAll(objs: seq<Obj>): (ws: seq<Obj>)
    ensures |ws| == |objs|
    ensures forall i :: 0 <= i < |objs| ==> ws[i] == Swapped(objs[i])
  {
    seq(|objs|, i requires 0 <= i < |objs| => Swapped(objs[i]))
  }

  /** Values the encoder takes: at most 220 bytes, an even number of them when they are swapped. */
  predicate Encodable(o: Obj) {
    |o.value| <= 220 && (KeepsOrder(o.typ) || |o.value| % 2 == 0)
  }

  /** What the encoder has written when it stops: everything, or up to the object it refuses. */
  function Encoded(objs: seq<Obj>): seq<byte> {
    if objs == [] then []
    else if Encodable(objs[0]) then Record(Swapped(objs[0])) + Encoded(objs[1..])
    else if |objs[0].value| > 220 then []
    else Record(objs[0])[..3]
  }

  predicate AllEncodable(objs: seq<Obj>) {
    forall i :: 0 <= i < |objs| ==> Encodable(objs[i])
  }

  lemma {:induction false} EncodedAppend(a: seq<Obj>, b: seq<Obj>)
    requires AllEncodable(a)
    ensures Encoded(a + b) == Encoded(a) + Encoded(b)
  {
    if a == [] {
      assert a + b == b;
    } else {
      EncodedAppend(a[1..], b);
      assert (a + b)[0] == a[0] && (a + b)[1..] == a[1..] + b;
      Rejoin(Record(Swapped(a[0])), Encoded(a[1..]), Encoded(b));
    }
  }

  lemma {:induction false} EncodedIsRecords(objs: seq<Obj>)
    requires AllEncodable(objs)
    ensures Encoded(objs) == Records(SwappedAll(objs))
  {
    if objs != [] {
      EncodedIsRecords(objs[1..]);
      assert SwappedAll(objs)[1..] == SwappedAll(objs[1..]);
    }
  }

  /** `s` with `bytes` written over it at `idx`. */
  function Splice(s: seq<byte>, idx: nat, bytes: seq<byte>): seq<byte>
    requires idx + |bytes| <= |s|
  {
    s[..idx] + bytes + s[idx + |bytes|..]
  }

  /** `s` is `done`, and as `base` behind it. */
  predicate InFront(s: seq<byte>, done: seq<byte>, base: seq<byte>) {
    |done| <= |s| == |base| && s == done + base[|done|..]
  }

  lemma SpliceInFront(s: seq<byte>, done: seq<byte>, bytes: seq<byte>, base: seq<byte>)
    requires InFront(s, done, base) && |done| + |bytes| <= |s|
    ensures InFront(Splice(s, |done|, bytes), done + bytes, base)
  {
  }

  /** The memory `s` with its first `sz` cells cleared. */
  function Cleared(s: seq<byte>, sz: nat): (c: seq<byte>)
    ensures |c| == |s|
  {
    seq(|s|, k requires 0 <= k < |s| => if k < sz then 0 else s[k])
  }

  method ReverseInto(value: seq<byte>, work: array<byte>)
    requires |value| <= work.Length
    modifies work
    ensures work[..|value|] == Reverse(value)
  {
    var j := 0;
    while j < |value|
      invariant 0 <= j <= |value|
      invariant work[..j] == Reverse(value)[..j]
    {
      work[j] := value[|value| - j - 1];
      j := j + 1;
    }
  }

  lemma SpliceTwice(s: seq<byte>, idx: nat, a: seq<byte>, b: seq<byte>)
    requires idx + |a| + |b| <= |s|
    ensures Splice(Splice(s, idx, a), idx + |a|, b) == Splice(s, idx, a + b)
  {
  }

  method WriteHeader(raw: array<byte>, idx: nat, o: Obj)
    requires |o.value| <= 255 && idx + 3 <= raw.Length
    modifies raw
    ensures raw[..] == Splice(old(raw[..]), idx, Record(o)[..3])
  {
    raw[idx] := o.typ;
    raw[idx + 1] := o.tag;
    raw[idx + 2] := |o.value|;
    assert Record(o)[..3] == [o.typ, o.tag, |o.value|];
  }

  method CopyValue(raw: array<byte>, at: nat, value: seq<byte>)
    requires at + |value| <= raw.Length
    modifies raw
    ensures raw[..] == Splice(old(raw[..]), at, value)
  {
    forall k | 0 <= k < |value| {
      raw[at + k] := value[k];
    }
  }

  /** Writes the header and, unless the length is odd, the reversed value. */
  method WriteSwapped(raw: array<byte>, idx: nat, o: Obj, work: array<byte>) returns (ok: bool)
    requires |o.value| <= 220 && !KeepsOrder(o.typ)
    requires idx + 3 + |o.value| <= raw.Length && work.Length == 220 && work != raw
    modifies raw, work
    ensures ok == (|o.value| % 2 == 0)
    ensures var bytes := if ok then Record(Swapped(o)) else Record(o)[..3];
            raw[..] == Splice(old(raw[..]), idx, bytes)
  {
    WriteHeader(raw, idx, o);
    if |o.value| % 2 != 0 {
      return false;
    }
    ReverseInto(o.value, work);
    CopyValue(raw, idx + 3, work[..|o.value|]);
    SpliceTwice(old(raw[..]), idx, Record(o)[..3], Reverse(o.value));
    assert Record(Swapped(o)) == Record(o)[..3] + Reverse(o.value);
    ok := true;
  }

  method WriteKept(raw: array<byte>, idx: nat, o: Obj)
    requires |o.value| <= 220 && KeepsOrder(o.typ)
    requires idx + 3 + |o.value| <= raw.Length
    modifies raw
    ensures raw[..] == Splice(old(raw[..]), idx, Record(Swapped(o)))
  {
    WriteHeader(raw, idx, o);
    CopyValue(raw, idx + 3, o.value);
    SpliceTwice(old(raw[..]), idx, Record(o)[..3], o.value);
    assert Record(o) == Record(o)[..3] + o.value;
  }

  /** What goes into the buffer for one object, taken or refused. */
  function Attempt(o: Obj): seq<byte> {
    if Encodable(o) then Record(Swapped(o)) else if |o.value| > 220 then [] else Record(o)[..3]
  }

  method EncodeOne(raw: array<byte>, idx: nat, o: Obj, work: array<byte>) returns (ok: bool)
    requires |o.value| <= 255 && idx + 3 + |o.value| <= raw.Length && work.Length == 220 && work != raw
    modifies raw, work
    ensures ok == Encodable(o) && raw[..] == Splice(old(raw[..]), idx, Attempt(o))
  {
    if |o.value| > 220 {
      assert raw[..] == raw[..idx] + [] + raw[idx..];
      return false;
    }
    if KeepsOrder(o.typ) {
      WriteKept(raw, idx, o);
      ok := true;
    } else {
      ok := WriteSwapped(raw, idx, o, work);
    }
  }

  /**
   * The records of `objs` with swapped values, in a buffer of `sz` bytes, which is cleared first; their
   * length, or -1. `raw` stands for the memory from the buffer on: the program does not look at its end.
   */
  method CreateObjUpPayload(raw: array<byte>, sz: nat, objs: seq<Obj>, work: array<byte>) returns (n: int)
    requires |objs| <= 255 && Short(objs) && |Records(objs)| <= raw.Length
    requires work.Length == 220 && work != raw
    modifies raw, work
    ensures n == -1 <==> !AllEncodable(objs)
    ensures n != -1 ==> n == |Encoded(objs)| == |Records(objs)|
    ensures InFront(raw[..], Encoded(objs), Cleared(old(raw[..]), sz))
  {
    ghost var base := Cleared(raw[..], sz);
    forall k | 0 <= k < raw.Length && k < sz {
      raw[k] := 0;
    }
    assert raw[..] == base;
    var idx := 0;
    var i := 0;
    assert objs[..0] == [];
    while i < |objs|
      invariant 0 <= i <= |objs| && AllEncodable(objs[..i])
      invariant idx == |Encoded(objs[..i])| == |Records(objs[..i])| <= raw.Length
      invariant InFront(raw[..], Encoded(objs[..i]), base)
    {
      var o := objs[i];
      EncodeStep(objs, i);
      SpliceInFront(raw[..], Encoded(objs[..i]), Attempt(o), base);
      var ok := EncodeOne(raw, idx, o, work);
      if !ok {
        return -1;
      }
      idx := idx + 3 + |o.value|;
      i := i + 1;
    }
    assert objs[..i] == objs;
    n := idx;
  }

  lemma EncodeStep(objs: seq<Obj>, i: nat)
    requires i < |objs| && AllEncodable(objs[..i])
    ensures |Records(objs[..i])| + 3 + |objs[i].value| <= |Records(objs)|
    ensures Encodable(objs[i]) ==>
              && AllEncodable(objs[..i + 1])
              && Encoded(objs[..i + 1]) == Encoded(objs[..i]) + Record(Swapped(objs[i]))
              && |Records(objs[..i + 1])| == |Records(objs[..i])| + 3 + |objs[i].value|
    ensures !Encodable(objs[i]) ==>
              && !AllEncodable(objs)
              && Encoded(objs) == Encoded(objs[..i]) + Attempt(objs[i])
  {
    var done, o, rest := objs[..i], objs[i], objs[i + 1..];
    assert objs == done + ([o] + rest);
    RecordsAppend(done, [o] + rest);
    assert ([o] + rest)[1..] == rest;
    if Encodable(o) {
      assert objs[..i + 1] == done + [o];
      EncodedAppend(done, [o]);
      RecordsAppend(done, [o]);
      assert Encoded([o]) == Record(Swapped(o)) + Encoded([]);
      assert Records([o]) == Record(o) + Records([]);
    } else {
      EncodedAppend(done, [o] + rest);
    }
  }

  // ---- What the encoder makes of each type ------------------------------------------------

  /** One-byte numbers, raw bytes and text. */
  predicate SentAsIs(typ: byte) {
    typ == 0x00 || typ == 0x01 || typ == 0x10 || typ == 0x20
  }

  /** `w` is `o` as it must appear on the wire: as it is, or with the bytes of its value in reverse order. */
  predicate InWireOrder(o: Obj, w: Obj) {
    && w.typ == o.typ && w.tag == o.tag && |w.value| == |o.value|
    && forall k :: 0 <= k < |o.value| ==>
         w.value[k] == if SentAsIs(o.typ) then o.value[k] else o.value[|o.value| - 1 - k]
  }

  /**
   * One object, encoded byte for byte: type, tag, length and value, the numbers of more than one byte
   * turned from little into big endian and the rest as it is.
   */
  lemma EncodedBytes(o: Obj)
    requires Encodable(o)
    ensures var e := Encoded([o]);
            && |e| == 3 + |o.value| && e[0] == o.typ && e[1] == o.tag && e[2] == |o.value|
            && InWireOrder(o, Obj(e[0], e[1], e[3..]))
            && (SentAsIs(o.typ) ==> e[3..] == o.value)
            && (2 <= o.typ <= 9 ==> BigEndian(e[3..]) == LittleEndian(o.value))
  {
    var e := Encoded([o]);
    assert e == Record(Swapped(o)) + Encoded([]);
    assert e[3..] == Swapped(o).value;
    if !SentAsIs(o.typ) {
      ReversedByteOrder(o.value);
    }
  }

  /** Exactly when a list is refused: a value is longer than 220 bytes, or odd in length where it is reversed. */
  lemma RefusedIff(objs: seq<Obj>)
    ensures AllEncodable(objs) <==>
            forall i :: 0 <= i < |objs| ==>
              |objs[i].value| <= 220 && (SentAsIs(objs[i].typ) || |objs[i].value| % 2 == 0)
  {
  }

  /** What a refused list has left: the objects before, and type, tag and length of one that is refused as odd. */
  lemma RefusedLeaves(done: seq<Obj>, o: Obj, rest: seq<Obj>)
    requires AllEncodable(done) && !Encodable(o) && |o.value| <= 255
    ensures Encoded(done + ([o] + rest)) ==
            Encoded(done) + if |o.value| > 220 then [] else [o.typ, o.tag, |o.value|]
  {
    EncodedAppend(done, [o] + rest);
  }

  // ---- Sending a list of objects ----------------------------------------------------------

  lemma {:induction false} RecordsBounded(objs: seq<Obj>)
    requires Short(objs)
    ensures |Records(objs)| <= 258 * |objs|
  {
    if objs != [] {
      assert |objs[0].value| <= 255 && forall i :: 0 <= i < |objs[1..]| ==> objs[1..][i] == objs[i + 1];
      RecordsBounded(objs[1..]);
    }
  }

  lemma {:induction false} EncodedBounded(objs: seq<Obj>)
    requires AllEncodable(objs)
    ensures |Encoded(objs)| <= 223 * |objs|
  {
    if objs != [] {
      assert Encodable(objs[0]) && forall i :: 0 <= i < |objs[1..]| ==> objs[1..][i] == objs[i + 1];
      EncodedBounded(objs[1..]);
    }
  }

  /** The size that the packet is made for: the encoder's -1 becomes the largest number of sixteen bits. */
  function UpSize(objs: seq<Obj>): nat {
    if AllEncodable(objs) then |Encoded(objs)| else 65535
  }

  /** The program's buffer for the encoded objects. */
  const PAYLOAD_SZ: nat := 512

  /** The cells that are copied out of it. */
  function Copied(size: nat): nat {
    if TooBig(size) then 0 else size
  }

  /**
   * What is written stays within the request buffer exactly when the encoder took the whole list, and
   * the payload buffer is kept as well, in writing and reading, exactly when that has at most 512 bytes.
   */
  lemma UpFitsIff(objs: seq<Obj>)
    requires |objs| <= 255 && Short(objs)
    ensures Touched(UpSize(objs)) <= BUFF_SZ <==> AllEncodable(objs)
    ensures && |Encoded(objs)| <= PAYLOAD_SZ && Copied(UpSize(objs)) <= PAYLOAD_SZ
            && Touched(UpSize(objs)) <= BUFF_SZ
            <==> AllEncodable(objs) && 3 * |objs| + ValueBytes(objs) <= PAYLOAD_SZ
  {
    if AllEncodable(objs) {
      EncodedBounded(objs);
      EncodedIsRecords(objs);
      RecordsLength(SwappedAll(objs));
      SwappedBytes(objs);
    }
    GuardIff(UpSize(objs));
  }

  /**
   * Encodes the objects and frames them, without a look at the encoder's result. The payload stands
   * for the memory from the program's 512 bytes on, as far as the longest list reaches.
   */
  method ObjUp(objs: seq<Obj>, payload: array<byte>, work: array<byte>, request: array<byte>)
    returns (packetLen: int)
    requires |objs| <= 255 && Short(objs)
    requires payload.Length >= 258 * 255 && work.Length == 220 && request.Length == 12 + 65535
    requires work != payload && request != payload && request != work
    modifies payload, work, request
    ensures AllEncodable(objs) ==>
              if |Encoded(objs)| > 1487 then packetLen == -1 && request[..] == old(request[..])
              else packetLen == 12 + |Encoded(objs)| && request[..packetLen] == Packet(Encoded(objs))
                   && request[packetLen..] == old(request[packetLen..])
    ensures !AllEncodable(objs) ==> packetLen == 11 && request[..] == Packet(payload[..65535])
  {
    RecordsBounded(objs);
    var n := CreateObjUpPayload(payload, PAYLOAD_SZ, objs, work);
    SizeHandedOn(n, payload[..], Cleared(old(payload[..]), PAYLOAD_SZ), objs);
    packetLen := ObjUpPacket(request, payload, n % 65536);
    assert request[..12 + 65535] == request[..];
  }

  lemma SizeHandedOn(n: int, payload: seq<byte>, base: seq<byte>, objs: seq<Obj>)
    requires |objs| <= 255 && InFront(payload, Encoded(objs), base)
    requires n == if AllEncodable(objs) then |Encoded(objs)| else -1
    ensures n % 65536 == UpSize(objs) < 65536
    ensures AllEncodable(objs) ==> |Encoded(objs)| < 65523 && payload[..UpSize(objs)] == Encoded(objs)
  {
    if AllEncodable(objs) {
      EncodedBounded(objs);
    }
  }

  /** A swapped value reads the same as a big-endian number as the source did as a little-endian one. */
  lemma SwapKeepsNumber(o: Obj)
    requires !SentAsIs(o.typ)
    ensures BigEndian(Swapped(o).value) == LittleEndian(o.value)
    ensures Swapped(Swapped(o)) == o
  {
    ReversedByteOrder(o.value);
    assert Reverse(Reverse(o.value)) == o.value;
  }

  /** Encoding, walking and parsing returns every object, its value swapped where the type asks for it. */
  lemma UpRoundTrip(objs: seq<Obj>, idx: nat, payload: seq<byte>, i: nat)
    requires AllEncodable(objs) && i < |objs| <= OBJ_MAX_CNT
    requires idx + |Encoded(objs)| + 2 <= |payload| && payload[idx..idx + |Encoded(objs)|] == Encoded(objs)
    ensures var starts := Starts(SwappedAll(objs), idx);
            && |Encoded(objs)| == 3 * |objs| + ValueBytes(objs)
            && Walk(payload, idx, idx + |Encoded(objs)|, 0) == starts
            && starts[i] + 3 <= |payload| && starts[i] + 3 + payload[starts[i] + 2] <= |payload|
            && ObjAt(payload[starts[i]..]) == Swapped(objs[i]) && InWireOrder(objs[i], Swapped(objs[i]))
  {
    var ws := SwappedAll(objs);
    EncodedIsRecords(objs);
    RecordsLength(ws);
    SwappedBytes(objs);
    assert objs[0] in objs && |Records(ws)| >= 3;
    WalkFindsStarts(payload, idx, idx + |Encoded(objs)|, ws, 0);
    assert Starts(ws, idx)[..|ws|] == Starts(ws, idx);
    ParseAtStart(payload, idx, idx + |Encoded(objs)|, ws, i);
    SwappedInOrder(objs[i]);
  }

  lemma SwappedInOrder(o: Obj)
    ensures InWireOrder(o, Swapped(o))
  {
  }

  lemma {:induction false} SwappedBytes(objs: seq<Obj>)
    ensures ValueBytes(SwappedAll(objs)) == ValueBytes(objs)
  {
    if objs != [] {
      SwappedBytes(objs[1..]);
      assert SwappedAll(objs)[1..] == SwappedAll(objs[1..]);
    }
  }
}
