/** `$TX`: the text of a list of objects, parsed by a state machine into their records. */
module TxCommand {
  import opened Bytes
  import opened SipfObject

  const TX_BUFF: nat := 1024

  /** Two hexadecimal digits to a byte; `err` is non-zero when one of them is not a digit. */
  method HexToUint8(chars: array<byte>, at: nat) returns (ret: byte, err: byte)
    requires at + 2 <= chars.Length
    ensures err == 0 <==> PairValue(chars[at], chars[at + 1]).Some?
    ensures err == 0 ==> PairValue(chars[at], chars[at + 1]) == Some(ret)
  {
    ret, err := 0, 0;
    var i := 0;
    while i < 2
      invariant 0 <= i <= 2
      invariant i == 0 ==> ret == 0 && err == 0
      invariant err == 0 <==> (i > 0 ==> IsHexDigit(chars[at])) && (i > 1 ==> IsHexDigit(chars[at + 1]))
      invariant err == 0 && i == 1 ==> ret == 16 * DigitValue(chars[at]).value
      invariant err == 0 && i == 2 ==> PairValue(chars[at], chars[at + 1]) == Some(ret)
      invariant err != 0 && i < 2 ==> ret == 0
    {
      var c := chars[at + i];
      var shift := if i == 0 then 16 else 1;
      if 0x30 <= c <= 0x39 {
        ret := ret as int + (c - 0x30) as int * shift;
      } else if 0x61 <= c <= 0x66 {
        ret := ret as int + (c - 0x61 + 10) as int * shift;
      } else if 0x41 <= c <= 0x46 {
        ret := ret as int + (c - 0x41 + 10) as int * shift;
      } else {
        ret, err := 0, 0xff;
      }
      i := i + 1;
    }
  }

  /** Which value lengths each type admits. */
  predicate TypeLen(typ: byte, len: nat) {
    if typ == OBJ_TYPE_UINT8 || typ == OBJ_TYPE_INT8 then len == 1
    else if typ == OBJ_TYPE_UINT16 || typ == OBJ_TYPE_INT16 then len == 2
    else if typ == OBJ_TYPE_UINT32 || typ == OBJ_TYPE_INT32 || typ == OBJ_TYPE_FLOAT32 then len == 4
    else if typ == OBJ_TYPE_UINT64 || typ == OBJ_TYPE_INT64 || typ == OBJ_TYPE_FLOAT64 then len == 8
    else if typ == OBJ_TYPE_BIN || typ == OBJ_TYPE_STR_UTF8 then len <= 1000
    else false
  }

  /** The check the parser makes: on the length as its one-byte counter shows it. */
  predicate Fitting(o: Obj) {
    TypeLen(o.typ, |o.value| % 256)
  }

  // ---- The text of a list of objects -------------------------------------------

  /** ` TAG TYPE HEX...`, with a space before each of the first two fields and after the type. */
  predicate SpellsObj(t: seq<byte>, o: Obj) {
    && |t| == 7 + 2 * |o.value|
    && t[0] == SPACE && t[3] == SPACE && t[6] == SPACE
    && PairValue(t[1], t[2]) == Some(o.tag) && PairValue(t[4], t[5]) == Some(o.typ)
    && Spells(t[7..], o.value)
  }

  predicate SpellsAll(t: seq<byte>, objs: seq<Obj>) {
    if objs == [] then t == []
    else
      var n := 7 + 2 * |objs[0].value|;
      n <= |t| && SpellsObj(t[..n], objs[0]) && SpellsAll(t[n..], objs[1..])
  }

  predicate AllFitting(objs: seq<Obj>) {
    forall i :: 0 <= i < |objs| ==> Fitting(objs[i])
  }

  /** Size conservation: two characters per byte sent, and one more per object. */
  lemma {:induction false} TextLength(t: seq<byte>, objs: seq<Obj>)
    requires SpellsAll(t, objs)
    ensures |t| == 2 * |Records(objs)| + |objs|
  {
    if objs != [] {
      TextLength(t[7 + 2 * |objs[0].value|..], objs[1..]);
    }
  }

  /** Which texts the program's send buffer has room for. */
  lemma RoomIff(t: seq<byte>, objs: seq<Obj>)
    requires SpellsAll(t, objs)
    ensures |Records(objs)| <= TX_BUFF <==> |t| <= 2048 + |objs|
  {
    TextLength(t, objs);
  }

  /** A text spells at most one list. */
  lemma {:induction false} OneReading(t: seq<byte>, a: seq<Obj>, b: seq<Obj>)
    requires SpellsAll(t, a) && SpellsAll(t, b)
    ensures a == b
  {
    if a != [] && b != [] {
      var n := 7 + 2 * |a[0].value|;
      SameLength(t, a, b);
      OneObject(t[..n], a[0], b[0]);
      OneReading(t[n..], a[1..], b[1..]);
      assert a == [a[0]] + a[1..] && b == [b[0]] + b[1..];
    }
  }

  lemma SameLength(t: seq<byte>, a: seq<Obj>, b: seq<Obj>)
    requires SpellsAll(t, a) && SpellsAll(t, b) && a != [] && b != []
    ensures |a[0].value| == |b[0].value|
  {
    SpaceBehindValue(t, a);
    SpaceBehindValue(t, b);
  }

  lemma OneObject(t: seq<byte>, a: Obj, b: Obj)
    requires SpellsObj(t, a) && SpellsObj(t, b)
    ensures a == b
  {
    SpellsUnique(t[7..], a.value, b.value);
  }

  /** The first value ends at a space or with the text, and no even place inside it is a space. */
  lemma SpaceBehindValue(t: seq<byte>, a: seq<Obj>)
    requires SpellsAll(t, a) && a != []
    ensures var n := 7 + 2 * |a[0].value|; n == |t| || (n < |t| && t[n] == SPACE)
    ensures forall k :: 0 <= k < |a[0].value| ==> t[7 + 2 * k] != SPACE
  {
    var n := 7 + 2 * |a[0].value|;
    if a[1..] != [] {
      assert t[n..][..7 + 2 * |a[1..][0].value|][0] == t[n];
    }
    forall k | 0 <= k < |a[0].value| ensures t[7 + 2 * k] != SPACE {
      assert t[..n][7..][2 * k] == t[7 + 2 * k];
      assert PairValue(t[..n][7..][2 * k], t[..n][7..][2 * k + 1]).Some?;
    }
  }

  // ---- The parser as a function ---------------------------------------------------

  /** What follows a separating space: tag and type, each with a space behind it. */
  function ParseTag(t: seq<byte>): Option<seq<Obj>>
    decreases |t|, 2
  {
    if |t| > 2 && t[2] == SPACE && PairValue(t[0], t[1]).Some?
    then ParseType(PairValue(t[0], t[1]).value, t[3..])
    else None
  }

  function ParseType(tag: byte, t: seq<byte>): Option<seq<Obj>>
    decreases |t|, 1
  {
    if |t| > 2 && t[2] == SPACE && PairValue(t[0], t[1]).Some?
    then ParseValue(Obj(PairValue(t[0], t[1]).value, tag, []), t[3..])
    else None
  }

  function ParseValue(o: Obj, t: seq<byte>): Option<seq<Obj>>
    decreases |t|, 0
  {
    if t == [] then (if Fitting(o) then Some([o]) else None)
    else if t[0] == SPACE then (if Fitting(o) then Prepend([o], ParseTag(t[1..])) else None)
    else if |t| > 1 && PairValue(t[0], t[1]).Some?
    then ParseValue(o.(value := o.value + [PairValue(t[0], t[1]).value]), t[2..])
    else None
  }

  function Prepend(done: seq<Obj>, rest: Option<seq<Obj>>): Option<seq<Obj>> {
    if rest.Some? then Some(done + rest.value) else None
  }

  function ParseText(t: seq<byte>): Option<seq<Obj>> {
    if |t| < 8 || t[0] != SPACE then None else ParseTag(t[1..])
  }

  // ---- Soundness and completeness ---------------------------------------------------

  /** `os` reads the rest `t` of an object whose value so far is `o.value`, and what follows it. */
  predicate Continues(o: Obj, t: seq<byte>, os: seq<Obj>) {
    os != [] && os[0].typ == o.typ && os[0].tag == o.tag && o.value <= os[0].value && AllFitting(os) &&
    var w := os[0].value[|o.value|..];
    2 * |w| <= |t| && Spells(t[..2 * |w|], w) && SpellsAll(t[2 * |w|..], os[1..])
  }

  lemma {:induction false} ValueSound(o: Obj, t: seq<byte>)
    requires ParseValue(o, t).Some?
    ensures Continues(o, t, ParseValue(o, t).value)
    decreases |t|, 0
  {
    var os := ParseValue(o, t).value;
    if t == [] {
      assert t[0..] == [];
    } else if t[0] == SPACE {
      var rest := ParseTag(t[1..]).value;
      TagSound(t[1..]);
      assert os[1..] == rest && t[0..] == [SPACE] + t[1..];
      assert os[0].value[|o.value|..] == [];
    } else {
      var b := PairValue(t[0], t[1]).value;
      var o1 := o.(value := o.value + [b]);
      ValueSound(o1, t[2..]);
      PairThenRest(t, b, os[0].value[|o1.value|..]);
      assert os[0].value[|o.value|..] == [b] + os[0].value[|o1.value|..];
      assert t[2..][2 * |os[0].value[|o1.value|..]|..] == t[2 * |os[0].value[|o.value|..]|..];
    }
  }

  lemma PairThenRest(t: seq<byte>, b: byte, w: seq<byte>)
    requires |t| >= 2 + 2 * |w| && PairValue(t[0], t[1]) == Some(b) && Spells(t[2..][..2 * |w|], w)
    ensures Spells(t[..2 * |[b] + w|], [b] + w)
  {
    var u, v := t[..2 * |[b] + w|], [b] + w;
    forall i | 0 <= i < |v| ensures PairValue(u[2 * i], u[2 * i + 1]) == Some(v[i]) {
      if i > 0 {
        assert u[2 * i] == t[2..][..2 * |w|][2 * (i - 1)] && u[2 * i + 1] == t[2..][..2 * |w|][2 * (i - 1) + 1];
      }
    }
  }

  lemma {:induction false} TagSound(t: seq<byte>)
    requires ParseTag(t).Some?
    ensures var os := ParseTag(t).value;
            os != [] && SpellsAll([SPACE] + t, os) && AllFitting(os)
    decreases |t|, 2
  {
    var tag, typ := PairValue(t[0], t[1]).value, PairValue(t[3..][0], t[3..][1]).value;
    assert t[3..][3..] == t[6..];
    ValueSound(Obj(typ, tag, []), t[6..]);
    var os, u := ParseTag(t).value, [SPACE] + t;
    assert os[0].value[0..] == os[0].value && u[7..] == t[6..];
    assert u[4] == t[3..][0] && u[5] == t[3..][1] && u[6] == t[3..][2];
    HeadThenValue(u, os);
  }

  lemma HeadThenValue(u: seq<byte>, os: seq<Obj>)
    requires os != [] && |u| >= 7 + 2 * |os[0].value|
    requires u[0] == SPACE && u[3] == SPACE && u[6] == SPACE
    requires PairValue(u[1], u[2]) == Some(os[0].tag) && PairValue(u[4], u[5]) == Some(os[0].typ)
    requires Spells(u[7..][..2 * |os[0].value|], os[0].value)
    requires SpellsAll(u[7..][2 * |os[0].value|..], os[1..])
    ensures SpellsAll(u, os)
  {
    var n := 7 + 2 * |os[0].value|;
    assert u[..n][7..] == u[7..][..2 * |os[0].value|];
    assert u[n..] == u[7..][2 * |os[0].value|..];
  }

  lemma {:induction false} ValueComplete(o: Obj, t: seq<byte>, os: seq<Obj>)
    requires Continues(o, t, os)
    ensures ParseValue(o, t) == Some(os)
    decreases |t|, 0
  {
    var w := os[0].value[|o.value|..];
    if w == [] {
      assert os[0] == o && t[0..] == t;
      if os[1..] == [] {
        assert os == [o];
      } else {
        assert t[0] == t[..7 + 2 * |os[1..][0].value|][0] == SPACE;
        assert [SPACE] + t[1..] == t;
        assert forall i :: 0 <= i < |os[1..]| ==> os[1..][i] == os[i + 1];
        TagComplete(t[1..], os[1..]);
        assert os == [o] + os[1..];
      }
    } else {
      var b := NextDigits(o, t, os, w);
      ValueComplete(o.(value := o.value + [b]), t[2..], os);
    }
  }

  /** The two digits that go on with the value. */
  lemma NextDigits(o: Obj, t: seq<byte>, os: seq<Obj>, w: seq<byte>) returns (b: byte)
    requires Continues(o, t, os) && w == os[0].value[|o.value|..] && w != []
    ensures |t| >= 2 && t[0] != SPACE && PairValue(t[0], t[1]) == Some(b)
    ensures Continues(o.(value := o.value + [b]), t[2..], os)
  {
    var u := t[..2 * |w|];
    b := w[0];
    assert PairValue(u[2 * 0], u[2 * 0 + 1]) == Some(b);
    assert os[0].value == o.value + w && os[0].value[|o.value| + 1..] == w[1..];
    SpellsTail(t, w);
    assert t[2..][2 * |w[1..]|..] == t[2 * |w|..];
  }

  lemma SpellsTail(t: seq<byte>, w: seq<byte>)
    requires w != [] && 2 * |w| <= |t| && Spells(t[..2 * |w|], w)
    ensures Spells(t[2..][..2 * |w[1..]|], w[1..])
  {
    var u, v := t[..2 * |w|], t[2..][..2 * |w[1..]|];
    forall i | 0 <= i < |w[1..]| ensures PairValue(v[2 * i], v[2 * i + 1]) == Some(w[1..][i]) {
      assert v[2 * i] == u[2 * (i + 1)] && v[2 * i + 1] == u[2 * (i + 1) + 1];
    }
  }

  lemma {:induction false} TagComplete(t: seq<byte>, os: seq<Obj>)
    requires os != [] && SpellsAll([SPACE] + t, os) && AllFitting(os)
    ensures ParseTag(t) == Some(os)
    decreases |t|, 2
  {
    var u, n := [SPACE] + t, 7 + 2 * |os[0].value|;
    assert u[..n][1] == t[0] && u[..n][2] == t[1] && u[..n][3] == t[2];
    assert u[..n][4] == t[3] && u[..n][5] == t[4] && u[..n][6] == t[5];
    assert t[3..][3..] == t[6..];
    assert u[..n][7..] == t[6..][..2 * |os[0].value|] && u[n..] == t[6..][2 * |os[0].value|..];
    assert os[0].value[0..] == os[0].value;
    ValueComplete(Obj(os[0].typ, os[0].tag, []), t[6..], os);
  }

  /** The parser accepts exactly the texts, of at least eight characters, of non-empty fitting lists. */
  lemma ParseIffSpells(t: seq<byte>, objs: seq<Obj>)
    ensures ParseText(t) == Some(objs) <==> |t| >= 8 && objs != [] && SpellsAll(t, objs) && AllFitting(objs)
  {
    if ParseText(t) == Some(objs) {
      TagSound(t[1..]);
      assert [SPACE] + t[1..] == t;
    }
    if |t| >= 8 && objs != [] && SpellsAll(t, objs) && AllFitting(objs) {
      assert t[0] == t[..7 + 2 * |objs[0].value|][0] == SPACE;
      assert [SPACE] + t[1..] == t;
      TagComplete(t[1..], objs);
    }
  }

  /** The canonical text of one object. */
  function ObjText(o: Obj): (t: seq<byte>)
    ensures |t| == 7 + 2 * |o.value|
  {
    [SPACE] + Hex(o.tag) + [SPACE] + Hex(o.typ) + [SPACE] + HexText(o.value)
  }

  lemma ObjTextSpells(o: Obj)
    ensures SpellsAll(ObjText(o), [o])
  {
    var t := ObjText(o);
    HexTextSpells(o.value);
    assert t[1] == Hex(o.tag)[0] && t[2] == Hex(o.tag)[1] && t[4] == Hex(o.typ)[0] && t[5] == Hex(o.typ)[1];
    assert t[7..] == HexText(o.value) && t[..|t|] == t && t[|t|..] == [];
  }

  /**
   * A value of more than 255 bytes is accepted if what its one-byte length counter shows suits the
   * type, and then its record says less than was written.
   */
  lemma LongValueAccepted(typ: byte, tag: byte, value: seq<byte>)
    requires |value| > 255 && Admits(typ, |value| % 256)
    ensures var o := Obj(typ, tag, value);
            ParseText(ObjText(o)) == Some([o]) && !Short([o]) && Records([o])[2] == |value| % 256 < |value|
  {
    var o := Obj(typ, tag, value);
    ObjTextSpells(o);
    ParseIffSpells(ObjText(o), [o]);
    assert Records([o]) == Record(o) + Records([]);
    assert !Short([o]) by { assert [o][0] == o; }
  }

  /** So 257 bytes pass for a one-byte number. */
  lemma LongNumberAccepted(tag: byte, value: seq<byte>)
    requires |value| == 257
    ensures ParseText(ObjText(Obj(OBJ_TYPE_UINT8, tag, value))) == Some([Obj(OBJ_TYPE_UINT8, tag, value)])
  {
    LongValueAccepted(OBJ_TYPE_UINT8, tag, value);
  }

  /** The lengths each type admits: 1, 2, 4 and 8 bytes for the numbers, any for raw bytes and text, none for others. */
  predicate Admits(typ: byte, len: nat) {
    if typ <= 7 then len == [1, 1, 2, 2, 4, 4, 8, 8][typ]
    else if typ == 0x08 then len == 4
    else if typ == 0x09 then len == 8
    else (typ == 0x10 || typ == 0x20) && len <= 255
  }

  /** One object's text is accepted exactly when it has a value, whose length modulo 256 its type admits. */
  lemma AdmittedIff(o: Obj)
    ensures ParseText(ObjText(o)) == Some([o]) <==> o.value != [] && Admits(o.typ, |o.value| % 256)
    ensures ParseText(ObjText(o)).Some? ==> ParseText(ObjText(o)) == Some([o])
  {
    ObjTextSpells(o);
    ParseIffSpells(ObjText(o), [o]);
    FittingIff(o);
    assert AllFitting([o]) <==> Fitting(o) by { assert [o][0] == o; }
    if ParseText(ObjText(o)).Some? {
      var os := ParseText(ObjText(o)).value;
      ParseIffSpells(ObjText(o), os);
      OneReading(ObjText(o), os, [o]);
    }
  }

  /** And in every accepted list each object has such a value, though it may be empty behind the first one. */
  lemma FittingIff(o: Obj)
    ensures Fitting(o) <==> Admits(o.typ, |o.value| % 256)
  {
  }

  /** Up to 255 bytes, what is accepted does suit its type. */
  lemma ShortIsLegal(t: seq<byte>, objs: seq<Obj>, i: nat)
    requires ParseText(t) == Some(objs) && i < |objs|
    ensures |objs[i].value| <= 255 ==> Admits(objs[i].typ, |objs[i].value|)
    ensures |objs[i].value| > 255 ==> Admits(objs[i].typ, |objs[i].value| % 256)
  {
    ParseIffSpells(t, objs);
    FittingIff(objs[i]);
  }

  // ---- The state machine ----------------------------------------------------------------

  /** What a run comes to: the list accepted, if any, and how far into the send buffer it has written. */
  datatype Ran = Ran(objs: Option<seq<Obj>>, top: nat)

  /**
   * The run behind a separating space. `u` is the memory from here on, `n` how much of the text is left
   * (none or less when the parser has looked beyond it), `m` how many bytes have been laid down.
   */
  function RunTag(u: seq<byte>, n: int, m: nat): (r: Ran)
    ensures r.top >= m
    decreases |u|, 2
  {
    if |u| > 2 && u[2] == SPACE && PairValue(u[0], u[1]).Some?
    then RunType(PairValue(u[0], u[1]).value, u[3..], n - 3, m)
    else Ran(None, m)
  }

  function RunType(tag: byte, u: seq<byte>, n: int, m: nat): (r: Ran)
    ensures r.top >= m
    decreases |u|, 1
  {
    if |u| > 2 && u[2] == SPACE && PairValue(u[0], u[1]).Some?
    then RunValue(Obj(PairValue(u[0], u[1]).value, tag, []), u[3..], n - 3, m + 3)
    else Ran(None, m)
  }

  /** In a value; the length byte in front of it is written only when it ends. */
  function RunValue(o: Obj, u: seq<byte>, n: int, m: nat): (r: Ran)
    ensures r.top >= ValueTop(o, m)
    decreases |u|, 0
  {
    if n <= 0 then (if Fitting(o) then Ran(Some([o]), m) else Ran(None, ValueTop(o, m)))
    else if u != [] && u[0] == SPACE then (if Fitting(o) then Before([o], RunTag(u[1..], n - 1, m))
                                           else Ran(None, ValueTop(o, m)))
    else if |u| > 1 && PairValue(u[0], u[1]).Some?
    then RunValue(o.(value := o.value + [PairValue(u[0], u[1]).value]), u[2..], n - 2, m + 1)
    else Ran(None, m + 1)
  }

  function ValueTop(o: Obj, m: nat): nat {
    if o.value == [] && m > 0 then m - 1 else m
  }

  function Before(done: seq<Obj>, r: Ran): Ran {
    r.(objs := Prepend(done, r.objs))
  }

  /** The run over an argument of `len` characters at the front of `mem`, whatever stands behind it. */
  function RunText(mem: seq<byte>, len: nat): Ran {
    if len < 8 || mem == [] || mem[0] != SPACE then Ran(None, 0) else RunTag(mem[1..], len - 1, 0)
  }

  /** With NULs behind the text, what is accepted is what the text says. */
  lemma RunIsParse(mem: seq<byte>, len: nat)
    requires len + 3 <= |mem| && forall k :: len <= k < len + 3 ==> mem[k] == NUL
    ensures RunText(mem, len).objs == ParseText(mem[..len])
  {
    if len >= 8 {
      assert mem[..len][1..] == mem[1..][..len - 1];
      TagIsParse(mem[1..], len - 1, 0);
    }
  }

  /** Three NULs stand behind the first `n` characters of `u`. */
  predicate Padding(u: seq<byte>, n: nat) {
    n + 3 <= |u| && forall k :: n <= k < n + 3 ==> u[k] == NUL
  }

  lemma Closer(u: seq<byte>, n: nat, k: nat)
    requires Padding(u, n) && k <= n
    ensures Padding(u[k..], n - k) && u[..n][k..] == u[k..][..n - k]
    ensures forall i :: 0 <= i < n ==> u[..n][i] == u[i]
  {
  }

  lemma {:induction false} TagIsParse(u: seq<byte>, n: nat, m: nat)
    requires Padding(u, n)
    ensures RunTag(u, n, m).objs == ParseTag(u[..n])
    decreases |u|, 2
  {
    if n > 2 && u[2] == SPACE && PairValue(u[0], u[1]).Some? {
      Closer(u, n, 3);
      TypeIsParse(PairValue(u[0], u[1]).value, u[3..], n - 3, m);
    }
  }

  lemma {:induction false} TypeIsParse(tag: byte, u: seq<byte>, n: nat, m: nat)
    requires Padding(u, n)
    ensures RunType(tag, u, n, m).objs == ParseType(tag, u[..n])
    decreases |u|, 1
  {
    if n > 2 && u[2] == SPACE && PairValue(u[0], u[1]).Some? {
      Closer(u, n, 3);
      ValueIsParse(Obj(PairValue(u[0], u[1]).value, tag, []), u[3..], n - 3, m + 3);
    }
  }

  lemma {:induction false} ValueIsParse(o: Obj, u: seq<byte>, n: nat, m: nat)
    requires Padding(u, n)
    ensures RunValue(o, u, n, m).objs == ParseValue(o, u[..n])
    decreases |u|, 0
  {
    if n == 0 {
      assert u[..n] == [];
    } else if u[0] == SPACE {
      Closer(u, n, 1);
      TagIsParse(u[1..], n - 1, m);
    } else if n > 1 && PairValue(u[0], u[1]).Some? {
      Closer(u, n, 2);
      ValueIsParse(o.(value := o.value + [PairValue(u[0], u[1]).value]), u[2..], n - 2, m + 1);
    }
  }

  // ---- How much is written ----------------------------------------------------------------

  /** What is accepted has been written, and nothing behind it. */
  lemma AcceptedTop(mem: seq<byte>, len: nat, objs: seq<Obj>)
    requires RunText(mem, len).objs == Some(objs)
    ensures RunText(mem, len).top == |Records(objs)|
  {
    TagTop(mem[1..], len - 1, 0);
  }

  lemma {:induction false} TagTop(u: seq<byte>, n: int, m: nat)
    ensures var r := RunTag(u, n, m);
            && (r.objs.Some? ==> r.top == m + |Records(r.objs.value)|) && 2 * r.top <= 2 * m + NonNegative(n) + 6
    decreases |u|, 2
  {
    if |u| > 2 && u[2] == SPACE && PairValue(u[0], u[1]).Some? {
      var v := u[3..];
      if |v| > 2 && v[2] == SPACE && PairValue(v[0], v[1]).Some? {
        var o := Obj(PairValue(v[0], v[1]).value, PairValue(u[0], u[1]).value, []);
        ValueRunTop(o, v[3..], n - 6, m + 3);
      }
    }
  }

  function NonNegative(n: int): nat {
    if n < 0 then 0 else n
  }

  lemma {:induction false} ValueRunTop(o: Obj, u: seq<byte>, n: int, m: nat)
    requires m >= 3 + |o.value|
    ensures var r := RunValue(o, u, n, m);
            && (r.objs.Some? ==> r.top == m - 3 - |o.value| + |Records(r.objs.value)|)
            && 2 * r.top <= 2 * m + NonNegative(n) + 5
            && (n <= 0 ==> r.top <= m)
    decreases |u|, 0
  {
    assert Records([o]) == Record(o) + Records([]);
    if n > 0 {
      if u != [] && u[0] == SPACE {
        if Fitting(o) {
          TagTop(u[1..], n - 1, m);
          var r := RunTag(u[1..], n - 1, m);
          if r.objs.Some? {
            RecordsAppend([o], r.objs.value);
          }
        }
      } else if |u| > 1 && PairValue(u[0], u[1]).Some? {
        ValueRunTop(o.(value := o.value + [PairValue(u[0], u[1]).value]), u[2..], n - 2, m + 1);
      }
    }
  }

  /** No text, accepted or not, writes more than half as many bytes as it has characters, and three. */
  lemma TopBounded(mem: seq<byte>, len: nat)
    ensures 2 * RunText(mem, len).top <= len + 6
  {
    if RunText(mem, len).top > 0 {
      TagTop(mem[1..], len - 1, 0);
    }
  }

  /**
   * A text that is refused at its last character has been written all the same: it stays within the
   * program's send buffer exactly when its value has at most 1020 bytes.
   */
  lemma RefusedTooLate(o: Obj, x: byte, behind: seq<byte>)
    requires x != SPACE && !IsHexDigit(x)
    ensures var t := ObjText(o) + [x];
            && RunText(t + behind, |t|) == Ran(None, 4 + |o.value|)
            && (RunText(t + behind, |t|).top <= TX_BUFF <==> |o.value| <= 1020)
  {
    var t := ObjText(o) + [x];
    var v := HexText(o.value) + ([x] + behind);
    assert t + behind == [SPACE] + Hex(o.tag) + [SPACE] + Hex(o.typ) + [SPACE] + v;
    HeadThenDigits(o, t + behind, v, x);
    DigitsThenRefused(Obj(o.typ, o.tag, []), o.value, v, x, 3);
  }

  lemma HeadThenDigits(o: Obj, mem: seq<byte>, v: seq<byte>, x: byte)
    requires |v| > 2 * |o.value|
    requires mem == [SPACE] + Hex(o.tag) + [SPACE] + Hex(o.typ) + [SPACE] + v
    ensures RunText(mem, 8 + 2 * |o.value|) == RunValue(Obj(o.typ, o.tag, []), v, 2 * |o.value| + 1, 3)
  {
    var a, b := Hex(o.tag), Hex(o.typ);
    assert mem[0] == SPACE && mem[1] == a[0] && mem[2] == a[1] && mem[3] == SPACE;
    assert mem[4] == b[0] && mem[5] == b[1] && mem[6] == SPACE && mem[7..] == v;
    HeadRun(mem, 8 + 2 * |o.value|, o.tag, o.typ);
  }

  lemma HeadRun(mem: seq<byte>, len: nat, tag: byte, typ: byte)
    requires |mem| > 7 && len >= 8 && mem[0] == SPACE && mem[3] == SPACE && mem[6] == SPACE
    requires PairValue(mem[1], mem[2]) == Some(tag) && PairValue(mem[4], mem[5]) == Some(typ)
    ensures RunText(mem, len) == RunValue(Obj(typ, tag, []), mem[7..], len - 7, 3)
  {
    var u, w := mem[1..], mem[4..];
    assert u[0] == mem[1] && u[1] == mem[2] && u[2] == mem[3] && u[3..] == w;
    assert w[0] == mem[4] && w[1] == mem[5] && w[2] == mem[6] && w[3..] == mem[7..];
    assert RunTag(u, len - 1, 0) == RunType(tag, w, len - 4, 0);
  }

  lemma {:induction false} DigitsThenRefused(o: Obj, value: seq<byte>, u: seq<byte>, x: byte, m: nat)
    requires x != SPACE && !IsHexDigit(x) && |u| > 2 * |value| && u[..2 * |value|] == HexText(value)
    requires u[2 * |value|] == x
    ensures RunValue(o, u, 2 * |value| + 1, m) == Ran(None, m + |value| + 1)
    decreases |value|
  {
    if value != [] {
      var h := Hex(value[0]);
      assert HexText(value) == h + HexText(value[1..]);
      assert u[0] == u[..2 * |value|][0] == h[0] && u[1] == u[..2 * |value|][1] == h[1];
      assert u[2..][..2 * |value[1..]|] == u[..2 * |value|][2..] == HexText(value[1..]);
      DigitsThenRefused(o.(value := o.value + [value[0]]), value[1..], u[2..], x, m + 1);
    }
  }

  // ---- The loop -----------------------------------------------------------------------------

  datatype ParseState = StBegin | StTagId | StType | StValue | StEnd

  /** What the run comes to from a state on, after the objects in `done`. */
  function RunFrom(st: ParseState, done: seq<Obj>, cur: Obj, u: seq<byte>, n: int, m: nat): Ran {
    match st
    case StBegin => if u != [] && u[0] == SPACE then RunTag(u[1..], n - 1, m) else Ran(None, m)
    case StTagId => Before(done, RunTag(u, n, m))
    case StType => Before(done, RunType(cur.tag, u, n, m))
    case StValue => Before(done, RunValue(cur, u, n, m))
    case StEnd => Ran(Some(done), m)
  }

  /** What the output buffer holds: the finished records and, in a value, the one begun. */
  predicate Written(st: ParseState, tx: seq<byte>, m: nat, lenAt: nat, done: seq<Obj>, cur: Obj) {
    var k := |Records(done)|;
    && k <= m <= |tx| && tx[..k] == Records(done)
    && (if st == StValue
        then lenAt == k + 2 && m == k + 3 + |cur.value|
             && tx[k] == cur.typ && tx[k + 1] == cur.tag && tx[k + 3..m] == cur.value
        else m == k)
  }

  /** Completing the object begun: its length byte goes in, and its record is whole. */
  lemma RecordDone(tx: seq<byte>, m: nat, lenAt: nat, done: seq<Obj>, cur: Obj)
    requires Written(StValue, tx, m, lenAt, done, cur)
    ensures var tx1 := tx[lenAt := |cur.value| % 256];
            && |Records(done + [cur])| == m && tx1[..m] == Records(done + [cur])
  {
    var k := |Records(done)|;
    var tx1 := tx[lenAt := |cur.value| % 256];
    RecordsAppend(done, [cur]);
    assert Records([cur]) == Record(cur) + Records([]);
    assert tx1[k..m] == [tx1[k], tx1[k + 1], tx1[k + 2]] + tx[k + 3..m];
    assert tx1[..m] == tx1[..k] + tx1[k..m] && tx1[..k] == tx[..k];
  }

  /** One more value byte. */
  lemma ByteWritten(tx: seq<byte>, m: nat, lenAt: nat, done: seq<Obj>, cur: Obj, b: byte)
    requires Written(StValue, tx, m, lenAt, done, cur) && m < |tx|
    ensures Written(StValue, tx[m := b], m + 1, lenAt, done, cur.(value := cur.value + [b]))
    ensures (|cur.value| + 1) % 256 == (|cur.value| % 256 + 1) % 256
  {
    var k := |Records(done)|;
    assert tx[m := b][..k] == tx[..k];
    assert tx[m := b][k + 3..m + 1] == tx[k + 3..m] + [b];
  }

  /** The head of a record, its length byte still open. */
  lemma HeadWritten(tx: seq<byte>, m: nat, lenAt: nat, done: seq<Obj>, cur: Obj, typ: byte, tag: byte)
    requires Written(StType, tx, m, lenAt, done, cur) && m + 3 <= |tx|
    ensures Written(StValue, tx[m := typ][m + 1 := tag], m + 3, m + 2, done, Obj(typ, tag, []))
  {
    assert tx[m := typ][m + 1 := tag][..m] == tx[..m];
  }

  lemma BeforeNothing(r: Ran)
    ensures Before([], r) == r
  {
    if r.objs.Some? {
      assert [] + r.objs.value == r.objs.value;
    }
  }

  lemma BeforeBefore(done: seq<Obj>, o: Obj, r: Ran)
    ensures Before(done, Before([o], r)) == Before(done + [o], r)
  {
    if r.objs.Some? {
      Rejoin(done, [o], r.objs.value);
    }
  }

  /** The local variables of the parser. */
  datatype Regs = Regs(st: ParseState, idx: nat, m: nat, lenAt: nat, tag: byte, typ: byte, valueLen: byte)

  /** How far the parser may have looked beyond the text in each state. */
  function Beyond(st: ParseState): nat {
    match st
    case StType => 3
    case StValue => 6
    case StEnd => 6
    case _ => 0
  }

  /** The argument and what stands behind it at first, and the list and extent that its run comes to. */
  datatype Input = Input(mem: seq<byte>, len: nat, ran: Ran) {
    predicate Valid() {
      8 <= len && len + 6 <= |mem| && ran == RunText(mem, len)
    }
  }

  /** The loop invariant: `cs` is the input buffer now, `tx` the send buffer. */
  predicate Good(i: Input, cs: seq<byte>, tx: seq<byte>, r: Regs, done: seq<Obj>, cur: Obj) {
    && i.Valid() && |cs| == |i.mem| && i.ran.top < |tx|
    && r.idx <= i.len + Beyond(r.st) && cs[r.idx..] == i.mem[r.idx..]
    && i.ran == RunFrom(r.st, done, cur, i.mem[r.idx..], i.len - r.idx, r.m)
    && Written(r.st, tx, r.m, r.lenAt, done, cur)
    && (r.st == StBegin ==> r.idx == 0 && r.m == 0 && done == [])
    && (r.st == StType ==> r.tag == cur.tag)
    && (r.st == StValue ==> r.typ == cur.typ && r.valueLen == |cur.value| % 256)
  }

  /** Only separators have been overwritten, with NULs. */
  predicate Blanked(was: seq<byte>, cs: seq<byte>) {
    |was| == |cs| && forall k :: 0 <= k < |cs| ==> cs[k] == was[k] || (was[k] == SPACE && cs[k] == NUL)
  }

  /** How much of the send buffer has been written. */
  function Top(r: Regs, cur: Obj): nat {
    if r.st == StValue then ValueTop(cur, r.m) else r.m
  }

  /** Behind `top` the send buffer is as it was. */
  predicate Untouched(was: seq<byte>, tx: seq<byte>, top: nat) {
    |was| == |tx| && forall k :: top <= k < |tx| ==> tx[k] == was[k]
  }

  /** The characters ahead are those of the memory at first. */
  lemma Ahead(mem: seq<byte>, cs: seq<byte>, idx: nat)
    requires idx <= |mem| == |cs| && cs[idx..] == mem[idx..]
    ensures forall k :: idx <= k < |mem| ==> cs[k] == mem[k] == mem[idx..][k - idx]
  {
    forall k | idx <= k < |mem| ensures cs[k] == mem[k] {
      assert cs[k] == cs[idx..][k - idx] && mem[k] == mem[idx..][k - idx];
    }
  }

  /** Moving on by `k` characters, with a separator blanked behind. */
  lemma MoveOn(mem: seq<byte>, cs: seq<byte>, idx: nat, k: nat, at: nat)
    requires idx + k <= |mem| == |cs| && cs[idx..] == mem[idx..] && at < idx + k
    ensures mem[idx..][k..] == mem[idx + k..] == cs[idx + k..] == cs[at := NUL][idx + k..]
  {
    assert cs[idx + k..] == cs[idx..][k..];
  }

  method Begin(chars: array<byte>, ghost i: Input, ghost tx: seq<byte>, r: Regs, ghost cur: Obj)
    returns (ok: bool, next: Regs)
    requires Good(i, chars[..], tx, r, [], cur) && r.st == StBegin
    ensures !ok ==> i.ran == Ran(None, Top(r, cur))
    ensures ok ==> Good(i, chars[..], tx, next, [], cur) && next == r.(idx := r.idx + 1, st := StTagId)
  {
    Ahead(i.mem, chars[..], r.idx);
    if chars[r.idx] != SPACE {
      return false, r;
    }
    MoveOn(i.mem, chars[..], r.idx, 1, 0);
    assert Records([]) == [];
    BeforeNothing(RunTag(i.mem[r.idx + 1..], i.len - r.idx - 1, r.m));
    return true, r.(idx := r.idx + 1, st := StTagId);
  }

  method TagId(chars: array<byte>, ghost i: Input, ghost tx: seq<byte>, r: Regs, ghost done: seq<Obj>, ghost cur: Obj)
    returns (ok: bool, next: Regs, ghost cur': Obj)
    requires Good(i, chars[..], tx, r, done, cur) && r.st == StTagId
    modifies chars
    ensures Blanked(old(chars[..]), chars[..])
    ensures !ok ==> i.ran == Ran(None, Top(r, cur))
    ensures ok ==> Good(i, chars[..], tx, next, done, cur') && next.idx > r.idx && Top(next, cur') == Top(r, cur)
  {
    cur' := cur;
    Ahead(i.mem, chars[..], r.idx);
    if chars[r.idx + 2] != SPACE {
      FieldRefused(i, r, done, cur);
      return false, r, cur';
    }
    var b, err := HexToUint8(chars, r.idx);
    MoveOn(i.mem, chars[..], r.idx, 3, r.idx + 2);
    chars[r.idx + 2] := NUL;
    if err != 0 {
      FieldRefused(i, r, done, cur);
      return false, r, cur';
    }
    GoodTag(i, chars[..], tx, r, done, cur, b);
    cur' := Obj(0, b, []);
    return true, r.(tag := b, idx := r.idx + 3, st := StType), cur';
  }

  lemma GoodTag(i: Input, cs: seq<byte>, tx: seq<byte>, r: Regs, done: seq<Obj>, cur: Obj, b: byte)
    requires i.Valid() && |cs| == |i.mem| && i.ran.top < |tx| && Written(StTagId, tx, r.m, r.lenAt, done, cur)
    requires r.idx <= i.len && cs[r.idx + 3..] == i.mem[r.idx + 3..]
    requires i.ran == RunFrom(StTagId, done, cur, i.mem[r.idx..], i.len - r.idx, r.m)
    requires i.mem[r.idx + 2] == SPACE && PairValue(i.mem[r.idx], i.mem[r.idx + 1]) == Some(b)
    ensures Good(i, cs, tx, r.(tag := b, idx := r.idx + 3, st := StType), done, Obj(0, b, []))
  {
    var u := i.mem[r.idx..];
    assert u[0] == i.mem[r.idx] && u[1] == i.mem[r.idx + 1] && u[2] == i.mem[r.idx + 2];
    assert u[3..] == i.mem[r.idx + 3..];
  }

  /** Without a digit pair and a space behind it the run is refused. */
  lemma FieldRefused(i: Input, r: Regs, done: seq<Obj>, cur: Obj)
    requires (r.st == StTagId || r.st == StType) && r.idx + 3 <= |i.mem|
    requires i.ran == RunFrom(r.st, done, cur, i.mem[r.idx..], i.len - r.idx, r.m)
    requires i.mem[r.idx + 2] != SPACE || PairValue(i.mem[r.idx], i.mem[r.idx + 1]).None?
    ensures i.ran == Ran(None, Top(r, cur))
  {
    var u := i.mem[r.idx..];
    assert u[0] == i.mem[r.idx] && u[1] == i.mem[r.idx + 1] && u[2] == i.mem[r.idx + 2];
  }

  method Type(chars: array<byte>, tx: array<byte>, ghost i: Input, r: Regs, ghost done: seq<Obj>, ghost cur: Obj)
    returns (ok: bool, next: Regs, ghost cur': Obj)
    requires chars != tx && Good(i, chars[..], tx[..], r, done, cur) && r.st == StType
    modifies chars, tx
    ensures Blanked(old(chars[..]), chars[..])
    ensures !ok ==> i.ran == Ran(None, Top(r, cur)) && tx[..] == old(tx[..])
    ensures ok ==> Good(i, chars[..], tx[..], next, done, cur') && next.idx > r.idx
    ensures ok ==> Top(next, cur') == r.m + 2 && Untouched(old(tx[..]), tx[..], r.m + 2)
  {
    cur' := cur;
    Ahead(i.mem, chars[..], r.idx);
    if chars[r.idx + 2] != SPACE {
      FieldRefused(i, r, done, cur);
      return false, r, cur';
    }
    var b, err := HexToUint8(chars, r.idx);
    MoveOn(i.mem, chars[..], r.idx, 3, r.idx + 2);
    chars[r.idx + 2] := NUL;
    if err != 0 {
      FieldRefused(i, r, done, cur);
      return false, r, cur';
    }
    cur' := Obj(b, r.tag, []);
    ok, next := true, TypeTaken(r, b);
    GoodType(i, chars[..], tx[..], r, done, cur, b);
    tx[r.m] := b;
    tx[r.m + 1] := r.tag;
    assert tx[..] == old(tx[..])[r.m := b][r.m + 1 := r.tag];
  }

  function TypeTaken(r: Regs, b: byte): Regs {
    r.(typ := b, idx := r.idx + 3, lenAt := r.m + 2, m := r.m + 3, valueLen := 0, st := StValue)
  }

  lemma GoodType(i: Input, cs: seq<byte>, tx: seq<byte>, r: Regs, done: seq<Obj>, cur: Obj, b: byte)
    requires i.Valid() && |cs| == |i.mem| && i.ran.top < |tx| && r.tag == cur.tag
    requires r.idx <= i.len + 3 && cs[r.idx + 3..] == i.mem[r.idx + 3..] && Written(StType, tx, r.m, r.lenAt, done, cur)
    requires i.ran == RunFrom(StType, done, cur, i.mem[r.idx..], i.len - r.idx, r.m)
    requires i.mem[r.idx + 2] == SPACE && PairValue(i.mem[r.idx], i.mem[r.idx + 1]) == Some(b)
    ensures r.m + 3 <= |tx|
    ensures Good(i, cs, tx[r.m := b][r.m + 1 := r.tag], TypeTaken(r, b), done, Obj(b, r.tag, []))
  {
    TypeRead(i, r, done, cur, Obj(b, r.tag, []));
    HeadWritten(tx, r.m, r.lenAt, done, cur, b, r.tag);
  }

  /** The run behind a type, and the room it is known to have. */
  lemma TypeRead(i: Input, r: Regs, done: seq<Obj>, cur: Obj, next: Obj)
    requires r.idx + 6 <= |i.mem| + 3 && r.idx + 3 <= |i.mem|
    requires i.ran == RunFrom(StType, done, cur, i.mem[r.idx..], i.len - r.idx, r.m)
    requires i.mem[r.idx + 2] == SPACE && PairValue(i.mem[r.idx], i.mem[r.idx + 1]) == Some(next.typ)
    requires next == Obj(next.typ, cur.tag, [])
    ensures i.ran == RunFrom(StValue, done, next, i.mem[r.idx + 3..], i.len - (r.idx + 3), r.m + 3)
    ensures i.ran.top >= r.m + 2
  {
    var u := i.mem[r.idx..];
    assert u[0] == i.mem[r.idx] && u[1] == i.mem[r.idx + 1] && u[2] == i.mem[r.idx + 2];
    assert u[3..] == i.mem[r.idx + 3..];
  }

  /** The end of a value: the text is over or a space follows. */
  method ValueEnd(chars: array<byte>, len: nat, tx: array<byte>, ghost i: Input, r: Regs,
                  ghost done: seq<Obj>, ghost cur: Obj)
    returns (ok: bool, next: Regs)
    requires chars != tx && len == i.len && Good(i, chars[..], tx[..], r, done, cur) && r.st == StValue
    requires r.idx >= len || chars[r.idx] == SPACE
    modifies tx
    ensures !ok ==> i.ran == Ran(None, Top(r, cur)) && tx[..] == old(tx[..])
    ensures ok ==> Good(i, chars[..], tx[..], next, done + [cur], cur)
    ensures ok ==> Top(next, cur) == r.m && Untouched(old(tx[..]), tx[..], r.m)
    ensures ok ==> next.idx > r.idx || (next.idx == r.idx && next.st == StEnd)
  {
    Ahead(i.mem, chars[..], r.idx);
    if !TypeLen(r.typ, r.valueLen) {
      return false, r;
    }
    ok, next := true, if r.idx >= len then r.(st := StEnd) else r.(idx := r.idx + 1, st := StTagId);
    GoodEnd(i, chars[..], tx[..], r, done, cur, next);
    tx[r.lenAt] := r.valueLen;
    assert tx[..] == old(tx[..])[r.lenAt := r.valueLen];
  }

  lemma GoodEnd(i: Input, cs: seq<byte>, tx: seq<byte>, r: Regs, done: seq<Obj>, cur: Obj, next: Regs)
    requires Good(i, cs, tx, r, done, cur) && r.st == StValue && Fitting(cur)
    requires r.idx < i.len ==> i.mem[r.idx] == SPACE
    requires next == if r.idx >= i.len then r.(st := StEnd) else r.(idx := r.idx + 1, st := StTagId)
    ensures Good(i, cs, tx[r.lenAt := r.valueLen], next, done + [cur], cur)
  {
    RecordDone(tx, r.m, r.lenAt, done, cur);
    if r.idx < i.len {
      MoveOn(i.mem, cs, r.idx, 1, 0);
      assert i.mem[r.idx..][0] == SPACE;
      BeforeBefore(done, cur, RunTag(i.mem[r.idx + 1..], i.len - r.idx - 1, r.m));
    }
  }

  /** Two more digits of a value, or a byte that is written before they are found to be none. */
  method ValueByte(chars: array<byte>, len: nat, tx: array<byte>, ghost i: Input, r: Regs,
                   ghost done: seq<Obj>, ghost cur: Obj)
    returns (ok: bool, next: Regs, ghost cur': Obj)
    requires chars != tx && len == i.len && Good(i, chars[..], tx[..], r, done, cur) && r.st == StValue
    requires r.idx < len && chars[r.idx] != SPACE
    modifies tx
    ensures Untouched(old(tx[..]), tx[..], r.m + 1)
    ensures !ok ==> i.ran == Ran(None, r.m + 1)
    ensures ok ==> Good(i, chars[..], tx[..], next, done, cur') && next.idx > r.idx && Top(next, cur') == r.m + 1
  {
    cur' := cur;
    Ahead(i.mem, chars[..], r.idx);
    var b, err := HexToUint8(chars, r.idx);
    GoodByte(i, chars[..], tx[..], r, done, cur, b, err);
    tx[r.m] := b;
    assert tx[..] == old(tx[..])[r.m := b];
    if err != 0 {
      return false, r, cur';
    }
    cur' := cur.(value := cur.value + [b]);
    return true, ByteTaken(r), cur';
  }

  function ByteTaken(r: Regs): Regs {
    r.(m := r.m + 1, valueLen := (r.valueLen as int + 1) % 256, idx := r.idx + 2)
  }

  lemma GoodByte(i: Input, cs: seq<byte>, tx: seq<byte>, r: Regs, done: seq<Obj>, cur: Obj, b: byte, err: byte)
    requires Good(i, cs, tx, r, done, cur) && r.st == StValue && r.idx < i.len && cs[r.idx] != SPACE
    requires err == 0 <==> PairValue(cs[r.idx], cs[r.idx + 1]).Some?
    requires err == 0 ==> PairValue(cs[r.idx], cs[r.idx + 1]) == Some(b)
    ensures i.ran.top >= r.m + 1 && r.m < |tx|
    ensures err != 0 ==> i.ran == Ran(None, r.m + 1)
    ensures err == 0 ==> Good(i, cs, tx[r.m := b], ByteTaken(r), done, cur.(value := cur.value + [b]))
  {
    Ahead(i.mem, cs, r.idx);
    ByteRead(i, r, done, cur);
    if err == 0 {
      MoveOn(i.mem, cs, r.idx, 2, 0);
      GoodTaken(i, cs, tx, r, done, cur, b);
    }
  }

  lemma GoodTaken(i: Input, cs: seq<byte>, tx: seq<byte>, r: Regs, done: seq<Obj>, cur: Obj, b: byte)
    requires i.Valid() && |cs| == |i.mem| && i.ran.top < |tx| && r.m < |tx|
    requires r.st == StValue && r.typ == cur.typ && r.valueLen == |cur.value| % 256
    requires r.idx < i.len && cs[r.idx + 2..] == i.mem[r.idx + 2..] && Written(StValue, tx, r.m, r.lenAt, done, cur)
    requires i.ran == RunFrom(StValue, done, cur.(value := cur.value + [b]), i.mem[r.idx + 2..],
                              i.len - (r.idx + 2), r.m + 1)
    ensures Good(i, cs, tx[r.m := b], ByteTaken(r), done, cur.(value := cur.value + [b]))
  {
    ByteWritten(tx, r.m, r.lenAt, done, cur, b);
  }

  /** The run behind two characters of a value. */
  lemma ByteRead(i: Input, r: Regs, done: seq<Obj>, cur: Obj)
    requires r.idx < i.len && r.idx + 2 <= |i.mem| && i.mem[r.idx] != SPACE
    requires i.ran == RunFrom(StValue, done, cur, i.mem[r.idx..], i.len - r.idx, r.m)
    ensures i.ran.top >= r.m + 1
    ensures match PairValue(i.mem[r.idx], i.mem[r.idx + 1])
            case None => i.ran == Ran(None, r.m + 1)
            case Some(b) =>
              i.ran == RunFrom(StValue, done, cur.(value := cur.value + [b]), i.mem[r.idx + 2..],
                               i.len - (r.idx + 2), r.m + 1)
  {
    var u := i.mem[r.idx..];
    assert u[0] == i.mem[r.idx] && u[1] == i.mem[r.idx + 1] && u[2..] == i.mem[r.idx + 2..];
  }

  /** One pass of the parser's loop; `top` is how far it has then written. */
  method Step(chars: array<byte>, len: nat, tx: array<byte>, ghost i: Input, r: Regs, ghost done: seq<Obj>,
              ghost cur: Obj)
    returns (ok: bool, next: Regs, ghost done': seq<Obj>, ghost cur': Obj, ghost top: nat)
    requires chars != tx && len == i.len && Good(i, chars[..], tx[..], r, done, cur) && r.st != StEnd
    modifies chars, tx
    ensures Blanked(old(chars[..]), chars[..]) && Untouched(old(tx[..]), tx[..], top) && top >= Top(r, cur)
    ensures !ok ==> i.ran == Ran(None, top)
    ensures ok ==> Good(i, chars[..], tx[..], next, done', cur') && top == Top(next, cur')
    ensures ok ==> next.idx > r.idx || (next.idx == r.idx && next.st == StEnd)
  {
    top, done', cur' := Top(r, cur), done, cur;
    match r.st {
      case StBegin =>
        ok, next := Begin(chars, i, tx[..], r, cur);
      case StTagId =>
        ok, next, cur' := TagId(chars, i, tx[..], r, done, cur);
      case StType =>
        ok, next, cur' := Type(chars, tx, i, r, done, cur);
        top := if ok then r.m + 2 else top;
      case StValue =>
        if r.idx >= len || chars[r.idx] == SPACE {
          ok, next := ValueEnd(chars, len, tx, i, r, done, cur);
          done', top := done + [cur], if ok then r.m else top;
        } else {
          ok, next, cur' := ValueByte(chars, len, tx, i, r, done, cur);
          top := r.m + 1;
        }
    }
  }

  /**
   * The parser of the command. It reads the text in place, blanking the separators behind tag and
   * type, and leaves the records in `tx`, which stands for the memory from the send buffer on: the
   * first 1024 cells are cleared, and nothing is written from `top` on.
   */
  method Parse(chars: array<byte>, len: nat, tx: array<byte>) returns (ok: bool, n: nat, ghost top: nat)
    requires len + 6 <= chars.Length && tx != chars && RunText(chars[..], len).top < tx.Length
    modifies chars, tx
    ensures Blanked(old(chars[..]), chars[..])
    ensures ok <==> RunText(old(chars[..]), len).objs.Some?
    ensures ok ==> var objs := RunText(old(chars[..]), len).objs.value;
                   n == |Records(objs)| <= tx.Length && tx[..n] == Records(objs)
    ensures top == RunText(old(chars[..]), len).top
    ensures forall k :: top <= k < tx.Length ==>
              tx[k] == if len >= 8 && k < TX_BUFF then 0 else old(tx[k])
  {
    ghost var i := Input(chars[..], len, RunText(chars[..], len));
    top := 0;
    if len < 8 {
      return false, 0, 0;
    }
    forall k | 0 <= k < tx.Length && k < TX_BUFF {
      tx[k] := 0;
    }
    ghost var cleared := tx[..];
    ghost var done: seq<Obj> := [];
    ghost var cur := Obj(0, 0, []);
    var r := Regs(StBegin, 0, 0, 0, 0, 0, 0);
    assert i.mem[0..] == i.mem;
    while r.st != StEnd
      invariant Good(i, chars[..], tx[..], r, done, cur) && Blanked(old(chars[..]), chars[..])
      invariant top == Top(r, cur) && Untouched(cleared, tx[..], top)
      decreases len + 6 - r.idx, r.st != StEnd
    {
      ok, r, done, cur, top := Step(chars, len, tx, i, r, done, cur);
      if !ok {
        return false, 0, top;
      }
    }
    assert tx[..r.m] == tx[..][..r.m];
    ok, n := true, r.m;
  }

  // ---- From the text to the far end ---------------------------------------------------------

  /**
   * The records the command sends, put into an answer, are walked and parsed back to the objects
   * of the text, field by field, the first 255 of them.
   */
  lemma TextRoundTrip(t: seq<byte>, objs: seq<Obj>, header: seq<byte>, otid: seq<byte>, sent: seq<byte>,
                      received: seq<byte>, remains: byte, reserved: byte, slack: seq<byte>, i: nat)
    requires ParseText(t) == Some(objs) && Short(objs) && 47 + |Records(objs)| < 12 + BUFF_SZ
    requires |header| == 11 && |otid| == 16 && |sent| == 8 && |received| == 8 && |slack| >= REACH
    requires i < Min(|objs|, OBJ_MAX_CNT)
    ensures var b := DownBody(header, otid, sent, received, remains, reserved, objs);
            var down, payload := ReadDown(0, StatusOk, b + slack, |b|), (b + slack)[12..];
            && down == Down(otid, sent, received, remains, Starts(objs, FIRST_OBJ)[..Min(|objs|, OBJ_MAX_CNT)])
            && down.starts[i] + 3 <= |payload| && down.starts[i] + 3 + payload[down.starts[i] + 2] <= |payload|
            && ObjAt(payload[down.starts[i]..]) == objs[i]
  {
    DownRoundTrip(header, otid, sent, received, remains, reserved, objs, slack);
    DownBodyFields(header, otid, sent, received, remains, reserved, objs, slack);
    var b := DownBody(header, otid, sent, received, remains, reserved, objs);
    ParseAtStart((b + slack)[12..], FIRST_OBJ, FIRST_OBJ + |Records(objs)|, objs, i);
  }
}
