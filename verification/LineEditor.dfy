/** The command line editor: a state machine fed one byte at a time. */
module LineEditor {
  import opened Bytes

  const CMD_BUFF_SZ: nat := 4096
  const DOLLAR: byte := 0x24

  /**
   * The editor as a value. `text` is the line as edited so far; `stale` are the bytes that
   * backspaces have left in the buffer behind it.
   */
  datatype Edit = Waiting | Editing(text: seq<byte>, stale: seq<byte>)

  /**
   * What one byte leads to, besides the new state: a line handed over as the buffer and its
   * length, or the overflow complaint.
   */
  datatype Outcome = Quiet | Handed(buffer: seq<byte>, len: nat) | Full

  predicate Fits(e: Edit) {
    e.Editing? ==> |e.text| + |e.stale| <= CMD_BUFF_SZ
  }

  /** The bytes of the input buffer while `e` is being edited. */
  function Image(e: Edit): (r: seq<byte>)
    requires e.Editing? && Fits(e)
    ensures |r| == CMD_BUFF_SZ
  {
    e.text + e.stale + Zeros(CMD_BUFF_SZ - |e.text| - |e.stale|)
  }

  predicate EndsLine(b: byte) {
    b == LF || b == CR
  }

  function Key(e: Edit, b: byte): (k: Edit)
    requires Fits(e)
    ensures Fits(k)
  {
    match e
    case Waiting => if b == DOLLAR then Editing([], []) else Waiting
    case Editing(text, stale) =>
      if EndsLine(b) then Waiting
      else if b == BS then
        (if text == [] then Waiting else Editing(text[..|text| - 1], [text[|text| - 1]] + stale))
      else if |text| >= CMD_BUFF_SZ then Waiting
      else Editing(text + [b], if stale == [] then [] else stale[1..])
  }

  function Result(e: Edit, b: byte): Outcome
    requires Fits(e)
  {
    match e
    case Waiting => Quiet
    case Editing(text, stale) =>
      if EndsLine(b) then Handed(Image(e), |text|)
      else if b != BS && |text| >= CMD_BUFF_SZ then Full
      else Quiet
  }

  /** The state after a stream of bytes. */
  function Fold(e: Edit, stream: seq<byte>): (f: Edit)
    requires Fits(e)
    ensures Fits(f)
    decreases |stream|
  {
    if stream == [] then e else Fold(Key(e, stream[0]), stream[1..])
  }

  /** The lines handed over while a stream is read. */
  function Lines(e: Edit, stream: seq<byte>): seq<Outcome>
    requires Fits(e)
    decreases |stream|
  {
    if stream == [] then []
    else
      var r := Result(e, stream[0]);
      (if r.Handed? then [r] else []) + Lines(Key(e, stream[0]), stream[1..])
  }

  datatype State = StWait | StBuffering

  class Editor {
    var state: State
    var idx: int
    /** One cell more than the program has: an overlong line is stored before it is noticed. */
    const buffer: array<byte>
    /** What the fields stand for. */
    ghost var edit: Edit

    ghost predicate Valid()
      reads this, buffer
    {
      && buffer.Length == CMD_BUFF_SZ + 1
      && (state == StWait <==> edit.Waiting?)
      && Fits(edit)
      && (edit.Editing? ==> idx == |edit.text| && buffer[..CMD_BUFF_SZ] == Image(edit))
    }

    constructor ()
      ensures Valid() && fresh(buffer) && edit == Waiting
    {
      state, idx, edit := StWait, 0, Waiting;
      buffer := new byte[4097](_ => 0);
    }

    method CmdParse(b: byte) returns (out: Outcome)
      requires Valid()
      modifies this, buffer
      ensures Valid()
      ensures edit == Key(old(edit), b) && out == Result(old(edit), b)
    {
      out := Quiet;
      if state == StWait {
        WaitByte(b);
      } else {
        out := BufferByte(b);
      }
    }

    method WaitByte(b: byte)
      requires Valid() && state == StWait
      modifies this, buffer
      ensures Valid() && edit == Key(old(edit), b)
    {
      if b == DOLLAR {
        forall i | 0 <= i < buffer.Length {
          buffer[i] := 0;
        }
        idx := 0;
        state := StBuffering;
        edit := Editing([], []);
        assert buffer[..CMD_BUFF_SZ] == Image(edit);
      }
    }

    method BufferByte(b: byte) returns (out: Outcome)
      requires Valid() && state == StBuffering
      modifies this, buffer
      ensures Valid()
      ensures edit == Key(old(edit), b) && out == Result(old(edit), b)
    {
      out := Quiet;
      ghost var text, stale := edit.text, edit.stale;
      if b == LF || b == CR {
        state := StWait;
        out := Handed(buffer[..CMD_BUFF_SZ], idx);
        edit := Waiting;
      } else if b == BS {
        if idx == 0 {
          state := StWait;
          edit := Waiting;
        } else {
          edit := Editing(text[..|text| - 1], [text[|text| - 1]] + stale);
          assert Image(edit) == Image(Editing(text, stale));
        }
        idx := idx - 1;
      } else {
        buffer[idx] := b;
        idx := idx + 1;
        if idx > CMD_BUFF_SZ {
          state := StWait;
          edit := Waiting;
          out := Full;
        } else {
          edit := Editing(text + [b], if stale == [] then [] else stale[1..]);
          assert Image(edit) == Image(Editing(text, stale))[|text| := b];
        }
      }
    }

    /** The main loop's use of the editor. */
    method Feed(stream: seq<byte>) returns (lines: seq<Outcome>)
      requires Valid()
      modifies this, buffer
      ensures Valid() && edit == Fold(old(edit), stream) && lines == Lines(old(edit), stream)
    {
      lines := [];
      var i := 0;
      assert stream[0..] == stream;
      while i < |stream|
        invariant 0 <= i <= |stream| && Valid()
        invariant Fold(old(edit), stream) == Fold(edit, stream[i..])
        invariant Lines(old(edit), stream) == lines + Lines(edit, stream[i..])
      {
        assert stream[i..][0] == stream[i] && stream[i..][1..] == stream[i + 1..];
        ghost var before, rest := lines, Lines(Key(edit, stream[i]), stream[i + 1..]);
        var out := CmdParse(stream[i]);
        if out.Handed? {
          lines := lines + [out];
        }
        assert before + ((if out.Handed? then [out] else []) + rest) == lines + rest;
        i := i + 1;
      }
    }
  }

  // ---- What the fold means -----------------------------------------------------------

  lemma {:induction false} FoldAppend(e: Edit, a: seq<byte>, b: seq<byte>)
    requires Fits(e)
    ensures Fold(e, a + b) == Fold(Fold(e, a), b)
    ensures Lines(e, a + b) == Lines(e, a) + Lines(Fold(e, a), b)
    decreases |a|
  {
    if a == [] {
      assert a + b == b;
    } else {
      assert (a + b)[0] == a[0] && (a + b)[1..] == a[1..] + b;
      FoldAppend(Key(e, a[0]), a[1..], b);
    }
  }

  /** A byte that only extends the line. */
  predicate Plain(b: byte) {
    !EndsLine(b) && b != BS
  }

  lemma PlainKey(text: seq<byte>, b: byte)
    requires Plain(b) && |text| < CMD_BUFF_SZ
    ensures Key(Editing(text, []), b) == Editing(text + [b], []) && Result(Editing(text, []), b) == Quiet
  {
  }

  lemma {:induction false} PlainTyping(text: seq<byte>, more: seq<byte>)
    requires forall i :: 0 <= i < |more| ==> Plain(more[i])
    requires |text| + |more| <= CMD_BUFF_SZ
    ensures Fold(Editing(text, []), more) == Editing(text + more, [])
    ensures Lines(Editing(text, []), more) == []
    decreases |more|
  {
    if more == [] {
      assert text + more == text;
    } else {
      var b, rest := more[0], more[1..];
      PlainKey(text, b);
      PlainTyping(text + [b], rest);
      assert (text + [b]) + rest == text + more by { assert more == [b] + rest; }
    }
  }

  lemma PlainStart(text: seq<byte>)
    requires |text| <= CMD_BUFF_SZ && forall i :: 0 <= i < |text| ==> Plain(text[i])
    ensures Fold(Waiting, [DOLLAR] + text) == Editing(text, []) && Lines(Waiting, [DOLLAR] + text) == []
  {
    FoldAppend(Waiting, [DOLLAR], text);
    PlainTyping([], text);
    assert [DOLLAR][1..] == [];
    assert Fold(Waiting, [DOLLAR]) == Editing([], []) && Lines(Waiting, [DOLLAR]) == [];
    assert [] + text == text;
  }

  lemma PlainEnd(text: seq<byte>, end: byte)
    requires |text| <= CMD_BUFF_SZ && EndsLine(end)
    ensures Lines(Editing(text, []), [end]) == [Handed(text + Zeros(CMD_BUFF_SZ - |text|), |text|)]
  {
    assert [end][1..] == [];
    assert Image(Editing(text, [])) == text + Zeros(CMD_BUFF_SZ - |text|);
  }

  /** A line typed without backspaces is handed over as it is, with nothing but NULs behind it. */
  lemma PlainLine(text: seq<byte>, end: byte)
    requires forall i :: 0 <= i < |text| ==> Plain(text[i])
    requires |text| <= CMD_BUFF_SZ && EndsLine(end)
    ensures Lines(Waiting, [DOLLAR] + text + [end]) == [Handed(text + Zeros(CMD_BUFF_SZ - |text|), |text|)]
  {
    FoldAppend(Waiting, [DOLLAR] + text, [end]);
    PlainStart(text);
    PlainEnd(text, end);
  }

  /** Entering what is being edited hands it over, and the editor waits for the next line. */
  lemma Entered(keys: seq<byte>, text: seq<byte>, stale: seq<byte>, end: byte)
    requires EndsLine(end) && |text| + |stale| <= CMD_BUFF_SZ
    requires Fold(Waiting, keys) == Editing(text, stale) && Lines(Waiting, keys) == []
    ensures Fold(Waiting, keys + [end]) == Waiting
    ensures Lines(Waiting, keys + [end]) == [Handed(Image(Editing(text, stale)), |text|)]
  {
    FoldAppend(Waiting, keys, [end]);
    assert [end][1..] == [];
  }

  /** A backspace on an empty line abandons it: what follows is read as if nothing had been begun. */
  lemma EmptyLineAbandoned(stream: seq<byte>)
    ensures Lines(Waiting, [0x24, 0x08] + stream) == Lines(Waiting, stream)
    ensures Fold(Waiting, [0x24, 0x08] + stream) == Fold(Waiting, stream)
  {
    FoldAppend(Waiting, [0x24, 0x08], stream);
    assert [0x24, 0x08][1..] == [0x08] && [0x08][1..] == [];
    assert Fold(Waiting, [0x24, 0x08]) == Fold(Key(Waiting, 0x24), [0x08]);
  }

  /**
   * What a key does to the buffer: a character goes over the one behind the line, so that what a backspace has
   * left is overwritten one by one; a backspace only moves the end of the line.
   */
  lemma KeysEditBuffer(e: Edit, b: byte)
    requires e.Editing? && Fits(e)
    ensures b != 0x0a && b != 0x0d && b != 0x08 && |e.text| < 4096 ==>
              var k := Key(e, b);
              k.Editing? && k.text == e.text + [b] && Image(k) == Image(e)[|e.text| := b]
    ensures b == 0x08 && e.text != [] ==>
              var k := Key(e, b);
              k.Editing? && k.text == e.text[..|e.text| - 1] && Image(k) == Image(e)
  {
    if b == 0x08 && e.text != [] {
      Erased(e.text, e.stale, Zeros(CMD_BUFF_SZ - |e.text| - |e.stale|));
    } else if b != 0x0a && b != 0x0d && b != 0x08 && |e.text| < 4096 {
      Overtyped(e, b, Key(e, b));
    }
  }

  lemma Erased(text: seq<byte>, stale: seq<byte>, zeros: seq<byte>)
    requires text != []
    ensures text[..|text| - 1] + ([text[|text| - 1]] + stale) + zeros == text + stale + zeros
  {
  }

  lemma Overtyped(e: Edit, b: byte, k: Edit)
    requires e.Editing? && Fits(e) && |e.text| < CMD_BUFF_SZ && Fits(k)
    requires k == Editing(e.text + [b], if e.stale == [] then [] else e.stale[1..])
    ensures Image(k) == Image(e)[|e.text| := b]
  {
  }

  /** Outside a line, everything but `$` is ignored. */
  lemma OutsideIgnored(x: byte, stream: seq<byte>)
    requires x != 0x24
    ensures Lines(Waiting, [x] + stream) == Lines(Waiting, stream)
  {
    assert ([x] + stream)[1..] == stream;
  }

  /** A line is ended by LF and by CR, and by nothing else. */
  lemma EndedBy(text: seq<byte>, b: byte)
    requires |text| <= CMD_BUFF_SZ
    ensures Result(Editing(text, []), b).Handed? <==> b == 0x0a || b == 0x0d
  {
  }

  /** The 4097th character is answered with a complaint, and the line is given up. */
  lemma OverlongRefused(text: seq<byte>, b: byte)
    requires |text| == 4096 && (forall i :: 0 <= i < |text| ==> Plain(text[i])) && b != 0x0a && b != 0x0d && b != 0x08
    ensures var e := Fold(Waiting, [0x24] + text);
            e == Editing(text, []) && Result(e, b) == Full && Key(e, b) == Waiting
  {
    PlainStart(text);
  }

  /** Without a backspace nothing is ever left stale. */
  lemma {:induction false} NothingStale(e: Edit, stream: seq<byte>)
    requires Fits(e) && (e.Editing? ==> e.stale == []) && BS !in stream
    ensures var f := Fold(e, stream); f.Editing? ==> f.stale == []
    ensures forall k :: 0 <= k < |Lines(e, stream)| ==>
              var l := Lines(e, stream)[k];
              l.Handed? && l.len <= |l.buffer| == CMD_BUFF_SZ && l.buffer[l.len..] == Zeros(CMD_BUFF_SZ - l.len)
    decreases |stream|
  {
    if stream != [] {
      var b := stream[0];
      assert b in stream;
      NothingStale(Key(e, b), stream[1..]);
      if e.Editing? && EndsLine(b) {
        assert Image(e)[|e.text|..] == Zeros(CMD_BUFF_SZ - |e.text|);
      }
    }
  }

  /** Two states in which the same line is being edited, whatever lies stale behind it. */
  predicate SameText(e: Edit, f: Edit) {
    (e.Waiting? && f.Waiting?) || (e.Editing? && f.Editing? && e.text == f.text)
  }

  predicate SameLines(a: seq<Outcome>, b: seq<Outcome>) {
    && |a| == |b|
    && forall k :: 0 <= k < |a| ==>
         && a[k].Handed? && b[k].Handed? && a[k].len == b[k].len
         && a[k].len <= |a[k].buffer| && b[k].len <= |b[k].buffer|
         && a[k].buffer[..a[k].len] == b[k].buffer[..b[k].len]
  }

  lemma {:induction false} SameTextSameLines(e: Edit, f: Edit, stream: seq<byte>)
    requires Fits(e) && Fits(f) && SameText(e, f)
    ensures SameText(Fold(e, stream), Fold(f, stream)) && SameLines(Lines(e, stream), Lines(f, stream))
    decreases |stream|
  {
    if stream != [] {
      SameTextSameLines(Key(e, stream[0]), Key(f, stream[0]), stream[1..]);
      if e.Editing? {
        assert Image(e)[..|e.text|] == e.text && Image(f)[..|f.text|] == f.text;
      }
    }
  }

  /** Typing a character and erasing it, anywhere in a stream, changes no line that is handed over. */
  lemma EraseInvisible(before: seq<byte>, x: byte, after: seq<byte>)
    requires Plain(x)
    requires var e := Fold(Waiting, before); e.Editing? && |e.text| < CMD_BUFF_SZ
    ensures SameLines(Lines(Waiting, before + [x, BS] + after), Lines(Waiting, before + after))
  {
    var e := Fold(Waiting, before);
    FoldAppend(Waiting, before, after);
    FoldAppend(Waiting, before + [x, BS], after);
    FoldAppend(Waiting, before, [x, BS]);
    var e1 := Key(e, x);
    var e2 := Key(e1, BS);
    assert [x, BS][1..] == [BS] && [BS][1..] == [];
    assert Fold(e, [x, BS]) == Fold(e1, [BS]) == Fold(e2, []) == e2;
    assert Lines(e, [x, BS]) == Lines(e1, [BS]) == Lines(e2, []) == [];
    assert SameText(e2, e) by {
      assert (e.text + [x])[..|e.text|] == e.text;
    }
    SameTextSameLines(e2, e, after);
    SameLinesItself(Waiting, before);
  }

  lemma {:induction false} SameLinesItself(e: Edit, stream: seq<byte>)
    requires Fits(e)
    ensures SameLines(Lines(e, stream), Lines(e, stream))
    decreases |stream|
  {
    if stream != [] {
      SameLinesItself(Key(e, stream[0]), stream[1..]);
    }
  }
}
