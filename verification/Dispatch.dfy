/** The command table and its search. */
module Dispatch {
  import opened Bytes
  import LineEditor

  const W: seq<byte> := [0x57]
  const R: seq<byte> := [0x52]
  const TXRAW: seq<byte> := [0x24, 0x54, 0x58, 0x52, 0x41, 0x57]
  const TX: seq<byte> := [0x24, 0x54, 0x58]
  const RX: seq<byte> := [0x24, 0x52, 0x58]
  const FPUT: seq<byte> := [0x24, 0x46, 0x50, 0x55, 0x54]
  const FGET: seq<byte> := [0x24, 0x46, 0x47, 0x45, 0x54]
  const UNLOCK: seq<byte> := [0x24, 0x55, 0x4e, 0x4c, 0x4f, 0x43, 0x4b]
  const UPDATE: seq<byte> := [0x24, 0x55, 0x50, 0x44, 0x41, 0x54, 0x45]
  const GNSSEN: seq<byte> := [0x24, 0x47, 0x4e, 0x53, 0x53, 0x45, 0x4e]
  const GNSSLOC: seq<byte> := [0x24, 0x47, 0x4e, 0x53, 0x53, 0x4c, 0x4f, 0x43]
  const GNSSNMEA: seq<byte> := [0x24, 0x47, 0x4e, 0x53, 0x53, 0x4e, 0x4d, 0x45, 0x41]
  const GNSSSTAT: seq<byte> := [0x24, 0x47, 0x4e, 0x53, 0x53, 0x53, 0x54, 0x41, 0x54]

  const TABLE: seq<seq<byte>> :=
    [W, R, TXRAW, TX, RX, FPUT, FGET, UNLOCK, UPDATE, GNSSEN, GNSSLOC, GNSSNMEA, GNSSSTAT]

  /** Usable names: neither empty nor long, and without spaces. */
  predicate Named(table: seq<seq<byte>>) {
    forall i :: 0 <= i < |table| ==> 0 < |table[i]| < 16 && SPACE !in table[i]
  }

  /** The test made for one entry: the name, then the end of the line or a space. */
  predicate Matches(buffer: seq<byte>, len: nat, name: seq<byte>)
    requires |name| < |buffer|
  {
    buffer[..|name|] == name && (len == |name| || buffer[|name|] == SPACE)
  }

  /** The first entry from `k` on that matches. */
  function Search(table: seq<seq<byte>>, buffer: seq<byte>, len: nat, k: nat): (r: Option<nat>)
    requires Named(table) && |buffer| >= 16
    ensures r.Some? ==> k <= r.value < |table| && Matches(buffer, len, table[r.value])
    ensures r.Some? ==> forall i :: k <= i < r.value ==> !Matches(buffer, len, table[i])
    ensures r.None? ==> forall i :: k <= i < |table| ==> !Matches(buffer, len, table[i])
    decreases |table| - k
  {
    if k >= |table| then None
    else if Matches(buffer, len, table[k]) then Some(k)
    else Search(table, buffer, len, k + 1)
  }

  /** The length of the argument behind a name of `n` characters, in the sixteen bits of its parameter. */
  function ArgLen(len: nat, n: nat): nat {
    (len - n) % 65536
  }

  /** The entry whose handler is called, and the length it is given with the text behind the name. */
  method CmdAsciiParse(table: seq<seq<byte>>, buffer: seq<byte>, len: nat) returns (found: Option<nat>, argLen: nat)
    requires Named(table) && |buffer| >= 16
    ensures found == Search(table, buffer, len, 0)
    ensures found.Some? ==> argLen == ArgLen(len, |table[found.value]|)
  {
    var idx := 0;
    while idx < |table|
      invariant 0 <= idx <= |table|
      invariant Search(table, buffer, len, 0) == Search(table, buffer, len, idx)
    {
      var nameLen := |table[idx]|;
      if buffer[..nameLen] == table[idx] {
        if len == nameLen || buffer[nameLen] == SPACE {
          return Some(idx), (len - nameLen) % 65536;
        }
      }
      idx := idx + 1;
    }
    return None, 0;
  }

  // ---- What the search finds -------------------------------------------------------

  /** The text before the first space, or all of it. */
  function FirstWord(text: seq<byte>): (w: seq<byte>)
    ensures w <= text && SPACE !in w
    ensures |w| < |text| ==> text[|w|] == SPACE
  {
    if text == [] || text[0] == SPACE then [] else [text[0]] + FirstWord(text[1..])
  }

  /**
   * A text without a space has none behind it in the buffer either. NULs behind the text satisfy
   * this, and so does anything at all behind a text that has a space itself.
   */
  predicate Clean(buffer: seq<byte>, len: nat) {
    len <= |buffer| && (|FirstWord(buffer)| <= len || FirstWord(buffer) == buffer)
  }

  lemma NoSpaceBehind(buffer: seq<byte>, len: nat)
    requires len <= |buffer| && SPACE !in buffer[len..]
    ensures Clean(buffer, len)
  {
    forall k | len <= k < |buffer| ensures buffer[k] != SPACE {
      assert buffer[k] == buffer[len..][k - len];
    }
  }

  /** Lines typed without backspaces are clean. */
  lemma TypedLinesClean(stream: seq<byte>, i: nat)
    requires BS !in stream && i < |LineEditor.Lines(LineEditor.Waiting, stream)|
    ensures var l := LineEditor.Lines(LineEditor.Waiting, stream)[i]; l.Handed? && Clean(l.buffer, l.len)
  {
    LineEditor.NothingStale(LineEditor.Waiting, stream);
    var l := LineEditor.Lines(LineEditor.Waiting, stream)[i];
    assert SPACE !in Zeros(LineEditor.CMD_BUFF_SZ - l.len);
    NoSpaceBehind(l.buffer, l.len);
  }

  /** The first word of the text is that of the buffer, unless the text ends before it. */
  lemma FirstWordOfText(buffer: seq<byte>, len: nat)
    requires len <= |buffer|
    ensures var v := FirstWord(buffer); FirstWord(buffer[..len]) == if |v| <= len then v else buffer[..len]
  {
    var v, w := FirstWord(buffer), FirstWord(buffer[..len]);
    assert forall k :: 0 <= k < |v| ==> buffer[k] == v[k] != SPACE;
    assert forall k :: 0 <= k < |w| ==> buffer[k] == w[k] != SPACE;
    assert |w| < len ==> buffer[|w|] == SPACE;
    assert v == buffer[..|v|] && w == buffer[..|w|];
  }

  /** An entry matches when it is all that precedes the first space, or all of a text without one. */
  lemma MatchesWord(buffer: seq<byte>, len: nat, name: seq<byte>)
    requires len <= |buffer| && |name| < |buffer| && SPACE !in name
    ensures var v := FirstWord(buffer);
            Matches(buffer, len, name) <==> name == v || (len == |name| <= |v| && name == buffer[..len])
  {
    var v, n := FirstWord(buffer), |name|;
    assert v == buffer[..|v|];
    assert forall k :: 0 <= k < |v| ==> buffer[k] == v[k] != SPACE;
    if buffer[..n] == name {
      assert forall k :: 0 <= k < n ==> buffer[k] == name[k] != SPACE;
    }
  }

  /** An entry matches exactly when it is the first word of the line. */
  lemma MatchesIffFirstWord(buffer: seq<byte>, len: nat, name: seq<byte>)
    requires Clean(buffer, len) && 0 < |name| < |buffer| && SPACE !in name
    ensures Matches(buffer, len, name) <==> name == FirstWord(buffer[..len])
  {
    MatchesWord(buffer, len, name);
    FirstWordOfText(buffer, len);
  }

  /** And clean lines are the only ones on which that is so. */
  lemma FirstWordIffClean(buffer: seq<byte>, len: nat)
    requires len <= |buffer|
    ensures Clean(buffer, len) <==>
            forall name: seq<byte> :: 0 < |name| < |buffer| && SPACE !in name ==>
              (Matches(buffer, len, name) <==> name == FirstWord(buffer[..len]))
  {
    if Clean(buffer, len) {
      forall name: seq<byte> | 0 < |name| < |buffer| && SPACE !in name
        ensures Matches(buffer, len, name) <==> name == FirstWord(buffer[..len])
      {
        MatchesIffFirstWord(buffer, len, name);
      }
    } else {
      var v := FirstWord(buffer);
      FirstWordOfText(buffer, len);
      MatchesWord(buffer, len, v);
      assert Matches(buffer, len, v) && v != FirstWord(buffer[..len]);
    }
  }

  /** The search finds the first word of the line if the table has it, and nothing else. */
  lemma SearchFindsFirstWord(table: seq<seq<byte>>, buffer: seq<byte>, len: nat)
    requires Named(table) && |buffer| >= 16 && Clean(buffer, len)
    ensures var r, w := Search(table, buffer, len, 0), FirstWord(buffer[..len]);
            && (r.Some? <==> w in table)
            && (r.Some? ==> table[r.value] == w && |w| <= len && buffer[..len] == w + buffer[|w|..len])
  {
    var w := FirstWord(buffer[..len]);
    forall i | 0 <= i < |table| ensures Matches(buffer, len, table[i]) <==> table[i] == w {
      MatchesIffFirstWord(buffer, len, table[i]);
    }
    var r := Search(table, buffer, len, 0);
    if w in table {
      var i :| 0 <= i < |table| && table[i] == w;
      assert Matches(buffer, len, table[i]);
    }
    if r.Some? {
      assert buffer[..len][..|w|] == w;
      assert buffer[..len] == buffer[..|w|] + buffer[|w|..len];
    }
  }

  /**
   * The length handed on is that of the text behind the name unless the name is longer than the line,
   * which it is exactly when it ends at a space that stands behind the text.
   */
  lemma ArgLenIff(table: seq<seq<byte>>, buffer: seq<byte>, len: nat)
    requires Named(table) && |buffer| >= 16 && len <= |buffer| && len < 65536 && Search(table, buffer, len, 0).Some?
    ensures var name := table[Search(table, buffer, len, 0).value];
            && (|name| <= len <==> ArgLen(len, |name|) == len - |name|)
            && (|name| > len <==> |FirstWord(buffer)| > len && name == FirstWord(buffer))
            && (Clean(buffer, len) ==> |name| <= len)
  {
    var name := table[Search(table, buffer, len, 0).value];
    MatchesWord(buffer, len, name);
  }

  /** Rearranging the table changes neither the command chosen nor its argument. */
  lemma OrderIndependent(table: seq<seq<byte>>, other: seq<seq<byte>>, buffer: seq<byte>, len: nat)
    requires Named(table) && |buffer| >= 16 && Clean(buffer, len)
    requires multiset(table) == multiset(other)
    ensures Named(other)
    ensures var a, b := Search(table, buffer, len, 0), Search(other, buffer, len, 0);
            (a.Some? <==> b.Some?) && (a.Some? ==> table[a.value] == other[b.value])
  {
    forall i | 0 <= i < |other| ensures 0 < |other[i]| < 16 && SPACE !in other[i] {
      assert other[i] in multiset(other);
      assert other[i] in table;
    }
    SearchFindsFirstWord(table, buffer, len);
    SearchFindsFirstWord(other, buffer, len);
    var w := FirstWord(buffer[..len]);
    assert w in table <==> w in multiset(table);
    assert w in other <==> w in multiset(other);
  }

  predicate Distinct(table: seq<seq<byte>>) {
    forall i, j :: 0 <= i < j < |table| ==> table[i] != table[j]
  }

  lemma TableNamed()
    ensures Named(TABLE)
  {
    assert forall i :: 0 <= i < |TABLE| ==> SPACE !in TABLE[i];
  }

  function Ascii(s: string): seq<byte> {
    seq(|s|, i requires 0 <= i < |s| => if s[i] < 256 as char then s[i] as int else 0)
  }

  /** The thirteen names, in order. */
  lemma TableSpelled()
    ensures TABLE == [Ascii("W"), Ascii("R"), Ascii("$TXRAW"), Ascii("$TX"), Ascii("$RX"), Ascii("$FPUT"),
                      Ascii("$FGET"), Ascii("$UNLOCK"), Ascii("$UPDATE"), Ascii("$GNSSEN"), Ascii("$GNSSLOC"),
                      Ascii("$GNSSNMEA"), Ascii("$GNSSSTAT")]
  {
    assert Ascii("W") == W && Ascii("R") == R && Ascii("$TXRAW") == TXRAW && Ascii("$TX") == TX && Ascii("$RX") == RX;
    assert Ascii("$FPUT") == FPUT && Ascii("$FGET") == FGET;
    assert Ascii("$UNLOCK") == UNLOCK && Ascii("$UPDATE") == UPDATE;
    assert Ascii("$GNSSEN") == GNSSEN && Ascii("$GNSSLOC") == GNSSLOC;
    assert Ascii("$GNSSNMEA") == GNSSNMEA && Ascii("$GNSSSTAT") == GNSSSTAT;
  }

  lemma TableDistinct()
    ensures Distinct(TABLE)
  {
    assert W[0] != R[0];
    assert TX[1] != RX[1];
    assert FPUT[2] != FGET[2];
    assert UNLOCK[2] != UPDATE[2] && UNLOCK[1] != GNSSEN[1] && UPDATE[1] != GNSSEN[1];
    assert GNSSNMEA[5] != GNSSSTAT[5];
  }

  /** At most one entry of the program's table matches a line. */
  lemma AtMostOneMatch(buffer: seq<byte>, len: nat, i: nat, j: nat)
    requires |buffer| >= 16 && Clean(buffer, len) && i < |TABLE| && j < |TABLE|
    requires |TABLE[i]| < |buffer| && |TABLE[j]| < |buffer|
    requires Matches(buffer, len, TABLE[i]) && Matches(buffer, len, TABLE[j])
    ensures i == j
  {
    TableNamed();
    TableDistinct();
    MatchesIffFirstWord(buffer, len, TABLE[i]);
    MatchesIffFirstWord(buffer, len, TABLE[j]);
  }

  /** Neither of two names begins with the other. */
  predicate Apart(a: seq<byte>, b: seq<byte>) {
    exists k :: 0 <= k < |a| && k < |b| && a[k] != b[k]
  }

  /** An entry that matches is the one chosen if none before it could match the same characters. */
  lemma FirstMatch(table: seq<seq<byte>>, buffer: seq<byte>, len: nat, i: nat)
    requires Named(table) && |buffer| >= 16 && i < |table| && Matches(buffer, len, table[i])
    requires forall j :: 0 <= j < i ==> Apart(table[j], table[i])
    ensures Search(table, buffer, len, 0) == Some(i)
  {
    forall j | 0 <= j < i ensures !Matches(buffer, len, table[j]) {
      var k :| 0 <= k < |table[j]| && k < |table[i]| && table[j][k] != table[i][k];
      assert buffer[..|table[i]|][k] == buffer[k] && buffer[..|table[j]|][k] == buffer[k];
    }
  }

  lemma UnlockAndUpdateApart()
    ensures forall j :: 0 <= j < 7 ==> Apart(TABLE[j], TABLE[7])
    ensures forall j :: 0 <= j < 8 ==> Apart(TABLE[j], TABLE[8])
  {
    assert W[0] != UNLOCK[0] && W[0] != UPDATE[0] && R[0] != UNLOCK[0] && R[0] != UPDATE[0];
    assert TXRAW[1] != UNLOCK[1] && TXRAW[1] != UPDATE[1] && TX[1] != UNLOCK[1] && TX[1] != UPDATE[1];
    assert RX[1] != UNLOCK[1] && RX[1] != UPDATE[1];
    assert FPUT[1] != UNLOCK[1] && FPUT[1] != UPDATE[1] && FGET[1] != UNLOCK[1] && FGET[1] != UPDATE[1];
    assert UNLOCK[2] != UPDATE[2];
  }

  const RAW_SPACE: seq<byte> := [0x52, 0x41, 0x57, SPACE]

  /** The keys typed: the whole name, a space, and four backspaces. */
  const ERASING: seq<byte> := [LineEditor.DOLLAR] + ((TX + RAW_SPACE) + Backs(4))

  /**
   * Backspaces can break this: erasing `RAW ` from a line leaves its space behind the text, and
   * then two entries match, so that the order of the table decides. It decides for the longer name,
   * and hands on a length that has wrapped.
   */
  lemma StaleSpaceAmbiguous()
    ensures var e := LineEditor.Fold(LineEditor.Waiting, ERASING);
            && e == LineEditor.Editing(TX, RAW_SPACE)
            && Matches(LineEditor.Image(e), |TX|, TX) && Matches(LineEditor.Image(e), |TX|, TXRAW)
            && Named(TABLE) && Search(TABLE, LineEditor.Image(e), |TX|, 0) == Some(2) && TABLE[2] == TXRAW
            && ArgLen(|TX|, |TXRAW|) == 65533
  {
    ErasingLeaves(TX, RAW_SPACE);
    StaleMatches();
    StaleChosen(LineEditor.Image(LineEditor.Editing(TX, RAW_SPACE)));
  }

  lemma StaleChosen(buffer: seq<byte>)
    requires |buffer| >= 16 && buffer[0] == TX[0] && Matches(buffer, |TX|, TXRAW)
    ensures Named(TABLE) && Search(TABLE, buffer, |TX|, 0) == Some(2)
  {
    TableNamed();
    assert buffer[..1][0] != W[0] && buffer[..1][0] != R[0];
    assert !Matches(buffer, |TX|, TABLE[0]) && !Matches(buffer, |TX|, TABLE[1]);
    assert Search(TABLE, buffer, |TX|, 0) == Search(TABLE, buffer, |TX|, 1) == Search(TABLE, buffer, |TX|, 2);
  }

  lemma StaleMatches()
    ensures var e := LineEditor.Editing(TX, RAW_SPACE);
            && Matches(LineEditor.Image(e), |TX|, TX) && Matches(LineEditor.Image(e), |TX|, TXRAW)
            && LineEditor.Image(e)[0] == TX[0]
  {
    var i := LineEditor.Image(LineEditor.Editing(TX, RAW_SPACE));
    assert i == (TX + RAW_SPACE) + Zeros(LineEditor.CMD_BUFF_SZ - 7);
    assert i[..7] == TX + RAW_SPACE == TXRAW + [SPACE];
    assert i[..3] == i[..7][..3] && i[..6] == i[..7][..6] && i[6] == i[..7][6] && i[0] == i[..7][0];
  }

  /** That many backspaces. */
  function Backs(n: nat): (s: seq<byte>)
    ensures |s| == n
  {
    seq(n, _ => BS)
  }

  lemma ErasingLeaves(text: seq<byte>, tail: seq<byte>)
    requires |text| + |tail| <= LineEditor.CMD_BUFF_SZ
    requires forall i :: 0 <= i < |text| ==> LineEditor.Plain(text[i])
    requires forall i :: 0 <= i < |tail| ==> LineEditor.Plain(tail[i])
    ensures LineEditor.Fold(LineEditor.Waiting, [LineEditor.DOLLAR] + ((text + tail) + Backs(|tail|)))
         == LineEditor.Editing(text, tail)
    ensures LineEditor.Lines(LineEditor.Waiting, [LineEditor.DOLLAR] + ((text + tail) + Backs(|tail|))) == []
  {
    var typed, backs, start := text + tail, Backs(|tail|), LineEditor.Editing([], []);
    LineEditor.FoldAppend(LineEditor.Waiting, [LineEditor.DOLLAR], typed + backs);
    assert [LineEditor.DOLLAR][1..] == [];
    assert LineEditor.Fold(LineEditor.Waiting, [LineEditor.DOLLAR]) == start;
    assert LineEditor.Lines(LineEditor.Waiting, [LineEditor.DOLLAR]) == [];
    LineEditor.FoldAppend(start, typed, backs);
    LineEditor.PlainTyping([], typed);
    assert [] + typed == typed;
    TakenBack(text, tail, []);
    assert tail + [] == tail;
  }

  lemma {:induction false} TakenBack(text: seq<byte>, tail: seq<byte>, stale: seq<byte>)
    requires |text| + |tail| + |stale| <= LineEditor.CMD_BUFF_SZ
    ensures LineEditor.Fold(LineEditor.Editing(text + tail, stale), Backs(|tail|))
         == LineEditor.Editing(text, tail + stale)
    ensures LineEditor.Lines(LineEditor.Editing(text + tail, stale), Backs(|tail|)) == []
    decreases |tail|
  {
    if tail == [] {
      assert text + tail == text && tail + stale == stale;
    } else {
      var n := |tail| - 1;
      var last := tail[n];
      OneBack(text, tail, stale);
      TakenBack(text, tail[..n], [last] + stale);
      assert Backs(|tail|)[1..] == Backs(n) && Backs(|tail|)[0] == BS;
      assert tail[..n] + ([last] + stale) == tail + stale;
    }
  }

  lemma OneBack(text: seq<byte>, tail: seq<byte>, stale: seq<byte>)
    requires |text| + |tail| + |stale| <= LineEditor.CMD_BUFF_SZ && tail != []
    ensures LineEditor.Key(LineEditor.Editing(text + tail, stale), BS)
         == LineEditor.Editing(text + tail[..|tail| - 1], [tail[|tail| - 1]] + stale)
  {
    assert (text + tail)[..|text + tail| - 1] == text + tail[..|tail| - 1];
  }
}
