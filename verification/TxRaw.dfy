/** `$TXRAW`: a payload given as its size and its bytes in hexadecimal. */
module TxRaw {
  import opened Bytes
  import SipfObject
  import TxCommand

  /** The white space `strtol` skips. */
  predicate IsSpace(c: byte) {
    c == SPACE || 9 <= c <= 13
  }

  /**
   * `strtol(s, &end, 16)` on a string of at most two characters, cut to a byte: None when it stops
   * before the end of the string. Nothing before the end counts as the number 0.
   */
  function ShortStrtol(s: seq<byte>): Option<byte>
    requires |s| <= 2
  {
    if s == [] then Some(0)
    else if |s| == 1 then (if IsHexDigit(s[0]) then Some(DigitValue(s[0]).value) else None)
    else if PairValue(s[0], s[1]).Some? then PairValue(s[0], s[1])
    else if !IsHexDigit(s[1]) then None
    else if IsSpace(s[0]) || s[0] == 0x2b then Some(DigitValue(s[1]).value)
    else if s[0] == 0x2d then Some((256 - DigitValue(s[1]).value) % 256)
    else None
  }

  /** The C string of at most two characters in front of a NUL. */
  function CString2(c: byte, d: byte): seq<byte> {
    if c == NUL then [] else if d == NUL then [c] else [c, d]
  }

  /** The end of the line, or a character that ends it. */
  predicate LineEnd(t: seq<byte>) {
    t == [] || t[0] == NUL || t[0] == CR || t[0] == LF
  }

  function ReadPairs(t: seq<byte>, size: nat): Option<seq<byte>> {
    if size == 0 then (if LineEnd(t) then Some([]) else None)
    else if |t| < 2 || PairValue(t[0], t[1]).None? then None
    else
      match ReadPairs(t[2..], size - 1)
      case None => None
      case Some(bs) => Some([PairValue(t[0], t[1]).value] + bs)
  }

  function RawText(t: seq<byte>): Option<seq<byte>> {
    if |t| < 5 || t[0] != SPACE || t[3] != SPACE then None
    else
      match ShortStrtol(CString2(t[1], t[2]))
      case None => None
      case Some(size) => ReadPairs(t[4..], size)
  }

  lemma {:induction false} PairsStep(t: seq<byte>, size: nat, k: nat, got: seq<byte>)
    requires k < size && 2 * k <= |t| && |got| == k
    ensures |t[2 * k..]| >= 2 && PairValue(t[2 * k], t[2 * k + 1]).Some? ==>
            Joined(got, ReadPairs(t[2 * k..], size - k)) ==
            Joined(got + [PairValue(t[2 * k], t[2 * k + 1]).value], ReadPairs(t[2 * (k + 1)..], size - k - 1))
    ensures |t[2 * k..]| < 2 || PairValue(t[2 * k], t[2 * k + 1]).None? ==> ReadPairs(t[2 * k..], size - k).None?
  {
    var u := t[2 * k..];
    if |u| >= 2 && PairValue(u[0], u[1]).Some? {
      assert u[2..] == t[2 * (k + 1)..];
      var rest := ReadPairs(u[2..], size - k - 1);
      if rest.Some? {
        assert got + ([PairValue(u[0], u[1]).value] + rest.value) == (got + [PairValue(u[0], u[1]).value]) + rest.value;
      }
    }
  }

  function Joined(got: seq<byte>, rest: Option<seq<byte>>): Option<seq<byte>> {
    if rest.Some? then Some(got + rest.value) else None
  }

  /** The longest argument that the size field can call for, and the cell behind it. */
  const MOST_READ: nat := 4 + 2 * 255 + 1

  /** A text and a NUL behind it are read as the text alone, whatever follows. */
  lemma UpToNul(t: seq<byte>, behind: seq<byte>)
    requires |t| >= 5
    ensures RawText(t + [NUL] + behind) == RawText(t)
  {
    var u := t + [NUL] + behind;
    var number := ShortStrtol(CString2(t[1], t[2]));
    if number.Some? {
      assert u[4..] == t[4..] + [NUL] + behind;
      PairsUpToNul(t[4..], behind, number.value);
    }
  }

  lemma {:induction false} PairsUpToNul(t: seq<byte>, behind: seq<byte>, size: nat)
    ensures ReadPairs(t + [NUL] + behind, size) == ReadPairs(t, size)
    decreases size
  {
    var u := t + [NUL] + behind;
    if size > 0 {
      if |t| >= 2 {
        assert u[2..] == t[2..] + [NUL] + behind;
        PairsUpToNul(t[2..], behind, size - 1);
      } else {
        assert u[|t|] == NUL;
      }
    }
  }

  /**
   * The command's parser, on a buffer that holds the text and anything at all behind it: it looks at
   * the buffer and not at the end of the text, and `UpToNul` says when that is the same.
   */
  method Parse(chars: array<byte>, len: nat, buffer: array<byte>) returns (ok: bool, size: byte)
    requires MOST_READ <= chars.Length && buffer.Length == 256 && buffer != chars
    modifies chars, buffer
    ensures ok <==> len >= 5 && RawText(old(chars[..])).Some?
    ensures ok ==> RawText(old(chars[..])) == Some(buffer[..size])
    ensures chars[..] == old(chars[..]) || (len >= 5 && chars[..] == old(chars[..])[0 := NUL][3 := NUL])
  {
    size := 0;
    ghost var text := chars[..];
    if len < 5 {
      return false, 0;
    }
    if chars[0] != SPACE || chars[3] != SPACE {
      return false, 0;
    }
    chars[0] := NUL;
    chars[3] := NUL;
    var number := ShortStrtol(CString2(chars[1], chars[2]));
    if number.None? {
      return false, 0;
    }
    size := number.value;
    assert chars[4..] == text[4..];
    ok := ReadDigits(chars, size, buffer);
  }

  /** The loop over the pairs of digits, and the look at what is behind them. */
  method ReadDigits(chars: array<byte>, size: byte, buffer: array<byte>) returns (ok: bool)
    requires MOST_READ <= chars.Length && buffer.Length == 256 && buffer != chars
    modifies buffer
    ensures ok <==> ReadPairs(chars[4..], size).Some?
    ensures ok ==> ReadPairs(chars[4..], size) == Some(buffer[..size])
  {
    ghost var t := chars[4..];
    var head := 4;
    var i := 0;
    assert t[2 * 0..] == t;
    JoinedNothing(ReadPairs(t, size));
    while i < size
      invariant 0 <= i <= size && head == 4 + 2 * i
      invariant ReadPairs(t, size) == Joined(buffer[..i], ReadPairs(t[2 * i..], size - i))
    {
      PairsStep(t, size, i, buffer[..i]);
      assert chars[head] == t[2 * i] && chars[head + 1] == t[2 * i + 1];
      if !IsHexDigit(chars[head]) || !IsHexDigit(chars[head + 1]) {
        return false;
      }
      ghost var got := buffer[..i];
      buffer[i] := PairValue(chars[head], chars[head + 1]).value;
      assert buffer[..i + 1] == got + [buffer[i]];
      head := head + 2;
      i := i + 1;
    }
    assert chars[head] == t[2 * i];
    ok := chars[head] == NUL || chars[head] == CR || chars[head] == LF;
    assert ok <==> LineEnd(t[2 * i..]);
    assert buffer[..size] + [] == buffer[..size];
  }

  lemma JoinedNothing(rest: Option<seq<byte>>)
    ensures Joined([], rest) == rest
  {
    if rest.Some? {
      assert [] + rest.value == rest.value;
    }
  }

  // ---- What it accepts -------------------------------------------------------------

  lemma {:induction false} ReadPairsIff(t: seq<byte>, size: nat, bs: seq<byte>)
    ensures ReadPairs(t, size) == Some(bs) <==>
            |bs| == size && 2 * size <= |t| && Spells(t[..2 * size], bs) && LineEnd(t[2 * size..])
    decreases size
  {
    if size == 0 {
      assert t[0..] == t;
    } else if |t| >= 2 {
      if bs != [] {
        ReadPairsIff(t[2..], size - 1, bs[1..]);
        SpellsSplit(t, size, bs);
        assert [bs[0]] + bs[1..] == bs;
      }
      if ReadPairs(t, size) == Some(bs) {
        var rest := ReadPairs(t[2..], size - 1).value;
        assert bs[1..] == rest;
      }
    }
  }

  lemma SpellsSplit(t: seq<byte>, size: nat, bs: seq<byte>)
    requires size > 0 && |t| >= 2 && bs != []
    ensures |bs| == size && 2 * size <= |t| ==>
              (Spells(t[..2 * size], bs) <==>
               PairValue(t[0], t[1]) == Some(bs[0]) && Spells(t[2..][..2 * (size - 1)], bs[1..]))
    ensures 2 * size <= |t| ==> t[2..][2 * (size - 1)..] == t[2 * size..]
  {
    if |bs| == size && 2 * size <= |t| {
      var u, v := t[..2 * size], t[2..][..2 * (size - 1)];
      if Spells(u, bs) {
        assert PairValue(u[2 * 0], u[2 * 0 + 1]) == Some(bs[0]);
        forall i | 0 <= i < |bs[1..]| ensures PairValue(v[2 * i], v[2 * i + 1]) == Some(bs[1..][i]) {
          assert v[2 * i] == u[2 * (i + 1)] && v[2 * i + 1] == u[2 * (i + 1) + 1];
        }
      }
      if PairValue(t[0], t[1]) == Some(bs[0]) && Spells(v, bs[1..]) {
        forall i | 0 <= i < |bs| ensures PairValue(u[2 * i], u[2 * i + 1]) == Some(bs[i]) {
          if i > 0 {
            assert v[2 * (i - 1)] == u[2 * i] && v[2 * (i - 1) + 1] == u[2 * i + 1];
          }
        }
      }
    }
  }

  /** With a two-digit size, exactly that many bytes are read, and nothing may follow them on the line. */
  lemma RawTextIff(t: seq<byte>, n: byte, bs: seq<byte>)
    requires |t| >= 5 && t[0] == SPACE && t[3] == SPACE && PairValue(t[1], t[2]) == Some(n)
    ensures RawText(t) == Some(bs) <==>
            |bs| == n && 4 + 2 * |bs| <= |t| && Spells(t[4..][..2 * |bs|], bs) && LineEnd(t[4..][2 * |bs|..])
  {
    assert t[1] != NUL && t[2] != NUL;
    ReadPairsIff(t[4..], n, bs);
  }

  /** The canonical argument for `bs`. */
  function RawLine(bs: seq<byte>): seq<byte>
    requires |bs| <= 255
  {
    [SPACE] + Hex(|bs|) + [SPACE] + HexText(bs)
  }

  lemma RawRoundTrip(bs: seq<byte>)
    requires 1 <= |bs| <= 255
    ensures RawText(RawLine(bs)) == Some(bs)
  {
    var t, h := RawLine(bs), Hex(|bs|);
    assert t[1] == h[0] && t[2] == h[1] && t[3] == SPACE;
    assert t[4..] == HexText(bs) && t[4..][..2 * |bs|] == HexText(bs) && t[4..][2 * |bs|..] == [];
    HexTextSpells(bs);
    RawTextIff(t, |bs|, bs);
  }

  /**
   * Both commands send the same packet: the objects spelled out for `$TX`, and their records in
   * hexadecimal for `$TXRAW`.
   */
  lemma RawAgreesWithTx(t: seq<byte>, objs: seq<SipfObject.Obj>)
    requires TxCommand.ParseText(t) == Some(objs) && |SipfObject.Records(objs)| <= 255
    ensures var bs := SipfObject.Records(objs);
            && RawText(RawLine(bs)) == Some(bs)
            && SipfObject.Packet(bs)[12..] == bs && BigEndian(SipfObject.Packet(bs)[10..12]) == |bs|
  {
    TxCommand.ParseIffSpells(t, objs);
    SipfObject.RecordsLength(objs);
    RawRoundTrip(SipfObject.Records(objs));
    SipfObject.PacketFields(SipfObject.Records(objs));
  }

  /**
   * The size field, as `strtol` reads it: two digits, or one behind white space or a plus sign, or one
   * behind a minus sign, which counts down from 256; and if the field is taken for empty, zero. No other is taken.
   */
  lemma SizeIff(t: seq<byte>, n: byte)
    requires |t| >= 5 && t[0] == 0x20 && t[3] == 0x20
    ensures var size := ShortStrtol(CString2(t[1], t[2]));
            && RawText(t) == (if size.Some? then ReadPairs(t[4..], size.value) else None)
            && (size == Some(n) <==>
                if t[1] == 0 then n == 0
                else if t[2] == 0 then DigitValue(t[1]) == Some(n)
                else || PairValue(t[1], t[2]) == Some(n)
                     || ((t[1] == 0x20 || 9 <= t[1] <= 13 || t[1] == 0x2b) && DigitValue(t[2]) == Some(n))
                     || (t[1] == 0x2d && DigitValue(t[2]) == Some(if n == 0 then 0 else 256 - n)))
  {
  }

  /** The bytes must be followed by the end of the text, a NUL, CR or LF. */
  lemma EndIff(t: seq<byte>)
    ensures ReadPairs(t, 0) == Some([]) <==> t == [] || t[0] == 0x00 || t[0] == 0x0d || t[0] == 0x0a
  {
  }
}
