/** Bytes, hexadecimal text and the few list operations every other module needs. */
module Bytes {

  type byte = x: int | 0 <= x < 256

  datatype Option<+T> = None | Some(value: T)

  const NUL: byte := 0x00
  const BS: byte := 0x08
  const LF: byte := 0x0a
  const CR: byte := 0x0d
  const SPACE: byte := 0x20

  const CRLF: seq<byte> := [CR, LF]

  /** The list of all items, joined. */
  function Flatten<T>(parts: seq<seq<T>>): seq<T> {
    if parts == [] then [] else parts[0] + Flatten(parts[1..])
  }

  lemma Rejoin<T>(a: seq<T>, b: seq<T>, c: seq<T>)
    ensures (a + b) + c == a + (b + c)
  {
  }

  lemma {:induction false} FlattenAppend<T>(a: seq<seq<T>>, b: seq<seq<T>>)
    ensures Flatten(a + b) == Flatten(a) + Flatten(b)
  {
    if a == [] {
      assert a + b == b;
    } else {
      FlattenAppend(a[1..], b);
      assert a + b == [a[0]] + (a[1..] + b);
      assert Flatten(a + b) == a[0] + (Flatten(a[1..]) + Flatten(b));
    }
  }

  /** `s` with its first bytes overwritten by `head`. */
  function Overlay(s: seq<byte>, head: seq<byte>): seq<byte>
    requires |head| <= |s|
  {
    head + s[|head|..]
  }

  function Reverse(s: seq<byte>): (r: seq<byte>)
    ensures |r| == |s|
  {
    seq(|s|, i requires 0 <= i < |s| => s[|s| - 1 - i])
  }

  /** The C string at the front of `s`. */
  function CString(s: seq<byte>): seq<byte> {
    if s == [] || s[0] == NUL then [] else [s[0]] + CString(s[1..])
  }

  lemma {:induction false} CStringUpTo(s: seq<byte>, n: nat)
    requires n <= |s| && NUL !in s[..n] && (n < |s| ==> s[n] == NUL)
    ensures CString(s) == s[..n]
  {
    if n > 0 {
      assert s[0] == s[..n][0] && s[1..][..n - 1] == s[..n][1..];
      CStringUpTo(s[1..], n - 1);
      assert s[..n] == [s[0]] + s[1..][..n - 1];
    }
  }

  function Zeros(n: nat): seq<byte> {
    seq(n, _ => 0)
  }

  // ---- Hexadecimal digits -------------------------------------------------

  /** The value of one hexadecimal digit character, in either case. */
  function DigitValue(c: byte): (v: Option<nat>)
    ensures v.Some? ==> v.value < 16
  {
    if 0x30 <= c <= 0x39 then Some(c - 0x30)
    else if 0x61 <= c <= 0x66 then Some(c - 0x61 + 10)
    else if 0x41 <= c <= 0x46 then Some(c - 0x41 + 10)
    else None
  }

  predicate IsHexDigit(c: byte) {
    DigitValue(c).Some?
  }

  function PairValue(hi: byte, lo: byte): Option<byte> {
    if IsHexDigit(hi) && IsHexDigit(lo)
    then Some(16 * DigitValue(hi).value + DigitValue(lo).value)
    else None
  }

  /** The character of a digit, `0` to `9` and then `A` to `F` or `a` to `f`. */
  function DigitChar(v: nat, upper: bool): byte
    requires v < 16
  {
    if v < 10 then 0x30 + v else (if upper then 0x41 else 0x61) + (v - 10)
  }

  /** Two characters read as `b` exactly when they are its digits, the high one first, each in either case. */
  lemma PairIff(hi: byte, lo: byte, b: byte)
    ensures PairValue(hi, lo) == Some(b) <==>
            && (hi == DigitChar(b / 16, true) || hi == DigitChar(b / 16, false))
            && (lo == DigitChar(b % 16, true) || lo == DigitChar(b % 16, false))
  {
    if PairValue(hi, lo) == Some(b) {
      assert b / 16 == DigitValue(hi).value && b % 16 == DigitValue(lo).value;
    }
  }

  /** The upper-case digit that `%X` prints. */
  function UpperDigit(v: nat): (c: byte)
    requires v < 16
    ensures DigitValue(c) == Some(v)
  {
    if v < 10 then 0x30 + v else 0x41 + (v - 10)
  }

  /** What `%02X` prints for one byte. */
  function Hex(b: byte): (t: seq<byte>)
    ensures |t| == 2 && PairValue(t[0], t[1]) == Some(b)
  {
    [UpperDigit(b / 16), UpperDigit(b % 16)]
  }

  function HexText(bs: seq<byte>): (t: seq<byte>)
    ensures |t| == 2 * |bs|
  {
    if bs == [] then [] else Hex(bs[0]) + HexText(bs[1..])
  }

  /** `t` is some hexadecimal spelling (either case) of `bs`. */
  predicate Spells(t: seq<byte>, bs: seq<byte>) {
    && |t| == 2 * |bs|
    && forall i :: 0 <= i < |bs| ==> PairValue(t[2 * i], t[2 * i + 1]) == Some(bs[i])
  }

  lemma {:induction false} HexTextSpells(bs: seq<byte>)
    ensures Spells(HexText(bs), bs)
  {
    if bs != [] {
      HexTextSpells(bs[1..]);
      var t := HexText(bs);
      forall i | 0 <= i < |bs| ensures PairValue(t[2 * i], t[2 * i + 1]) == Some(bs[i]) {
        if i > 0 {
          assert t[2 * i] == HexText(bs[1..])[2 * (i - 1)];
          assert t[2 * i + 1] == HexText(bs[1..])[2 * (i - 1) + 1];
        }
      }
    }
  }

  lemma {:induction false} HexTextAppend(a: seq<byte>, b: seq<byte>)
    ensures HexText(a + b) == HexText(a) + HexText(b)
  {
    if a == [] {
      assert a + b == b;
    } else {
      HexTextAppend(a[1..], b);
      assert a + b == [a[0]] + (a[1..] + b);
      assert HexText(a + b) == Hex(a[0]) + (HexText(a[1..]) + HexText(b));
    }
  }

  /** A text spells at most one byte string. */
  lemma SpellsUnique(t: seq<byte>, a: seq<byte>, b: seq<byte>)
    requires Spells(t, a) && Spells(t, b)
    ensures a == b
  {
    forall i | 0 <= i < |a| ensures a[i] == b[i] {
      assert PairValue(t[2 * i], t[2 * i + 1]) == Some(a[i]);
      assert PairValue(t[2 * i], t[2 * i + 1]) == Some(b[i]);
    }
  }

  // ---- Numbers in byte order ----------------------------------------------

  function BigEndian(bs: seq<byte>): nat {
    if bs == [] then 0 else 256 * BigEndian(bs[..|bs| - 1]) + bs[|bs| - 1]
  }

  function LittleEndian(bs: seq<byte>): nat {
    if bs == [] then 0 else bs[0] + 256 * LittleEndian(bs[1..])
  }

  lemma {:induction false} ReversedByteOrder(bs: seq<byte>)
    ensures BigEndian(Reverse(bs)) == LittleEndian(bs)
  {
    if bs != [] {
      ReversedByteOrder(bs[1..]);
      var r := Reverse(bs);
      assert r[..|r| - 1] == Reverse(bs[1..]);
    }
  }

  /** The last byte of a big-endian number is its lowest, as is the first of a little-endian one. */
  lemma LowestByte(bs: seq<byte>)
    requires bs != []
    ensures BigEndian(bs) % 256 == bs[|bs| - 1] && BigEndian(bs) / 256 == BigEndian(bs[..|bs| - 1])
    ensures LittleEndian(bs) % 256 == bs[0] && LittleEndian(bs) / 256 == LittleEndian(bs[1..])
  {
    LowDigit(BigEndian(bs), BigEndian(bs[..|bs| - 1]), bs[|bs| - 1]);
    LowDigit(LittleEndian(bs), LittleEndian(bs[1..]), bs[0]);
  }

  lemma LowDigit(n: nat, high: nat, low: byte)
    requires n == 256 * high + low
    ensures n % 256 == low && n / 256 == high
  {
  }
}
