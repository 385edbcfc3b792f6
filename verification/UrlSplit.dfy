/** Splitting a URL in place, and moving its path up to make room for the leading slash. */
module UrlSplit {
  import opened Bytes

  const COLON: byte := 0x3a
  const SLASH: byte := 0x2f

  /** "http" and "https". */
  const HTTP: seq<byte> := [0x68, 0x74, 0x74, 0x70]
  const HTTPS: seq<byte> := [0x68, 0x74, 0x74, 0x70, 0x73]

  /** The states of the splitter, in order: five delimiters to find. */
  const PROTOCOL_END: nat := 0
  const ROOT1: nat := 1
  const ROOT2: nat := 2
  const HOST_END: nat := 3
  const PATH_END: nat := 4

  predicate Hits(st: nat, c: byte) {
    if st == PROTOCOL_END then c == COLON
    else if st == PATH_END then c == CR || c == LF
    else c == SLASH
  }

  /** Where the delimiters from state `st` on are found in `t[i..]`. */
  function Marks(t: seq<byte>, st: nat, i: nat): (m: seq<nat>)
    requires st <= PATH_END
    ensures |m| + st <= 5
    decreases |t| - i
  {
    if i >= |t| then []
    else if !Hits(st, t[i]) then Marks(t, st, i + 1)
    else [i] + (if st == PATH_END then [] else Marks(t, st + 1, i + 1))
  }

  /** The marks are delimiters, in order of position. */
  lemma {:induction false} MarksSound(t: seq<byte>, st: nat, i: nat, k: nat)
    requires st <= PATH_END && k < |Marks(t, st, i)|
    ensures var m := Marks(t, st, i);
            i <= m[k] < |t| && Hits(st + k, t[m[k]]) && (k > 0 ==> m[k - 1] < m[k])
    decreases |t| - i
  {
    if !Hits(st, t[i]) {
      MarksSound(t, st, i + 1, k);
    } else if k > 0 {
      MarksSound(t, st + 1, i + 1, k - 1);
    }
  }

  lemma MarksHit(t: seq<byte>, st: nat, i: nat)
    requires st < PATH_END && i < |t| && Hits(st, t[i])
    ensures Marks(t, st, i) == [i] + Marks(t, st + 1, i + 1)
  {
  }

  /** `t` with NULs written at `marks`. */
  function Blank(t: seq<byte>, marks: seq<nat>): (r: seq<byte>)
    ensures |r| == |t|
    ensures forall k :: 0 <= k < |t| ==> r[k] == if k in marks then NUL else t[k]
  {
    seq(|t|, k requires 0 <= k < |t| => if k in marks then NUL else t[k])
  }

  lemma BlankOne(t: seq<byte>, marks: seq<nat>, i: nat)
    requires i < |t|
    ensures Blank(t, marks + [i]) == Blank(t, marks)[i := NUL]
  {
  }

  /** The first carriage return of the C string at the front of `s`. */
  function FirstCr(s: seq<byte>, i: nat): Option<nat>
    decreases |s| - i
  {
    if i >= |s| || s[i] == NUL then None
    else if s[i] == CR then Some(i)
    else FirstCr(s, i + 1)
  }

  function CutCr(s: seq<byte>): (r: seq<byte>)
    ensures |r| == |s|
  {
    match FirstCr(s, 0)
    case None => s
    case Some(i) => if i < |s| then s[i := NUL] else s
  }

  /** `strstr(url, "\r")`. */
  method FindCr(url: array<byte>) returns (at: Option<nat>)
    requires exists k :: 0 <= k < url.Length && url[k] == NUL
    ensures at == FirstCr(url[..], 0) && (at.Some? ==> at.value < url.Length)
  {
    var i := 0;
    while url[i] != NUL
      invariant 0 <= i < url.Length && forall k :: 0 <= k < i ==> url[k] != NUL
      invariant FirstCr(url[..], 0) == FirstCr(url[..], i)
      decreases url.Length - i
    {
      if url[i] == CR {
        return Some(i);
      }
      i := i + 1;
    }
    return None;
  }

  /** Where the host and the path start, once their delimiters are known. */
  function HostOf(m: seq<nat>): Option<nat> {
    if |m| >= 3 then Some(m[2] + 1) else None
  }

  function PathOf(m: seq<nat>): Option<nat> {
    if |m| >= 4 then Some(m[3] + 1) else None
  }

  /**
   * The scan of `s[..len]` has come to `i` in state `st`, with the marks `m` behind it out of `all`;
   * `cs` is the buffer by now.
   */
  predicate Scanning(s: seq<byte>, len: nat, all: seq<nat>, cs: seq<byte>, st: nat, i: nat, m: seq<nat>) {
    && i <= len <= |s| && |m| == st <= PATH_END && all == m + Marks(s[..len], st, i)
    && cs == Blank(s, m) && forall k :: 0 <= k < |m| ==> m[k] < i
  }

  lemma ScanMiss(s: seq<byte>, len: nat, all: seq<nat>, cs: seq<byte>, st: nat, i: nat, m: seq<nat>)
    requires Scanning(s, len, all, cs, st, i, m) && i < len && !Hits(st, cs[i])
    ensures Scanning(s, len, all, cs, st, i + 1, m)
  {
    assert cs[i] == s[..len][i];
  }

  lemma ScanHit(s: seq<byte>, len: nat, all: seq<nat>, cs: seq<byte>, st: nat, i: nat, m: seq<nat>)
    requires Scanning(s, len, all, cs, st, i, m) && i < len && Hits(st, cs[i])
    ensures st < PATH_END ==> Scanning(s, len, all, cs[i := NUL], st + 1, i + 1, m + [i])
    ensures st == PATH_END ==> all == m + [i] && cs[i := NUL] == Blank(s, all)
    ensures HostOf(m + [i]) == if st == ROOT2 then Some(i + 1) else HostOf(m)
    ensures PathOf(m + [i]) == if st == HOST_END then Some(i + 1) else PathOf(m)
  {
    assert cs[i] == s[..len][i];
    if st < PATH_END {
      assert m + ([i] + Marks(s[..len], st + 1, i + 1)) == (m + [i]) + Marks(s[..len], st + 1, i + 1);
    }
    BlankOne(s, m, i);
  }

  lemma ScanEnd(s: seq<byte>, len: nat, all: seq<nat>, cs: seq<byte>, st: nat, m: seq<nat>)
    requires Scanning(s, len, all, cs, st, len, m)
    ensures all == m
  {
    assert m + [] == m;
  }

  lemma ScanStart(s: seq<byte>, len: nat)
    requires len <= |s|
    ensures Scanning(s, len, Marks(s[..len], PROTOCOL_END, 0), s, PROTOCOL_END, 0, [])
  {
    assert Blank(s, []) == s && [] + Marks(s[..len], PROTOCOL_END, 0) == Marks(s[..len], PROTOCOL_END, 0);
  }

  /** Zero with the positions of host and path, or -1; the protocol is at the front. */
  method ParseUrl(url: array<byte>, len: nat) returns (ret: int, host: Option<nat>, path: Option<nat>)
    requires len <= url.Length && exists k :: 0 <= k < url.Length && url[k] == NUL
    modifies url
    ensures var s := CutCr(old(url[..]));
            var m := Marks(s[..len], PROTOCOL_END, 0);
            url[..] == Blank(s, m) && host == HostOf(m) && path == PathOf(m) && ret == (if |m| >= 4 then 0 else -1)
  {
    ghost var s := CutCr(url[..]);
    host, path := None, None;
    var cr := FindCr(url);
    if cr.Some? {
      url[cr.value] := NUL;
    }
    assert url[..] == s;
    ghost var all := Marks(s[..len], PROTOCOL_END, 0);
    ghost var m: seq<nat> := [];
    ScanStart(s, len);
    var st := PROTOCOL_END;
    var i := 0;
    while i < len
      invariant 0 <= i <= len && Scanning(s, len, all, url[..], st, i, m)
      invariant host == HostOf(m) && path == PathOf(m)
    {
      if !Hits(st, url[i]) {
        ScanMiss(s, len, all, url[..], st, i, m);
      } else {
        ScanHit(s, len, all, url[..], st, i, m);
        url[i] := NUL;
        if st == PATH_END {
          return 0, host, path;
        } else if st == ROOT2 {
          host := Some(i + 1);
        } else if st == HOST_END {
          path := Some(i + 1);
        }
        m := m + [i];
        st := st + 1;
      }
      i := i + 1;
    }
    ScanEnd(s, len, all, url[..], st, m);
    if st != PATH_END {
      return -1, host, path;
    }
    return 0, host, path;
  }

  // ---- Which texts it accepts, and what it makes of them ------------------------------

  /** A colon at `c`, and slashes at `x`, `y` and `z` after it. */
  predicate Delimited(t: seq<byte>, c: nat, x: nat, y: nat, z: nat) {
    c < x < y < z < |t| && t[c] == COLON && t[x] == SLASH && t[y] == SLASH && t[z] == SLASH
  }

  /** Accepted are exactly the texts with a colon and, after it, three slashes. */
  lemma AcceptedIff(t: seq<byte>)
    ensures |Marks(t, PROTOCOL_END, 0)| >= 4 <==> exists c, x, y, z :: Delimited(t, c, x, y, z)
  {
    if |Marks(t, PROTOCOL_END, 0)| >= 4 {
      FirstFour(t, Marks(t, PROTOCOL_END, 0));
    }
    if c, x, y, z :| Delimited(t, c, x, y, z) {
      MarksMany(t, PROTOCOL_END, 0, [c, x, y, z]);
    }
  }

  lemma FirstFour(t: seq<byte>, m: seq<nat>)
    requires m == Marks(t, PROTOCOL_END, 0) && |m| >= 4
    ensures Delimited(t, m[0], m[1], m[2], m[3])
  {
    MarksSound(t, PROTOCOL_END, 0, 0);
    MarksSound(t, PROTOCOL_END, 0, 1);
    MarksSound(t, PROTOCOL_END, 0, 2);
    MarksSound(t, PROTOCOL_END, 0, 3);
  }

  /** Delimiters that occur in order are all found, at the latest where they occur. */
  lemma {:induction false} MarksMany(t: seq<byte>, st: nat, i: nat, at: seq<nat>)
    requires st + |at| <= 4
    requires forall k :: 0 <= k < |at| ==> i <= at[k] < |t| && Hits(st + k, t[at[k]])
    requires forall j, k :: 0 <= j < k < |at| ==> at[j] < at[k]
    ensures |Marks(t, st, i)| >= |at|
    decreases |t| - i
  {
    if at != [] {
      assert i <= at[0] < |t| && Hits(st + 0, t[at[0]]);
      if !Hits(st, t[i]) {
        assert i != at[0];
        assert forall k :: 0 <= k < |at| ==> at[0] <= at[k];
        MarksMany(t, st, i + 1, at);
      } else {
        var rest := at[1..];
        forall k | 0 <= k < |rest| ensures i + 1 <= rest[k] < |t| && Hits(st + 1 + k, t[rest[k]]) {
          assert rest[k] == at[k + 1] && at[0] < at[k + 1] && Hits(st + (k + 1), t[at[k + 1]]);
        }
        MarksMany(t, st + 1, i + 1, rest);
        MarksHit(t, st, i);
      }
    }
  }

  /** Scanning over characters that are no delimiter of the current state. */
  lemma {:induction false} SkipTo(t: seq<byte>, st: nat, i: nat, j: nat)
    requires st <= PATH_END && i <= j <= |t|
    requires forall k :: i <= k < j ==> !Hits(st, t[k])
    ensures Marks(t, st, i) == Marks(t, st, j)
    decreases j - i
  {
    if i < j {
      SkipTo(t, st, i + 1, j);
    }
  }

  /** The parts of an ordinary URL. */
  predicate Ordinary(p: seq<byte>, h: seq<byte>, q: seq<byte>) {
    && NUL !in p && NUL !in h && NUL !in q && CR !in p && CR !in h && CR !in q && LF !in q
    && COLON !in p && SLASH !in h
  }

  function Join(p: seq<byte>, h: seq<byte>, q: seq<byte>): seq<byte> {
    p + [COLON, SLASH, SLASH] + h + [SLASH] + q
  }

  /** What may stand behind the URL in the buffer. */
  predicate Ended(end: seq<byte>) {
    end != [] && (end[0] == NUL || end[0] == CR || end[0] == LF)
  }

  /** `s` begins with an ordinary URL whose colon, third slash and end are at `a`, `b` and `c`. */
  predicate Laid(s: seq<byte>, p: seq<byte>, h: seq<byte>, q: seq<byte>, a: nat, b: nat, c: nat) {
    && a == |p| && b == a + 3 + |h| && c == b + 1 + |q| && c <= |s|
    && s[..a] == p && s[a] == COLON && s[a + 1] == SLASH && s[a + 2] == SLASH
    && s[a + 3..b] == h && s[b] == SLASH && s[b + 1..c] == q
  }

  lemma JoinLaid(p: seq<byte>, h: seq<byte>, q: seq<byte>, end: seq<byte>)
    ensures Laid(Join(p, h, q) + end, p, h, q, |p|, |p| + 3 + |h|, |Join(p, h, q)|)
    ensures (Join(p, h, q) + end)[|Join(p, h, q)|..] == end
  {
  }

  lemma LaidPrefix(s: seq<byte>, p: seq<byte>, h: seq<byte>, q: seq<byte>, a: nat, b: nat, c: nat, n: nat)
    requires Laid(s, p, h, q, a, b, c) && c <= n <= |s|
    ensures Laid(s[..n], p, h, q, a, b, c)
  {
    assert s[..n][..a] == s[..a] && s[..n][a + 3..b] == s[a + 3..b] && s[..n][b + 1..c] == s[b + 1..c];
  }

  /** Cutting at the first CR only ever touches what stands behind an ordinary URL. */
  lemma CutBehind(p: seq<byte>, h: seq<byte>, q: seq<byte>, end: seq<byte>) returns (e: seq<byte>)
    requires Ordinary(p, h, q) && Ended(end)
    ensures |e| == |end| && Ended(e) && CutCr(Join(p, h, q) + end) == Join(p, h, q) + e
  {
    var u := Join(p, h, q);
    var s := u + end;
    forall k | 0 <= k < |u| ensures u[k] != CR {
      PartOf(p, h, q, k);
    }
    CrBehind(s, 0, |u|);
    match FirstCr(s, 0)
    case None => e := end;
    case Some(i) =>
      CrFound(s, 0);
      e := end[i - |u| := NUL];
      assert CutCr(s) == u + e;
  }

  lemma PartOf(p: seq<byte>, h: seq<byte>, q: seq<byte>, k: nat)
    requires k < |Join(p, h, q)|
    ensures var c := Join(p, h, q)[k]; c in p || c in h || c in q || c == COLON || c == SLASH
  {
  }

  lemma {:induction false} CrBehind(s: seq<byte>, i: nat, n: nat)
    requires i <= n <= |s| && forall k :: i <= k < n ==> s[k] != CR
    ensures FirstCr(s, i).Some? ==> n <= FirstCr(s, i).value
    decreases n - i
  {
    if i < n {
      CrBehind(s, i + 1, n);
    } else {
      CrFound(s, i);
    }
  }

  lemma {:induction false} CrFound(s: seq<byte>, i: nat)
    ensures FirstCr(s, i).Some? ==> i <= FirstCr(s, i).value < |s| && s[FirstCr(s, i).value] == CR
    decreases |s| - i
  {
    if i < |s| && s[i] != NUL && s[i] != CR {
      CrFound(s, i + 1);
    }
  }

  /** The first four delimiters of an ordinary URL; a fifth can only lie behind it. */
  lemma FourMarks(t: seq<byte>, p: seq<byte>, h: seq<byte>, q: seq<byte>, a: nat, b: nat, c: nat)
    requires Ordinary(p, h, q) && Laid(t, p, h, q, a, b, c)
    ensures Marks(t, PROTOCOL_END, 0) == [a, a + 1, a + 2, b] + Marks(t, PATH_END, c)
  {
    NoDelimiters(t, p, h, q, a, b, c);
    SkipHit(t, PROTOCOL_END, 0, a);
    SkipHit(t, ROOT1, a + 1, a + 1);
    SkipHit(t, ROOT2, a + 2, a + 2);
    SkipHit(t, HOST_END, a + 3, b);
    SkipTo(t, PATH_END, b + 1, c);
    FourFirst(a, a + 1, a + 2, b, Marks(t, PATH_END, c));
  }

  lemma SkipHit(t: seq<byte>, st: nat, i: nat, j: nat)
    requires st < PATH_END && i <= j < |t| && Hits(st, t[j])
    requires forall k :: i <= k < j ==> !Hits(st, t[k])
    ensures Marks(t, st, i) == [j] + Marks(t, st + 1, j + 1)
  {
    SkipTo(t, st, i, j);
    MarksHit(t, st, j);
  }

  lemma FourFirst(a: nat, b: nat, c: nat, d: nat, last: seq<nat>)
    ensures [a] + ([b] + ([c] + ([d] + last))) == [a, b, c, d] + last
  {
  }

  lemma NoDelimiters(t: seq<byte>, p: seq<byte>, h: seq<byte>, q: seq<byte>, a: nat, b: nat, c: nat)
    requires Ordinary(p, h, q) && Laid(t, p, h, q, a, b, c)
    ensures forall k :: 0 <= k < a ==> !Hits(PROTOCOL_END, t[k])
    ensures forall k :: a + 3 <= k < b ==> !Hits(HOST_END, t[k])
    ensures forall k :: b + 1 <= k < c ==> !Hits(PATH_END, t[k])
  {
    forall k | 0 <= k < a ensures t[k] != COLON { assert t[k] == p[k]; }
    forall k | a + 3 <= k < b ensures t[k] != SLASH { assert t[k] == h[k - a - 3]; }
    forall k | b + 1 <= k < c ensures t[k] != CR && t[k] != LF { assert t[k] == q[k - b - 1]; }
  }

  /** What the buffer becomes. */
  function Split(s: seq<byte>, len: nat): seq<byte>
    requires len <= |s|
  {
    Blank(CutCr(s), Marks(CutCr(s)[..len], PROTOCOL_END, 0))
  }

  /** `part` is the C string at `from`. */
  predicate StringAt(s: seq<byte>, from: nat, part: seq<byte>) {
    from <= |s| && CString(s[from..]) == part
  }

  /** A buffer split at `m` holds the C strings `p`, `h` and `q`, and joining them gives back `u`. */
  predicate InParts(s: seq<byte>, m: seq<nat>, p: seq<byte>, h: seq<byte>, q: seq<byte>, u: seq<byte>) {
    && |m| >= 4 && m[2] == |p| + 2 && m[3] == |p| + 3 + |h| < |s|
    && CString(s) == p && StringAt(s, m[2] + 1, h) && StringAt(s, m[3] + 1, q) && u == Join(p, h, q)
  }

  /**
   * An ordinary URL, with a NUL, CR or LF behind it, is split into its three parts, and joining
   * them gives it back.
   */
  lemma SplitOrdinary(s: seq<byte>, u: seq<byte>, p: seq<byte>, h: seq<byte>, q: seq<byte>, end: seq<byte>, len: nat)
    requires Ordinary(p, h, q) && Ended(end) && u == Join(p, h, q) && s == u + end
    requires |u| <= len <= |s| && (|u| < len || end[0] == NUL || end[0] == CR)
    ensures InParts(Split(s, len), Marks(CutCr(s)[..len], PROTOCOL_END, 0), p, h, q, u)
  {
    var e := CutBehind(p, h, q, end);
    JoinLaid(p, h, q, e);
    EndMarked(p, h, q, end, e, len);
    Behind(u, e);
    SplitCut(CutCr(s), p, h, q, |p|, |p| + 3 + |h|, |u|, len);
  }

  lemma SplitCut(s: seq<byte>, p: seq<byte>, h: seq<byte>, q: seq<byte>, a: nat, b: nat, c: nat, len: nat)
    requires Ordinary(p, h, q) && Laid(s, p, h, q, a, b, c) && c < |s| && c <= len <= |s|
    requires s[c] == NUL || Marks(s[..len], PATH_END, c) == [c]
    ensures var m := Marks(s[..len], PROTOCOL_END, 0); InParts(Blank(s, m), m, p, h, q, Join(p, h, q))
  {
    SplitLaid(s, p, h, q, a, b, c, len);
    var m := Marks(s[..len], PROTOCOL_END, 0);
    TheParts(Blank(s, m), m, p, h, q, a, b);
  }

  lemma TheParts(s: seq<byte>, m: seq<nat>, p: seq<byte>, h: seq<byte>, q: seq<byte>, a: nat, b: nat)
    requires a == |p| && b == a + 3 + |h| < |s| && |m| >= 4 && m[2] == a + 2 && m[3] == b
    requires CString(s) == p && StringAt(s, a + 3, h) && StringAt(s, b + 1, q)
    ensures InParts(s, m, p, h, q, Join(p, h, q))
  {
    var host := m[2] + 1;
    assert host == a + 3;
  }

  /** The same for a buffer that has been cut already. */
  lemma SplitLaid(s: seq<byte>, p: seq<byte>, h: seq<byte>, q: seq<byte>, a: nat, b: nat, c: nat, len: nat)
    requires Ordinary(p, h, q) && Laid(s, p, h, q, a, b, c) && c < |s| && c <= len <= |s|
    requires s[c] == NUL || Marks(s[..len], PATH_END, c) == [c]
    ensures var m := Marks(s[..len], PROTOCOL_END, 0);
            var after := Blank(s, m);
            && |m| >= 4 && m[2] == a + 2 && m[3] == b
            && CString(after) == p && StringAt(after, a + 3, h) && StringAt(after, b + 1, q)
  {
    LaidPrefix(s, p, h, q, a, b, c, len);
    FourMarks(s[..len], p, h, q, a, b, c);
    var last, m := Marks(s[..len], PATH_END, c), Marks(s[..len], PROTOCOL_END, 0);
    MarksIn(m, a, a + 1, a + 2, b, last);
    forall k | k in last ensures k >= c {
      var j :| 0 <= j < |last| && last[j] == k;
      MarksSound(s[..len], PATH_END, c, j);
    }
    assert s[0..a] == s[..a] && Blank(s, m)[0..] == Blank(s, m);
    ThreeKept(s, m, p, h, q, a, b, c);
  }

  /** Behind the path there is a NUL in the end: one was there, or a CR or LF becomes one. */
  lemma EndMarked(p: seq<byte>, h: seq<byte>, q: seq<byte>, end: seq<byte>, e: seq<byte>, len: nat)
    requires Ordinary(p, h, q) && Ended(end) && Ended(e) && |e| == |end|
    requires CutCr(Join(p, h, q) + end) == Join(p, h, q) + e
    requires |Join(p, h, q)| <= len <= |Join(p, h, q) + e|
    requires |Join(p, h, q)| < len || end[0] == NUL || end[0] == CR
    ensures var c := |Join(p, h, q)|;
            e[0] == NUL || Marks((Join(p, h, q) + e)[..len], PATH_END, c) == [c]
  {
    var u := Join(p, h, q);
    var c, s := |u|, u + end;
    assert s[c] == end[0] && (u + e)[c] == e[0];
    if FirstCr(s, 0).Some? {
      CrFound(s, 0);
    }
    if end[0] == CR {
      forall k | 0 <= k < c ensures s[k] != CR && s[k] != NUL {
        PartOf(p, h, q, k);
        assert s[k] == u[k];
      }
      CrAt(s, 0, c);
    } else if end[0] == LF {
      assert e[0] == LF;
      var t := (u + e)[..len];
      assert t[c] == LF;
      assert Marks(t, PATH_END, c) == [c];
    }
  }

  lemma {:induction false} CrAt(s: seq<byte>, i: nat, n: nat)
    requires i <= n < |s| && s[n] == CR && forall k :: i <= k < n ==> s[k] != CR && s[k] != NUL
    ensures FirstCr(s, i) == Some(n)
    decreases n - i
  {
    if i < n {
      CrAt(s, i + 1, n);
    }
  }

  /** A part of the buffer free of marks, with a NUL behind it, is the C string it was. */
  lemma PartKept(s: seq<byte>, m: seq<nat>, from: nat, part: seq<byte>)
    requires from + |part| < |s| && s[from..from + |part|] == part && NUL !in part
    requires forall k :: from <= k < from + |part| ==> k !in m
    requires from + |part| in m || s[from + |part|] == NUL
    ensures CString(Blank(s, m)[from..]) == part
  {
    var after, n := Blank(s, m)[from..], |part|;
    forall k | 0 <= k < n ensures after[k] == part[k] {
      assert after[k] == Blank(s, m)[from + k] == s[from + k] == s[from..from + n][k];
    }
    assert after[..n] == part;
    CStringUpTo(after, n);
  }

  /** The three C strings of the buffer once the delimiters are NULs. */
  lemma ThreeKept(s: seq<byte>, m: seq<nat>, p: seq<byte>, h: seq<byte>, q: seq<byte>, a: nat, b: nat, c: nat)
    requires a == |p| && b == a + 3 + |h| && c == b + 1 + |q| && c < |s|
    requires s[0..a] == p && s[a + 3..b] == h && s[b + 1..c] == q && NUL !in p && NUL !in h && NUL !in q
    requires forall k :: k in m ==> k == a || k == a + 1 || k == a + 2 || k == b || k >= c
    requires a in m && b in m && (c in m || s[c] == NUL)
    ensures CString(Blank(s, m)[0..]) == p && CString(Blank(s, m)[a + 3..]) == h && CString(Blank(s, m)[b + 1..]) == q
  {
    PartKept(s, m, 0, p);
    PartKept(s, m, a + 3, h);
    PartKept(s, m, b + 1, q);
  }

  lemma MarksIn(m: seq<nat>, a: nat, b: nat, c: nat, d: nat, last: seq<nat>)
    requires m == [a, b, c, d] + last
    ensures forall k :: k in m <==> k == a || k == b || k == c || k == d || k in last
  {
    assert m[0] == a && m[1] == b && m[2] == c && m[3] == d;
    forall k ensures k in last ==> k in m {
      if k in last {
        var j :| 0 <= j < |last| && last[j] == k;
        assert m[4 + j] == k;
      }
    }
  }

  // ---- Making room for the leading slash ------------------------------------------------

  method StrLen(s: array<byte>, from: nat) returns (n: nat)
    requires from < s.Length && exists k :: from <= k < s.Length && s[k] == NUL
    ensures from + n < s.Length && s[from + n] == NUL
    ensures forall k :: from <= k < from + n ==> s[k] != NUL
  {
    n := 0;
    while s[from + n] != NUL
      invariant from + n < s.Length && forall k :: from <= k < from + n ==> s[k] != NUL
      decreases s.Length - n
    {
      n := n + 1;
    }
  }

  /** Moves the C string at `at`, with its NUL, one place up, from its end, and puts a slash in front. */
  method ShiftPath(path: array<byte>, at: nat, n: nat)
    requires at + n + 1 < path.Length
    modifies path
    ensures path[..] == old(path[..at]) + [SLASH] + old(path[at..at + n + 1]) + old(path[at + n + 2..])
  {
    var i: int := n;
    while i >= 0
      invariant -1 <= i <= n
      invariant forall k :: 0 <= k < path.Length ==>
                  path[k] == if at + i + 2 <= k <= at + n + 1 then old(path[k - 1]) else old(path[k])
      decreases i
    {
      path[at + i + 1] := path[at + i];
      i := i - 1;
    }
    path[at] := SLASH;
  }

  /** Which transport the protocol asks for; None is refused. */
  function Tls(prot: seq<byte>): Option<bool> {
    if prot == HTTPS then Some(true) else if prot == HTTP then Some(false) else None
  }

  /** Only `https` asks for TLS, `http` does without, and every other protocol is refused. */
  lemma TransportIff(prot: seq<byte>)
    ensures Tls(prot) == Some(true) <==> prot == [0x68, 0x74, 0x74, 0x70, 0x73]
    ensures Tls(prot) == Some(false) <==> prot == [0x68, 0x74, 0x74, 0x70]
  {
    assert |HTTPS| != |HTTP|;
  }

  method StrEquals(s: array<byte>, from: nat, t: seq<byte>) returns (eq: bool)
    requires from < s.Length && exists k :: from <= k < s.Length && s[k] == NUL
    requires NUL !in t
    ensures eq <==> CString(s[from..]) == t
  {
    var n := StrLen(s, from);
    assert s[from..][..n] == s[from..from + n];
    CStringUpTo(s[from..], n);
    eq := s[from..from + n] == t;
  }

  /** The C string at `path` moved up by one, with a slash in front. */
  function Shifted(s: seq<byte>, path: nat): seq<byte>
    requires path <= |s| && path + |CString(s[path..])| + 1 < |s|
  {
    var n := |CString(s[path..])|;
    s[..path] + [SLASH] + s[path..path + n + 1] + s[path + n + 2..]
  }

  method MakeAbsolute(url: array<byte>, path: nat, ghost nul: nat)
    requires path <= nul && nul + 1 < url.Length && url[nul] == NUL
    modifies url
    ensures path + |CString(old(url[path..]))| <= nul && url[..] == Shifted(old(url[..]), path)
  {
    var n := StrLen(url, path);
    assert url[path..][..n] == url[path..path + n] && url[..][path..] == url[path..];
    CStringUpTo(url[path..], n);
    ShiftPath(url, path, n);
  }

  /**
   * The upload's preparation: split, choose the transport, and turn the path into an absolute one.
   * `nul` is some NUL behind the URL, which need not be next to it, and one cell more is behind that.
   */
  method Prepare(url: array<byte>, len: nat, ghost nul: nat) returns (ret: int, tls: bool, host: nat, path: nat)
    requires len <= nul && nul + 1 < url.Length && url[nul] == NUL
    modifies url
    ensures var s, m := Split(old(url[..]), len), Marks(CutCr(old(url[..]))[..len], PROTOCOL_END, 0);
            && ret == (if |m| >= 4 && Tls(CString(s)).Some? then 0 else -1)
            && (ret == 0 ==>
                  && Tls(CString(s)) == Some(tls) && host == m[2] + 1 && path == m[3] + 1 <= len
                  && path + |CString(s[path..])| <= nul && url[..] == Shifted(s, path))
  {
    tls, host, path := false, 0, 0;
    ghost var s := Split(url[..], len);
    EndStays(url[..], len, nul);
    var parsed, h, q := ParseUrl(url, len);
    assert url[..] == s && url[nul] == s[nul];
    if parsed < 0 {
      return -1, tls, host, path;
    }
    MarksSound(CutCr(old(url[..]))[..len], PROTOCOL_END, 0, 3);
    host, path := h.value, q.value;
    assert url[0..] == s && url[path..] == s[path..];
    var https := StrEquals(url, 0, HTTPS);
    var http := StrEquals(url, 0, HTTP);
    if https {
      tls := true;
    } else if http {
      tls := false;
    } else {
      return -1, tls, host, path;
    }
    MakeAbsolute(url, path, nul);
    ret := 0;
  }

  /** A NUL behind the text survives the splitting. */
  lemma EndStays(s: seq<byte>, len: nat, nul: nat)
    requires len <= nul < |s| && s[nul] == NUL
    ensures Split(s, len)[nul] == NUL
  {
  }

  /** Protocol and host stay as they were, and the path becomes "/" and what it was. */
  lemma ShiftedParts(s: seq<byte>, u: seq<byte>, host: nat, path: nat, prot: seq<byte>, h: seq<byte>, q: seq<byte>)
    requires host <= path <= |s| && path + |q| + 1 < |s|
    requires |prot| < host && |h| < path - host
    requires s[..|prot|] == prot && s[|prot|] == NUL && NUL !in prot
    requires s[host..host + |h|] == h && s[host + |h|] == NUL && NUL !in h
    requires s[path..path + |q|] == q && s[path + |q|] == NUL && NUL !in q
    requires u == s[..path] + [SLASH] + s[path..path + |q| + 1] + s[path + |q| + 2..]
    ensures CString(u) == prot && CString(u[host..]) == h && CString(u[path..]) == [SLASH] + q
  {
    var r := [SLASH] + q;
    Moved(s, u, s[..path], s[path..path + |q| + 1], s[path + |q| + 2..]);
    forall k | 0 <= k < |prot| ensures u[k] == prot[k] { assert s[..|prot|][k] == s[k]; }
    forall k | 0 <= k < |h| ensures u[host + k] == h[k] { assert s[host..host + |h|][k] == s[host + k]; }
    forall k | 0 <= k < |q| ensures u[path + 1 + k] == q[k] { assert s[path..path + |q|][k] == s[path + k]; }
    assert u[..|prot|] == prot && u[host..][..|h|] == h && u[path..][..|r|] == r;
    CStringUpTo(u, |prot|);
    CStringUpTo(u[host..], |h|);
    CStringUpTo(u[path..], |r|);
  }

  lemma Moved(s: seq<byte>, u: seq<byte>, before: seq<byte>, path: seq<byte>, behind: seq<byte>)
    requires before + path <= s && u == before + [SLASH] + path + behind
    ensures forall k :: 0 <= k < |before| ==> u[k] == s[k]
    ensures u[|before|] == SLASH && |before| + |path| < |u|
    ensures forall k :: |before| <= k < |before| + |path| ==> u[k + 1] == s[k]
  {
    forall k | |before| <= k < |before| + |path| ensures u[k + 1] == s[k] {
      assert s[k] == (before + path)[k] == path[k - |before|];
    }
  }

  lemma {:induction false} CStringShape(s: seq<byte>)
    ensures var c := CString(s);
            c <= s && NUL !in c && (|c| < |s| ==> s[|c|] == NUL)
  {
    if s != [] && s[0] != NUL {
      CStringShape(s[1..]);
    }
  }

  /**
   * The whole preparation of an ordinary URL: the transport is chosen by its protocol, protocol and
   * host stay, and the path becomes "/" and the URL's path.
   */
  lemma UploadTarget(was: seq<byte>, u: seq<byte>, p: seq<byte>, h: seq<byte>, q: seq<byte>, end: seq<byte>,
                     len: nat, nul: nat)
    requires Ordinary(p, h, q) && Ended(end) && u == Join(p, h, q) && was == u + end
    requires |u| <= len <= nul && nul + 1 < |was| && was[nul] == NUL
    requires |u| < len || end[0] == NUL || end[0] == CR
    ensures var m := Marks(CutCr(was)[..len], PROTOCOL_END, 0);
            AimsAt(Split(was, len), m, p, h, q)
  {
    var m := Marks(CutCr(was)[..len], PROTOCOL_END, 0);
    SplitParts(was, u, p, h, q, end, len, nul, Split(was, len), m);
    PartsAim(Split(was, len), m, p, h, q, u, nul);
  }

  /** What follows the third and the fourth mark is host and path, and their preparation ends at its target. */
  predicate AimsAt(s: seq<byte>, m: seq<nat>, p: seq<byte>, h: seq<byte>, q: seq<byte>) {
    |m| >= 4 && Targets(s, m[2] + 1, m[3] + 1, p, h, q)
  }

  lemma PartsAim(s: seq<byte>, m: seq<nat>, p: seq<byte>, h: seq<byte>, q: seq<byte>, u: seq<byte>, nul: nat)
    requires InParts(s, m, p, h, q, u) && |p| + |h| + 4 <= nul && nul + 1 < |s| && s[nul] == NUL
    ensures AimsAt(s, m, p, h, q)
  {
    TargetParts(s, m[2] + 1, m[3] + 1, p, h, q, nul);
  }

  /** The split buffer of an ordinary URL: its three parts, and the NUL that ended it still in place. */
  lemma SplitParts(was: seq<byte>, u: seq<byte>, p: seq<byte>, h: seq<byte>, q: seq<byte>, end: seq<byte>,
                   len: nat, nul: nat, s: seq<byte>, m: seq<nat>)
    requires Ordinary(p, h, q) && Ended(end) && u == Join(p, h, q) && was == u + end
    requires |u| <= len <= nul && nul + 1 < |was| && was[nul] == NUL
    requires |u| < len || end[0] == NUL || end[0] == CR
    requires s == Split(was, len) && m == Marks(CutCr(was)[..len], PROTOCOL_END, 0)
    ensures InParts(s, m, p, h, q, u) && |p| + |h| + 4 <= nul && nul + 1 < |s| && s[nul] == NUL
  {
    SplitOrdinary(was, u, p, h, q, end, len);
    EndStays(was, len, nul);
    assert |p| + |h| + 4 <= |u|;
  }

  lemma Behind(u: seq<byte>, end: seq<byte>)
    requires end != []
    ensures (u + end)[|u|] == end[0]
  {
  }

  /** The split buffer `s` names the protocol `p`, and shifting its path yields `p`, `h` and "/" + `q`. */
  predicate Targets(s: seq<byte>, host: nat, path: nat, p: seq<byte>, h: seq<byte>, q: seq<byte>) {
    && host < path <= |s| && path + |CString(s[path..])| + 1 < |s|
    && Tls(CString(s)) == Tls(p)
    && var u := Shifted(s, path);
       CString(u) == p && CString(u[host..]) == h && CString(u[path..]) == [SLASH] + q
  }

  lemma TargetParts(s: seq<byte>, host: nat, path: nat, p: seq<byte>, h: seq<byte>, q: seq<byte>, nul: nat)
    requires host == |p| + 3 && path == host + |h| + 1 && path <= nul && nul + 1 < |s| && s[nul] == NUL
    requires CString(s) == p && StringAt(s, host, h) && StringAt(s, path, q)
    ensures Targets(s, host, path, p, h, q)
  {
    assert s[0..] == s;
    CStringAt(s, 0, p);
    CStringAt(s, host, h);
    CStringAt(s, path, q);
    StringBefore(s, path, q, nul);
    ShiftedParts(s, Shifted(s, path), host, path, p, h, q);
  }

  /** A C string ends at the NUL known to be there, or before. */
  lemma StringBefore(s: seq<byte>, path: nat, q: seq<byte>, nul: nat)
    requires path <= nul && nul + 1 < |s| && s[nul] == NUL && path + |q| <= |s|
    requires forall k :: path <= k < path + |q| ==> s[k] != NUL
    ensures path + |q| + 1 < |s|
  {
  }

  /** What a C string inside the buffer says about the buffer. */
  lemma CStringAt(s: seq<byte>, from: nat, part: seq<byte>)
    requires StringAt(s, from, part)
    ensures from + |part| <= |s| && s[from..from + |part|] == part && NUL !in part
    ensures from + |part| < |s| ==> s[from + |part|] == NUL
    ensures forall k :: from <= k < from + |part| ==> s[k] != NUL
  {
    CStringShape(s[from..]);
    assert s[from..][..|part|] == s[from..from + |part|];
    forall k | from <= k < from + |part| ensures s[k] != NUL {
      assert part[k - from] == s[from..][k - from];
    }
  }
}
