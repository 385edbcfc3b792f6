/** The flag that guards firmware updates, over the history of commands. */
module UpdateGate {
  import opened Bytes
  import Dispatch
  import LineEditor

  /** The arguments " UNLOCK", " UPDATE", " VERSION " and the default image name. */
  const UNLOCK_ARG: seq<byte> := [SPACE, 0x55, 0x4e, 0x4c, 0x4f, 0x43, 0x4b]
  const UPDATE_ARG: seq<byte> := [SPACE, 0x55, 0x50, 0x44, 0x41, 0x54, 0x45]
  const VERSION_ARG: seq<byte> := [SPACE, 0x56, 0x45, 0x52, 0x53, 0x49, 0x4f, 0x4e, SPACE]
  const DEFAULT_IMAGE: seq<byte> :=
    [0x61, 0x70, 0x70, 0x5f, 0x75, 0x70, 0x64, 0x61, 0x74, 0x65, 0x2e, 0x62, 0x69, 0x6e]

  /**
   * A command as its handler is called: the memory from the argument on, of which `len` bytes are said
   * to be the argument, though they may go far beyond the line and its buffer.
   */
  datatype Call = Call(name: seq<byte>, rest: seq<byte>, len: nat)

  /** Memory enough for all that a handler looks at or writes to. */
  type Cmd = c: Call | |c.rest| >= 9 && |c.rest| > c.len witness Call([], [0, 0, 0, 0, 0, 0, 0, 0, 0], 0)

  /** One start of the update, with the number of commands carried out before it. */
  datatype Start = Start(image: seq<byte>, at: nat)

  /** Commands that may change the flag. */
  predicate Relevant(c: Cmd) {
    || c.name == Dispatch.W || c.name == Dispatch.R || c.name == Dispatch.TXRAW
    || (c.name == Dispatch.UNLOCK && c.len == 7 && c.rest[0] == SPACE)
  }

  predicate Unlocks(c: Cmd) {
    c.name == Dispatch.UNLOCK && c.len == 7 && c.rest[..7] == UNLOCK_ARG
  }

  /** The image an unlocked UPDATE starts with, if any. */
  function ImageOf(c: Cmd): Option<seq<byte>> {
    if c.len < 7 then None
    else if c.rest[..7] == UPDATE_ARG then (if c.len == 7 then Some(DEFAULT_IMAGE) else None)
    else if c.len >= 10 && c.rest[..9] == VERSION_ARG then Some(CString(c.rest[9..c.len]))
    else None
  }

  /** The program's part in this: the static flag, and the update starts it has asked for. */
  class Commands {
    var unlocked: bool
    var count: nat
    var starts: seq<Start>

    constructor ()
      ensures !unlocked && count == 0 && starts == []
    {
      unlocked, count, starts := false, 0, [];
    }

    /** The argument lies in `buffer` at `off`, `len` bytes long as far as the dispatcher says. */
    method CmdUnlock(buffer: array<byte>, off: nat, len: nat)
      requires off + 9 <= buffer.Length
      modifies this`unlocked
      ensures unlocked ==
              if len == 7 && buffer[off] == SPACE then buffer[off..off + 7] == UNLOCK_ARG else old(unlocked)
    {
      if buffer[off] != SPACE {
        return;
      }
      if len != 7 {
        return;
      }
      unlocked := buffer[off..off + 7] == UNLOCK_ARG;
    }

    /** A NUL is put behind a version, where the length says its end is, before it is used. */
    method CmdUpdate(buffer: array<byte>, off: nat, len: nat)
      requires off + len < buffer.Length && off + 9 <= buffer.Length
      modifies this`starts, buffer
      ensures var c: Cmd := Call(Dispatch.UPDATE, old(buffer[off..]), len);
              && starts == old(starts) +
                   (if old(unlocked) && ImageOf(c).Some? then [Start(ImageOf(c).value, count)] else [])
              && buffer[..] == (if old(unlocked) && ImageOf(c).Some? && len > 7
                                then old(buffer[..])[off + len := NUL] else old(buffer[..]))
    {
      ghost var c: Cmd := Call(Dispatch.UPDATE, buffer[off..], len);
      assert c.rest[..7] == buffer[off..off + 7] && c.rest[..9] == buffer[off..off + 9];
      if !unlocked {
        return;
      }
      if len < 7 {
        return;
      }
      if buffer[off..off + 7] == UPDATE_ARG {
        if len != 7 {
          return;
        }
        starts := starts + [Start(DEFAULT_IMAGE, count)];
      } else if buffer[off..off + 9] == VERSION_ARG {
        if len < 10 {
          return;
        }
        assert c.rest[9..len] == buffer[off + 9..off + len];
        buffer[off + len] := NUL;
        var image := ReadCString(buffer, off + 9, off + len);
        starts := starts + [Start(image, count)];
      }
    }

    method ReadCString(buffer: array<byte>, from: nat, end: nat) returns (s: seq<byte>)
      requires from <= end < buffer.Length && buffer[end] == NUL
      ensures s == CString(buffer[from..end])
    {
      var k := from;
      while buffer[k] != NUL
        invariant from <= k <= end
        invariant CString(buffer[from..end]) == buffer[from..k] + CString(buffer[k..end])
        decreases end - k
      {
        assert buffer[k..end][1..] == buffer[k + 1..end];
        assert buffer[from..k] + [buffer[k]] == buffer[from..k + 1];
        assert (buffer[from..k] + [buffer[k]]) + CString(buffer[k + 1..end])
            == buffer[from..k] + ([buffer[k]] + CString(buffer[k + 1..end]));
        k := k + 1;
      }
      s := buffer[from..k];
    }

    /** One command, as the table hands it to its handler. */
    method Execute(name: seq<byte>, buffer: array<byte>, off: nat, len: nat)
      requires off + len < buffer.Length && off + 9 <= buffer.Length
      modifies this, buffer
      ensures Gate(unlocked, count, starts)
           == Exec(Gate(old(unlocked), old(count), old(starts)), Call(name, old(buffer[off..]), len))
    {
      if name == Dispatch.W || name == Dispatch.R || name == Dispatch.TXRAW {
        unlocked := false;
      } else if name == Dispatch.UNLOCK {
        assert buffer[off..][..7] == buffer[off..off + 7];
        CmdUnlock(buffer, off, len);
      } else if name == Dispatch.UPDATE {
        CmdUpdate(buffer, off, len);
      }
      count := count + 1;
    }
  }

  // ---- Histories --------------------------------------------------------------------

  datatype Gate = Gate(unlocked: bool, count: nat, starts: seq<Start>)

  function Exec(g: Gate, c: Cmd): Gate {
    Gate(if Relevant(c) then Unlocks(c) else g.unlocked,
         g.count + 1,
         if c.name == Dispatch.UPDATE && g.unlocked && ImageOf(c).Some?
         then g.starts + [Start(ImageOf(c).value, g.count)] else g.starts)
  }

  function History(cmds: seq<Cmd>): Gate {
    if cmds == [] then Gate(false, 0, []) else Exec(History(cmds[..|cmds| - 1]), cmds[|cmds| - 1])
  }

  /** The unlocking command, name and argument: `$UNLOCK` with ` UNLOCK`. */
  predicate Opens(c: Cmd) {
    && c.name == [0x24, 0x55, 0x4e, 0x4c, 0x4f, 0x43, 0x4b]
    && c.len == 7 && c.rest[..7] == [0x20, 0x55, 0x4e, 0x4c, 0x4f, 0x43, 0x4b]
  }

  /** The locking commands: `W`, `R`, `$TXRAW`, and `$UNLOCK` with any other seven characters led by a space. */
  predicate Locks(c: Cmd) {
    || c.name == [0x57] || c.name == [0x52] || c.name == [0x24, 0x54, 0x58, 0x52, 0x41, 0x57]
    || (c.name == [0x24, 0x55, 0x4e, 0x4c, 0x4f, 0x43, 0x4b] && c.len == 7 && c.rest[0] == 0x20 && !Opens(c))
  }

  lemma LocksOrOpens(c: Cmd)
    ensures Relevant(c) <==> Locks(c) || Opens(c)
    ensures Unlocks(c) <==> Opens(c)
    ensures !(Locks(c) && Opens(c))
  {
    assert c.rest[..7][0] == c.rest[0];
  }

  /**
   * What one more command does: these lock, that one unlocks, any other leaves the flag alone; and an
   * update is started by `$UPDATE` alone, unlocked, with an argument that names an image.
   */
  lemma FlagAfter(cmds: seq<Cmd>, c: Cmd)
    ensures var was, now := History(cmds), History(cmds + [c]);
            && now.unlocked == (Opens(c) || (was.unlocked && !Locks(c)))
            && now.starts == was.starts +
                 if c.name == [0x24, 0x55, 0x50, 0x44, 0x41, 0x54, 0x45] && was.unlocked && ImageOf(c).Some?
                 then [Start(ImageOf(c).value, |cmds|)] else []
  {
    assert (cmds + [c])[..|cmds|] == cmds;
    LocksOrOpens(c);
    CountIsLength(cmds);
  }

  /** Exactly which arguments name an image: ` UPDATE` alone the default one, and ` VERSION ` with more behind it. */
  lemma ImageIff(c: Cmd)
    ensures var update, version := [0x20, 0x55, 0x50, 0x44, 0x41, 0x54, 0x45],
                                   [0x20, 0x56, 0x45, 0x52, 0x53, 0x49, 0x4f, 0x4e, 0x20];
            && (c.rest[..7] == update && c.len == 7 ==>
                  ImageOf(c) == Some([0x61, 0x70, 0x70, 0x5f, 0x75, 0x70, 0x64, 0x61, 0x74, 0x65,
                                      0x2e, 0x62, 0x69, 0x6e]))
            && (c.rest[..9] == version && c.len >= 10 ==> ImageOf(c) == Some(CString(c.rest[9..c.len])))
            && (ImageOf(c).Some? ==> (c.rest[..7] == update && c.len == 7) || (c.rest[..9] == version && c.len >= 10))
  {
    assert c.rest[..7][1] == c.rest[1] == c.rest[..9][1];
  }

  /** A version of at least one character, without a NUL, is the name of the image. */
  lemma VersionNamed(c: Cmd, name: seq<byte>)
    requires name != [] && NUL !in name && c.len == 9 + |name|
    requires c.rest[..9] == [0x20, 0x56, 0x45, 0x52, 0x53, 0x49, 0x4f, 0x4e, 0x20] && c.rest[9..c.len] == name
    ensures ImageOf(c) == Some(name)
  {
    ImageIff(c);
    assert name[..|name|] == name;
    CStringUpTo(name, |name|);
  }

  /** There was an unlock, and nothing has locked since. */
  predicate LastUnlocks(cmds: seq<Cmd>) {
    exists j ::
      && 0 <= j < |cmds| && Opens(cmds[j])
      && forall i :: j < i < |cmds| ==> !Locks(cmds[i])
  }

  /** After every history the flag says exactly that. */
  lemma {:induction false} FlagIffLastUnlocks(cmds: seq<Cmd>)
    ensures History(cmds).unlocked <==> LastUnlocks(cmds)
  {
    if cmds != [] {
      var init, c := cmds[..|cmds| - 1], cmds[|cmds| - 1];
      FlagIffLastUnlocks(init);
      assert init + [c] == cmds;
      FlagAfter(init, c);
      LastUnlocksStep(init, c, cmds);
    }
  }

  /** One more command decides if it locks or unlocks, and otherwise leaves things as they were. */
  lemma LastUnlocksStep(init: seq<Cmd>, c: Cmd, cmds: seq<Cmd>)
    requires cmds == init + [c]
    ensures LastUnlocks(cmds) <==> Opens(c) || (LastUnlocks(init) && !Locks(c))
  {
    LocksOrOpens(c);
    if LastUnlocks(cmds) {
      assert cmds[..|cmds|] == cmds;
      var j := LastUnlock(cmds, |cmds|);
      assert j < |init| ==> Opens(init[j]) && forall i :: j < i < |init| ==> init[i] == cmds[i];
      assert cmds[|init|] == c;
    }
    if Opens(c) {
      assert Opens(cmds[|init|]);
    }
    if !Locks(c) && LastUnlocks(init) {
      assert init[..|init|] == init;
      var j := LastUnlock(init, |init|);
      assert Opens(cmds[j]);
    }
  }

  /** Every start of an update was asked for by an UPDATE command in the unlocked state. */
  lemma {:induction false} StartsGated(cmds: seq<Cmd>, k: nat)
    requires k < |History(cmds).starts|
    ensures var at := History(cmds).starts[k].at;
            && at < |cmds| && History(cmds).count == |cmds|
            && cmds[at].name == Dispatch.UPDATE && ImageOf(cmds[at]) == Some(History(cmds).starts[k].image)
            && LastUnlocks(cmds[..at])
  {
    var init := cmds[..|cmds| - 1];
    CountIsLength(init);
    CountIsLength(cmds);
    if k < |History(init).starts| {
      StartsGated(init, k);
      var at := History(init).starts[k].at;
      assert init[..at] == cmds[..at];
    } else {
      FlagIffLastUnlocks(init);
    }
  }

  lemma {:induction false} CountIsLength(cmds: seq<Cmd>)
    ensures History(cmds).count == |cmds|
  {
    if cmds != [] {
      CountIsLength(cmds[..|cmds| - 1]);
    }
  }

  // ---- From keystrokes to updates ------------------------------------------------------

  /** Lines as the editor hands them over. */
  predicate Shaped(l: LineEditor.Outcome) {
    l.Handed? && |l.buffer| == LineEditor.CMD_BUFF_SZ && l.len <= LineEditor.CMD_BUFF_SZ
  }

  predicate AllShaped(lines: seq<LineEditor.Outcome>) {
    forall i :: 0 <= i < |lines| ==> Shaped(lines[i])
  }

  /** All that a length of sixteen bits can reach behind the buffer. */
  type Memory = m: seq<byte> | |m| >= 65536 ghost witness Zeros(65536)

  /**
   * The command a line is dispatched as: the name found in the buffer, with whatever backspaces have left
   * there, and the length handed on, wrapped or not. `behind` is the memory behind the buffer.
   */
  function Dispatched(l: LineEditor.Outcome, behind: Memory): Option<Cmd>
    requires Shaped(l)
  {
    Dispatch.TableNamed();
    match Dispatch.Search(Dispatch.TABLE, l.buffer, l.len, 0)
    case None => None
    case Some(k) =>
      var name := Dispatch.TABLE[k];
      Some(Call(name, l.buffer[|name|..] + behind, Dispatch.ArgLen(l.len, |name|)))
  }

  /** `behind(i)` is the memory behind the buffer when line `i` is handed over. */
  function CommandsOf(lines: seq<LineEditor.Outcome>, behind: nat -> Memory): seq<Cmd>
    requires AllShaped(lines)
  {
    if lines == [] then []
    else
      var n := |lines| - 1;
      match Dispatched(lines[n], behind(n))
      case None => CommandsOf(lines[..n], behind)
      case Some(c) => CommandsOf(lines[..n], behind) + [c]
  }

  /** A line reads `text`. */
  predicate Reads(l: LineEditor.Outcome, text: seq<byte>) {
    l.Handed? && l.len <= |l.buffer| && l.buffer[..l.len] == text
  }

  /**
   * A line is the unlocking command exactly when its text is `$UNLOCK UNLOCK`: no bytes left behind by
   * backspaces and no wrapped length can stand in for any part of it.
   */
  lemma UnlocksIffText(l: LineEditor.Outcome, behind: Memory)
    requires Shaped(l)
    ensures Dispatched(l, behind).Some? && Unlocks(Dispatched(l, behind).value) <==>
            Reads(l, Dispatch.UNLOCK + UNLOCK_ARG)
  {
    Dispatch.TableNamed();
    var text := Dispatch.UNLOCK + UNLOCK_ARG;
    if Dispatched(l, behind).Some? && Unlocks(Dispatched(l, behind).value) {
      UnlockReads(l, behind);
    }
    if Reads(l, text) {
      ReadsUnlock(l);
      assert l.buffer[7..][..7] == l.buffer[..14][7..] == UNLOCK_ARG;
    }
  }

  lemma UnlockReads(l: LineEditor.Outcome, behind: Memory)
    requires Shaped(l) && Dispatched(l, behind).Some? && Unlocks(Dispatched(l, behind).value)
    ensures Reads(l, Dispatch.UNLOCK + UNLOCK_ARG)
  {
    Dispatch.TableNamed();
    var c := Dispatched(l, behind).value;
    assert l.len == 14;
    assert l.buffer[7..14] == c.rest[..7];
    assert l.buffer[..14] == l.buffer[..7] + l.buffer[7..14];
  }

  lemma ReadsUnlock(l: LineEditor.Outcome)
    requires Shaped(l) && Reads(l, Dispatch.UNLOCK + UNLOCK_ARG)
    ensures Dispatch.Named(Dispatch.TABLE)
    ensures var r := Dispatch.Search(Dispatch.TABLE, l.buffer, l.len, 0);
            l.len == 14 && r.Some? && Dispatch.TABLE[r.value] == Dispatch.UNLOCK
  {
    Dispatch.TableNamed();
    Dispatch.UnlockAndUpdateApart();
    var b := l.buffer;
    assert b[..14][..7] == Dispatch.UNLOCK && b[7] == b[..14][7] == SPACE;
    Dispatch.FirstMatch(Dispatch.TABLE, b, l.len, 7);
  }

  /** The line that gave command `j`. */
  function LineOf(lines: seq<LineEditor.Outcome>, behind: nat -> Memory, j: nat): (i: nat)
    requires AllShaped(lines) && j < |CommandsOf(lines, behind)|
    ensures i < |lines|
  {
    var n := |lines| - 1;
    if j < |CommandsOf(lines[..n], behind)| then LineOf(lines[..n], behind, j) else n
  }

  /** The lines before it gave the commands before it. */
  lemma {:induction false} LineOfGives(lines: seq<LineEditor.Outcome>, behind: nat -> Memory, j: nat)
    requires AllShaped(lines) && j < |CommandsOf(lines, behind)|
    ensures var i := LineOf(lines, behind, j);
            && AllShaped(lines[..i]) && CommandsOf(lines[..i], behind) == CommandsOf(lines, behind)[..j]
            && Dispatched(lines[i], behind(i)) == Some(CommandsOf(lines, behind)[j])
  {
    var n := |lines| - 1;
    if j < |CommandsOf(lines[..n], behind)| {
      LineOfGives(lines[..n], behind, j);
      assert lines[..n][..LineOf(lines, behind, j)] == lines[..LineOf(lines, behind, j)];
    }
  }

  lemma {:induction false} LinesShaped(e: LineEditor.Edit, stream: seq<byte>)
    requires LineEditor.Fits(e)
    ensures AllShaped(LineEditor.Lines(e, stream))
    decreases |stream|
  {
    if stream != [] {
      LinesShaped(LineEditor.Key(e, stream[0]), stream[1..]);
    }
  }

  /** The commands that a stream of keys amounts to. */
  function TypedCommands(stream: seq<byte>, behind: nat -> Memory): seq<Cmd> {
    LinesShaped(LineEditor.Waiting, stream);
    CommandsOf(LineEditor.Lines(LineEditor.Waiting, stream), behind)
  }

  /**
   * From bytes to updates: whatever keys are typed, backspaces among them, an update starts only when a
   * line reading `$UNLOCK UNLOCK` was entered before it and none of the locking commands since.
   */
  lemma UpdateNeedsUnlockLine(stream: seq<byte>, behind: nat -> Memory, k: nat) returns (i: nat)
    requires k < |History(TypedCommands(stream, behind)).starts|
    ensures var lines, cmds := LineEditor.Lines(LineEditor.Waiting, stream), TypedCommands(stream, behind);
            var at := History(cmds).starts[k].at;
            && at < |cmds| && AllShaped(lines) && cmds == CommandsOf(lines, behind)
            && i < LineOf(lines, behind, at) && Reads(lines[i], Dispatch.UNLOCK + UNLOCK_ARG)
            && AllShaped(lines[..i + 1]) && |CommandsOf(lines[..i + 1], behind)| <= at
            && forall j :: |CommandsOf(lines[..i + 1], behind)| <= j < at ==> !Locks(cmds[j])
  {
    LinesShaped(LineEditor.Waiting, stream);
    var lines := LineEditor.Lines(LineEditor.Waiting, stream);
    var cmds := CommandsOf(lines, behind);
    StartsGated(cmds, k);
    var at := History(cmds).starts[k].at;
    var j := LastUnlock(cmds, at);
    i := UnlockLine(lines, behind, j, at);
  }

  lemma LastUnlock(cmds: seq<Cmd>, at: nat) returns (j: nat)
    requires at <= |cmds| && LastUnlocks(cmds[..at])
    ensures j < at && Opens(cmds[j]) && forall i :: j < i < at ==> !Locks(cmds[i])
  {
    j :| 0 <= j < at && Opens(cmds[..at][j]) && forall i :: j < i < at ==> !Locks(cmds[..at][i]);
    forall i | j < i < at ensures !Locks(cmds[i]) {
      assert cmds[i] == cmds[..at][i];
    }
  }

  /** The line of an unlocking command `j` reads as such, and stands before that of any later command. */
  lemma UnlockLine(lines: seq<LineEditor.Outcome>, behind: nat -> Memory, j: nat, at: nat) returns (i: nat)
    requires AllShaped(lines) && j < at < |CommandsOf(lines, behind)| && Opens(CommandsOf(lines, behind)[j])
    ensures i < LineOf(lines, behind, at) && Reads(lines[i], Dispatch.UNLOCK + UNLOCK_ARG)
    ensures AllShaped(lines[..i + 1]) && |CommandsOf(lines[..i + 1], behind)| == j + 1
  {
    i := LineOf(lines, behind, j);
    LocksOrOpens(CommandsOf(lines, behind)[j]);
    LineOfGives(lines, behind, j);
    UnlocksIffText(lines[i], behind(i));
    LineOfOrder(lines, behind, j, at);
    assert lines[..i + 1][..i] == lines[..i] && lines[..i + 1][i] == lines[i];
  }

  lemma {:induction false} LineOfOrder(lines: seq<LineEditor.Outcome>, behind: nat -> Memory, j: nat, k: nat)
    requires AllShaped(lines) && j < k < |CommandsOf(lines, behind)|
    ensures LineOf(lines, behind, j) < LineOf(lines, behind, k)
  {
    var n := |lines| - 1;
    if k < |CommandsOf(lines[..n], behind)| {
      LineOfOrder(lines[..n], behind, j, k);
    }
  }

  // ---- Where the NUL goes ---------------------------------------------------------------

  /**
   * The NUL behind a version stays within the input buffer exactly when the name is not longer than the
   * line and the line does not fill the buffer.
   */
  lemma NulInsideIff(len: nat, n: nat)
    requires len <= LineEditor.CMD_BUFF_SZ && n < 16
    ensures n + Dispatch.ArgLen(len, n) < LineEditor.CMD_BUFF_SZ <==> n <= len < LineEditor.CMD_BUFF_SZ
  {
  }

  /** "$UPDAT" and "E VERSION ". */
  const UPDAT: seq<byte> := Dispatch.UPDATE[..6]
  const E_VERSION: seq<byte> := [Dispatch.UPDATE[6]] + VERSION_ARG

  /** The keys: the unlock line, then `$UPDATE VERSION `, its last ten characters taken back, and Enter. */
  const UNLOCK_KEYS: seq<byte> := ([LineEditor.DOLLAR] + (Dispatch.UNLOCK + UNLOCK_ARG)) + [LF]
  const ERASED_KEYS: seq<byte> := ([LineEditor.DOLLAR] + ((UPDAT + E_VERSION) + Dispatch.Backs(10))) + [LF]

  /**
   * These keys start an update, of the image with the empty name. Its command is handed a length of 65535,
   * so that the NUL behind the version goes to cell 65542.
   */
  lemma ErasedVersion(behind: nat -> Memory)
    ensures var cmds := TypedCommands(UNLOCK_KEYS + ERASED_KEYS, behind);
            && |cmds| == 2 && cmds[1].name == Dispatch.UPDATE && |Dispatch.UPDATE| + cmds[1].len == 65542
            && History(cmds).starts == [Start([], 1)]
  {
    var l0 := UnlockTyped();
    var l1 := ErasedTyped();
    LineEditor.FoldAppend(LineEditor.Waiting, UNLOCK_KEYS, ERASED_KEYS);
    LinesShaped(LineEditor.Waiting, UNLOCK_KEYS + ERASED_KEYS);
    var lines := LineEditor.Lines(LineEditor.Waiting, UNLOCK_KEYS + ERASED_KEYS);
    assert lines == [l0] + [l1] == [l0, l1];
    UnlocksIffText(l0, behind(0));
    var c1 := ErasedDispatched(l1, behind(1));
    TwoCommands([l0, l1], behind, Dispatched(l0, behind(0)).value, c1);
    TwoExecuted(Dispatched(l0, behind(0)).value, c1);
  }

  lemma UnlockTyped() returns (l: LineEditor.Outcome)
    ensures Shaped(l) && Reads(l, Dispatch.UNLOCK + UNLOCK_ARG)
    ensures LineEditor.Fold(LineEditor.Waiting, UNLOCK_KEYS) == LineEditor.Waiting
    ensures LineEditor.Lines(LineEditor.Waiting, UNLOCK_KEYS) == [l]
  {
    var text := Dispatch.UNLOCK + UNLOCK_ARG;
    l := LineEditor.Handed(LineEditor.Image(LineEditor.Editing(text, [])), |text|);
    LineEditor.PlainStart(text);
    LineEditor.Entered([LineEditor.DOLLAR] + text, text, [], LF);
  }

  lemma ErasedTyped() returns (l: LineEditor.Outcome)
    ensures l == LineEditor.Handed(LineEditor.Image(LineEditor.Editing(UPDAT, E_VERSION)), |UPDAT|)
    ensures Shaped(l) && LineEditor.Lines(LineEditor.Waiting, ERASED_KEYS) == [l]
  {
    l := LineEditor.Handed(LineEditor.Image(LineEditor.Editing(UPDAT, E_VERSION)), |UPDAT|);
    Dispatch.ErasingLeaves(UPDAT, E_VERSION);
    LineEditor.Entered([LineEditor.DOLLAR] + ((UPDAT + E_VERSION) + Dispatch.Backs(10)), UPDAT, E_VERSION, LF);
  }

  lemma ErasedDispatched(l: LineEditor.Outcome, behind: Memory) returns (c: Cmd)
    requires l == LineEditor.Handed(LineEditor.Image(LineEditor.Editing(UPDAT, E_VERSION)), |UPDAT|)
    ensures Shaped(l) && Dispatched(l, behind) == Some(c)
    ensures c.name == Dispatch.UPDATE && c.len == 65535 && ImageOf(c) == Some([])
  {
    var b := l.buffer;
    Dispatch.TableNamed();
    Dispatch.UnlockAndUpdateApart();
    assert b == (UPDAT + E_VERSION) + Zeros(LineEditor.CMD_BUFF_SZ - 16);
    assert UPDAT + E_VERSION == Dispatch.UPDATE + VERSION_ARG;
    assert b[..7] == Dispatch.UPDATE && b[7..16] == VERSION_ARG && b[7] == SPACE && b[16] == NUL;
    Dispatch.FirstMatch(Dispatch.TABLE, b, 6, 8);
    c := Dispatched(l, behind).value;
    assert c.rest[..9] == VERSION_ARG && c.rest[..7][1] == VERSION_ARG[1] != UPDATE_ARG[1];
    assert c.rest[9..c.len][0] == b[16];
  }

  lemma TwoCommands(lines: seq<LineEditor.Outcome>, behind: nat -> Memory, c0: Cmd, c1: Cmd)
    requires |lines| == 2 && AllShaped(lines)
    requires Dispatched(lines[0], behind(0)) == Some(c0) && Dispatched(lines[1], behind(1)) == Some(c1)
    ensures CommandsOf(lines, behind) == [c0, c1]
  {
    assert lines[..1][..0] == [];
    assert CommandsOf(lines[..1], behind) == [] + [c0];
  }

  lemma TwoExecuted(c0: Cmd, c1: Cmd)
    requires Unlocks(c0) && c1.name == Dispatch.UPDATE && ImageOf(c1).Some?
    ensures History([c0, c1]).starts == [Start(ImageOf(c1).value, 1)]
  {
    LocksOrOpens(c0);
    assert [c0, c1][..1] == [c0] && [c0][..0] == [];
    assert History([c0]) == Exec(History([]), c0);
    assert Dispatch.UNLOCK[2] != Dispatch.UPDATE[2];
  }
}
