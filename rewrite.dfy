/**
 * The output recorder and the rewind engine of `rewrite.py`.
 *
 * The controlling process keeps one text buffer per prompt interval. A
 * "save" pushes a fresh buffer, every chunk the session prints is appended
 * to the newest one, and a "restore" pops the two newest buffers, counts
 * their newlines and either walks the cursor back up over them or, when
 * that would leave the visible screen, clears the screen and prints a
 * marker saying that history contiguity was broken.
 *
 * The terminal is abstracted to a log of tokens; the cursor row and the
 * terminal height are parameters of `Restore`.
 */
module Rewrite {
  import opened Support

  /** One write to the terminal: a cursor movement, a clear, or literal text. */
  datatype Token = MoveUp | MoveDown | MoveLeft | ClearEol | ClearEos | Text(s: string)

  /** The line written when a precise rewind is impossible. */
  const Marker: string := "#<---History contiguity broken by rewind--->\n"

  /** The filler line written, `height // 2` times, after the marker. */
  const Filler: string := ">hi there!\n\r"

  /** Number of left moves written to reach column 0 without tracking the column. */
  const LeftOvershoot: nat := 200

  /** `count_lines`: the number of newline characters in `msg`. */
  function CountLines(msg: string): (c: nat)
    ensures c == 0 <==> '\n' !in msg
  {
    CountZeroIffAbsent(msg, '\n');
    Count(msg, '\n')
  }

  /** Newlines of a concatenation are the newlines of its parts. */
  lemma CountLinesAppend(a: string, b: string)
    ensures CountLines(a + b) == CountLines(a) + CountLines(b)
  {
    CountAppend(a, b, '\n');
  }

  /** `count_lines` is the multiplicity of `'\n'` in the text. */
  lemma CountLinesIsNewlineMultiplicity(msg: string)
    ensures CountLines(msg) == multiset(msg)['\n']
  {
    CountIsMultiplicity(msg, '\n');
  }

  // ---------------------------------------------------------------------
  // The buffer stack, as values

  /** The stack after `master_read(data)`: `outputs[-1] += data` when there is a buffer. */
  function AppendToNewest(outputs: seq<string>, data: string): (r: seq<string>)
    ensures |r| == |outputs|
    ensures forall i :: 0 <= i < |outputs| - 1 ==> r[i] == outputs[i]
    ensures outputs != [] ==> r[|r| - 1] == outputs[|outputs| - 1] + data
  {
    if outputs == [] then [] else outputs[|outputs| - 1 := outputs[|outputs| - 1] + data]
  }

  /** The newest buffer, or `''` when the stack is empty (the first pop of `restore`). */
  function Newest(outputs: seq<string>): string
  {
    if |outputs| >= 1 then outputs[|outputs| - 1] else ""
  }

  /** The buffer below the newest, or `''` when there is none (the second pop of `restore`). */
  function BeforeNewest(outputs: seq<string>): string
  {
    if |outputs| >= 2 then outputs[|outputs| - 2] else ""
  }

  /**
   * The text `restore` joins: the newest buffer followed by the one before it.
   * Only those two buffers are consulted.
   */
  function Popped(outputs: seq<string>): (text: string)
    ensures CountLines(text) == CountLines(Newest(outputs)) + CountLines(BeforeNewest(outputs))
  {
    CountLinesAppend(Newest(outputs), BeforeNewest(outputs));
    Newest(outputs) + BeforeNewest(outputs)
  }

  /** The stack left after `restore` pops up to two buffers. */
  function Remaining(outputs: seq<string>): (r: seq<string>)
    ensures |r| == |outputs| - (if |outputs| >= 2 then 2 else |outputs|)
    ensures r <= outputs
  {
    if |outputs| >= 2 then outputs[..|outputs| - 2] else []
  }

  // ---------------------------------------------------------------------
  // The terminal writes of `restore`

  /** The normal path: `n` moves up, the left overshoot, then clear to end of screen. */
  function NormalRewind(n: nat): seq<Token>
  {
    Repeat(MoveUp, n) + Repeat(MoveLeft, LeftOvershoot) + [ClearEos]
  }

  /** The part of the overflow path up to and including the marker line. */
  function OverflowHead(linesAvailable: int): seq<Token>
  {
    Repeat(MoveLeft, LeftOvershoot) + [ClearEol]
    + RepeatPair(MoveUp, ClearEol, RangeLen(linesAvailable))
    + [Text(Marker)]
  }

  /** After the marker: move to the bottom line, reach column 0, scroll once and climb back up. */
  function Reposition(height: nat): seq<Token>
  {
    Repeat(MoveDown, RangeLen(height - 2))
    + Repeat(MoveLeft, LeftOvershoot)
    + [Text("\n")]
    + Repeat(MoveUp, RangeLen(height - 1))
  }

  /** The closing `height // 2` filler lines, each followed by a clear to end of screen. */
  function FillerLines(height: nat): seq<Token>
  {
    RepeatPair(Text(Filler), ClearEos, height / 2)
  }

  /** The part of the overflow path after the marker line. */
  function OverflowTail(height: nat): seq<Token>
  {
    Reposition(height) + FillerLines(height)
  }

  /** The overflow path: clear upwards, write the marker, then make room mid-screen. */
  function OverflowRewind(linesAvailable: int, height: nat): seq<Token>
  {
    OverflowHead(linesAvailable) + OverflowTail(height)
  }

  /** Everything `restore` writes, for `n` popped newlines and the cursor on row `linesAvailable`. */
  function RewindOutput(n: nat, linesAvailable: int, height: nat): seq<Token>
  {
    if n > linesAvailable then OverflowRewind(linesAvailable, height) else NormalRewind(n)
  }

  // ---------------------------------------------------------------------
  // Properties of the rewind output

  /** `k` when `b` holds, else `0`: what one kind of token contributes to a count. */
  function Weight(b: bool, k: nat): nat
  {
    if b then k else 0
  }

  /** How often each token occurs in the normal path. */
  lemma NormalRewindCount(n: nat, x: Token)
    ensures Count(NormalRewind(n), x)
      == Weight(x == MoveUp, n) + Weight(x == MoveLeft, LeftOvershoot) + Weight(x == ClearEos, 1)
  {
    CountRepeat(MoveUp, n, x);
    CountRepeat(MoveLeft, LeftOvershoot, x);
    CountAppend(Repeat(MoveUp, n), Repeat(MoveLeft, LeftOvershoot), x);
    CountAppend(Repeat(MoveUp, n) + Repeat(MoveLeft, LeftOvershoot), [ClearEos], x);
    CountOne(ClearEos, x);
  }

  /** How often each token occurs in the overflow path up to the marker. */
  lemma OverflowHeadCount(linesAvailable: int, x: Token)
    ensures var k := RangeLen(linesAvailable);
      Count(OverflowHead(linesAvailable), x)
      == Weight(x == MoveLeft, LeftOvershoot) + Weight(x == ClearEol, k + 1)
         + Weight(x == MoveUp, k) + Weight(x == Text(Marker), 1)
  {
    var k := RangeLen(linesAvailable);
    var lefts := Repeat(MoveLeft, LeftOvershoot);
    var pairs := RepeatPair(MoveUp, ClearEol, k);
    CountRepeat(MoveLeft, LeftOvershoot, x);
    CountRepeatPair(MoveUp, ClearEol, k, x);
    CountAppend(lefts, [ClearEol], x);
    CountAppend(lefts + [ClearEol], pairs, x);
    CountAppend(lefts + [ClearEol] + pairs, [Text(Marker)], x);
    CountOne(ClearEol, x);
    CountOne(Text(Marker), x);
  }

  /** The repositioning after the marker writes only moves and one newline. */
  lemma RepositionCount(height: nat, x: Token)
    requires x != MoveDown && x != MoveLeft && x != MoveUp && x != Text("\n")
    ensures Count(Reposition(height), x) == 0
  {
    var downs := Repeat(MoveDown, RangeLen(height - 2));
    var lefts := Repeat(MoveLeft, LeftOvershoot);
    var ups := Repeat(MoveUp, RangeLen(height - 1));
    CountRepeat(MoveDown, RangeLen(height - 2), x);
    CountRepeat(MoveLeft, LeftOvershoot, x);
    CountRepeat(MoveUp, RangeLen(height - 1), x);
    CountAppend(downs, lefts, x);
    CountAppend(downs + lefts, [Text("\n")], x);
    CountAppend(downs + lefts + [Text("\n")], ups, x);
    CountOne(Text("\n"), x);
  }

  /** How often the marker, the filler line and the clear to end of screen occur after the marker. */
  lemma OverflowTailCount(height: nat, x: Token)
    requires x == Text(Marker) || x == Text(Filler) || x == ClearEos
    ensures Count(OverflowTail(height), x)
      == Weight(x == Text(Filler), height / 2) + Weight(x == ClearEos, height / 2)
  {
    RepositionCount(height, x);
    CountRepeatPair(Text(Filler), ClearEos, height / 2, x);
    CountAppend(Reposition(height), FillerLines(height), x);
  }

  /** The normal path is exactly `n` moves up, 200 moves left and one clear to end of screen. */
  lemma NormalRewindShape(n: nat)
    ensures |NormalRewind(n)| == n + LeftOvershoot + 1
    ensures forall i :: 0 <= i < n ==> NormalRewind(n)[i] == MoveUp
    ensures forall i :: n <= i < n + LeftOvershoot ==> NormalRewind(n)[i] == MoveLeft
    ensures NormalRewind(n)[n + LeftOvershoot] == ClearEos
    ensures Count(NormalRewind(n), Text(Marker)) == 0
  {
    forall i | 0 <= i < n
      ensures NormalRewind(n)[i] == MoveUp
    {
      RepeatAt(MoveUp, n, i);
    }
    forall i | n <= i < n + LeftOvershoot
      ensures NormalRewind(n)[i] == MoveLeft
    {
      RepeatAt(MoveLeft, LeftOvershoot, i - n);
    }
    NormalRewindCount(n, Text(Marker));
  }

  /** The overflow path writes the marker exactly once. */
  lemma OverflowMarkerOnce(linesAvailable: int, height: nat)
    ensures Count(OverflowRewind(linesAvailable, height), Text(Marker)) == 1
  {
    OverflowHeadCount(linesAvailable, Text(Marker));
    OverflowTailCount(height, Text(Marker));
    CountAppend(OverflowHead(linesAvailable), OverflowTail(height), Text(Marker));
  }

  /**
   * Before the marker the overflow path writes the left overshoot, one clear
   * to end of line, then exactly `linesAvailable` (move up, clear to end of
   * line) pairs.
   */
  lemma OverflowBeforeMarker(linesAvailable: int, height: nat)
    ensures var out := OverflowRewind(linesAvailable, height);
      var m := LeftOvershoot + 1 + 2 * RangeLen(linesAvailable);
      m < |out| && out[m] == Text(Marker)
      && (forall i :: 0 <= i < LeftOvershoot ==> out[i] == MoveLeft)
      && out[LeftOvershoot] == ClearEol
      && (forall j :: 0 <= j < RangeLen(linesAvailable) ==>
            out[LeftOvershoot + 1 + 2 * j] == MoveUp && out[LeftOvershoot + 2 + 2 * j] == ClearEol)
      && Count(out[..m], MoveUp) == RangeLen(linesAvailable)
  {
    var k := RangeLen(linesAvailable);
    var head := OverflowHead(linesAvailable);
    var out := OverflowRewind(linesAvailable, height);
    var m := LeftOvershoot + 1 + 2 * k;
    assert |head| == m + 1;
    assert out[..m + 1] == head;
    assert out[..m] == head[..m];
    forall i | 0 <= i < LeftOvershoot
      ensures out[i] == MoveLeft
    {
      RepeatAt(MoveLeft, LeftOvershoot, i);
    }
    forall j | 0 <= j < k
      ensures out[LeftOvershoot + 1 + 2 * j] == MoveUp && out[LeftOvershoot + 2 + 2 * j] == ClearEol
    {
      RepeatPairAt(MoveUp, ClearEol, k, j);
    }
    OverflowHeadCount(linesAvailable, MoveUp);
    assert head == head[..m] + [Text(Marker)];
    CountAppend(head[..m], [Text(Marker)], MoveUp);
    assert [Text(Marker)][..0] == [];
  }

  /**
   * After the marker the overflow path ends with exactly `height // 2`
   * filler lines, each followed by a clear to end of screen, and those are
   * the only filler lines and the only clears to end of screen it writes.
   */
  lemma OverflowFillerTail(linesAvailable: int, height: nat)
    ensures var out := OverflowRewind(linesAvailable, height);
      var m := height / 2;
      2 * m <= |out|
      && out[|out| - 2 * m..] == RepeatPair(Text(Filler), ClearEos, m)
      && Count(out, Text(Filler)) == m
      && Count(out, ClearEos) == m
  {
    var front := OverflowHead(linesAvailable) + Reposition(height);
    AppendAssoc(OverflowHead(linesAvailable), Reposition(height), FillerLines(height));
    assert OverflowRewind(linesAvailable, height) == front + FillerLines(height);
    FillerTailCount(linesAvailable, height, Text(Filler));
    FillerTailCount(linesAvailable, height, ClearEos);
  }

  /** The filler line and the clear to end of screen occur only among the filler lines. */
  lemma FillerTailCount(linesAvailable: int, height: nat, x: Token)
    requires x == Text(Filler) || x == ClearEos
    ensures Count(OverflowRewind(linesAvailable, height), x) == height / 2
  {
    OverflowHeadCount(linesAvailable, x);
    OverflowTailCount(height, x);
    CountAppend(OverflowHead(linesAvailable), OverflowTail(height), x);
  }

  /** The marker appears in the output exactly when the popped newlines exceed the cursor row. */
  lemma MarkerIffOverflow(n: nat, linesAvailable: int, height: nat)
    ensures Text(Marker) in RewindOutput(n, linesAvailable, height) <==> n > linesAvailable
  {
    CountZeroIffAbsent(RewindOutput(n, linesAvailable, height), Text(Marker));
    if n > linesAvailable {
      OverflowMarkerOnce(linesAvailable, height);
    } else {
      NormalRewindShape(n);
    }
  }

  /**
   * Restoring an empty stack pops nothing, so with the cursor on any row
   * it takes the normal path with no move up.
   */
  lemma RestoreEmptyStack(cursorRow: int, height: nat)
    requires cursorRow >= 0
    ensures Remaining([]) == []
    ensures RewindOutput(CountLines(Popped([])), cursorRow, height) == NormalRewind(0)
  {
  }

  /**
   * One prompt-and-undo cycle: from stack `s`, a save, the output `b` of a
   * command, a save at the next prompt and the echo `u` of the undo line are
   * all consumed by one restore. The stack is back to `s`, and the rewind
   * climbs the newlines of `b` and `u` together, on the normal path when
   * the cursor row allows it.
   */
  lemma {:induction false} UndoCycle(s: seq<string>, b: string, u: string, cursorRow: int, height: nat)
    ensures var stack := AppendToNewest(AppendToNewest(s + [""], b) + [""], u);
      var n := CountLines(Popped(stack));
      Remaining(stack) == s
      && n == CountLines(b) + CountLines(u)
      && (n <= cursorRow ==> RewindOutput(n, cursorRow, height) == NormalRewind(n))
      && (n > cursorRow ==> Count(RewindOutput(n, cursorRow, height), Text(Marker)) == 1)
  {
    var first := AppendToNewest(s + [""], b);
    assert "" + b == b;
    assert first == s + [b];
    var stack := AppendToNewest(first + [""], u);
    assert "" + u == u;
    assert stack == s + [b, u];
    assert Newest(stack) == u && BeforeNewest(stack) == b;
    assert stack[..|stack| - 2] == s;
    var n := CountLines(Popped(stack));
    if n > cursorRow {
      OverflowMarkerOnce(cursorRow, height);
    }
  }

  // ---------------------------------------------------------------------
  // The controlling process's state

  /** The module-level state of `rewrite.py`: the buffer stack and what has been written to the terminal. */
  class Rewriter {
    /** `outputs`: one buffer per prompt interval, newest last. */
    var outputs: seq<string>
    /** Every token written to the terminal so far. */
    var written: seq<Token>

    /** The stack starts as a single empty buffer. */
    constructor ()
      ensures outputs == [""] && written == []
    {
      outputs := [""];
      written := [];
    }

    /** `save`: push one empty buffer; nothing is written. */
    method Save()
      modifies this
      ensures outputs == old(outputs) + [""]
      ensures |outputs| == |old(outputs)| + 1
      ensures written == old(written)
    {
      outputs := outputs + [""];
    }

    /** `master_read`: record a chunk of session output in the newest buffer and pass it on unchanged. */
    method MasterRead(data: string) returns (r: string)
      modifies this
      ensures r == data
      ensures outputs == AppendToNewest(old(outputs), data)
      ensures written == old(written)
    {
      if |outputs| > 0 {
        outputs := outputs[|outputs| - 1 := outputs[|outputs| - 1] + data];
      }
      r := data;
    }

    /** `write`: one token to the terminal. */
    method Write(t: Token)
      modifies this
      ensures written == old(written) + [t]
      ensures outputs == old(outputs)
    {
      written := written + [t];
    }

    /** Write `t` `k` times. */
    method WriteRepeated(t: Token, k: nat)
      modifies this
      ensures written == old(written) + Repeat(t, k)
      ensures outputs == old(outputs)
    {
      for i := 0 to k
        invariant written == old(written) + Repeat(t, i)
        invariant outputs == old(outputs)
      {
        Write(t);
      }
    }

    /** The normal path of `restore`: climb `n` lines, reach column 0, clear to end of screen. */
    method RewindNormally(n: nat)
      modifies this
      ensures written == old(written) + NormalRewind(n)
      ensures outputs == old(outputs)
    {
      WriteRepeated(MoveUp, n);
      WriteRepeated(MoveLeft, LeftOvershoot);
      Write(ClearEos);
    }

    /** The overflow path of `restore` up to the marker: clear the lines above the cursor. */
    method ClearUpToMarker(linesAvailable: int)
      modifies this
      ensures written == old(written) + OverflowHead(linesAvailable)
      ensures outputs == old(outputs)
    {
      WriteRepeated(MoveLeft, LeftOvershoot);
      Write(ClearEol);
      ghost var cleared := written;
      for i := 0 to RangeLen(linesAvailable)
        invariant written == cleared + RepeatPair(MoveUp, ClearEol, i)
        invariant outputs == old(outputs)
      {
        Write(MoveUp);
        Write(ClearEol);
      }
      ghost var climbed := written;
      Write(Text(Marker));
      ghost var lefts := Repeat(MoveLeft, LeftOvershoot);
      ghost var pairs := RepeatPair(MoveUp, ClearEol, RangeLen(linesAvailable));
      AppendAssoc(old(written), lefts, [ClearEol]);
      AppendAssoc(old(written), lefts + [ClearEol], pairs);
      AppendAssoc(old(written), lefts + [ClearEol] + pairs, [Text(Marker)]);
    }

    /** The overflow path of `restore` after the marker: go to the bottom line, scroll once, climb back. */
    method RepositionAfterMarker(height: nat)
      modifies this
      ensures written == old(written) + Reposition(height)
      ensures outputs == old(outputs)
    {
      WriteRepeated(MoveDown, RangeLen(height - 2));
      WriteRepeated(MoveLeft, LeftOvershoot);
      Write(Text("\n"));
      WriteRepeated(MoveUp, RangeLen(height - 1));
    }

    /** The last loop of the overflow path: `height // 2` filler lines. */
    method WriteFillerLines(height: nat)
      modifies this
      ensures written == old(written) + FillerLines(height)
      ensures outputs == old(outputs)
    {
      var middle := height / 2;
      for i := 0 to middle
        invariant written == old(written) + RepeatPair(Text(Filler), ClearEos, i)
        invariant outputs == old(outputs)
      {
        Write(Text(Filler));
        Write(ClearEos);
      }
    }

    /** The two pops that open `restore`: the newest buffer, then the one before it. */
    method PopTwo() returns (lines: string)
      modifies this
      ensures lines == Popped(old(outputs))
      ensures outputs == Remaining(old(outputs))
      ensures written == old(written)
    {
      var linesBetweenSaves := "";
      if |outputs| > 0 {
        linesBetweenSaves := outputs[|outputs| - 1];
        outputs := outputs[..|outputs| - 1];
      }
      var linesAfterSave := "";
      if |outputs| > 0 {
        linesAfterSave := outputs[|outputs| - 1];
        outputs := outputs[..|outputs| - 1];
      }
      lines := linesBetweenSaves + linesAfterSave;
    }

    /** The overflow path of `restore`. */
    method RewindOverflow(linesAvailable: int, height: nat)
      modifies this
      ensures written == old(written) + OverflowRewind(linesAvailable, height)
      ensures outputs == old(outputs)
    {
      ClearUpToMarker(linesAvailable);
      ghost var cleared := written;
      RepositionAfterMarker(height);
      WriteFillerLines(height);
      AppendAssoc(cleared, Reposition(height), FillerLines(height));
      AppendAssoc(old(written), OverflowHead(linesAvailable), OverflowTail(height));
    }

    /**
     * `restore`: pop the two newest buffers, count their newlines and rewind
     * the terminal; `cursorRow` is the row the cursor query reports.
     */
    method Restore(cursorRow: int, height: nat)
      modifies this
      ensures outputs == Remaining(old(outputs))
      ensures written == old(written) + RewindOutput(CountLines(Popped(old(outputs))), cursorRow, height)
    {
      var lines := PopTwo();
      var n := CountLines(lines);
      var linesAvailable := cursorRow;
      if n > linesAvailable {
        RewindOverflow(linesAvailable, height);
      } else {
        RewindNormally(n);
      }
    }
  }

  /** `k` saves on a fresh stack and no restore leave `k + 1` empty buffers. */
  method StackAfterSaves(k: nat) returns (stack: seq<string>)
    ensures stack == Repeat("", k + 1)
  {
    var r := new Rewriter();
    for i := 0 to k
      invariant r.outputs == Repeat("", i + 1)
    {
      r.Save();
    }
    stack := r.outputs;
  }

  /**
   * A prompt-and-undo example: one empty buffer, a save, the output
   * "line1\nline2\n", a save, the output "line3\n", then a restore on a
   * terminal of any height. Both popped buffers are counted, so the rewind
   * climbs three lines when the cursor is on row 3 or below, and otherwise
   * writes the marker once.
   */
  method UndoScenario(cursorRow: int, height: nat) returns (log: seq<Token>, depth: nat)
    ensures depth == 1
    ensures cursorRow >= 3 ==> log == NormalRewind(3)
    ensures cursorRow < 3 ==> Count(log, Text(Marker)) == 1
  {
    var r := new Rewriter();
    r.Save();
    var echoed := r.MasterRead("line1\nline2\n");
    r.Save();
    echoed := r.MasterRead("line3\n");
    ScenarioNewlines();
    UndoCycle([""], "line1\nline2\n", "line3\n", cursorRow, height);
    r.Restore(cursorRow, height);
    log, depth := r.written, |r.outputs|;
    assert log == [] + RewindOutput(3, cursorRow, height);
    assert log == RewindOutput(3, cursorRow, height);
  }

  /** The newline counts of the two outputs of `UndoScenario`. */
  lemma ScenarioNewlines()
    ensures CountLines("line1\nline2\n") == 2
    ensures CountLines("line3\n") == 1
  {
    CountLinesIsNewlineMultiplicity("line1\nline2\n");
    CountLinesIsNewlineMultiplicity("line3\n");
  }
}
