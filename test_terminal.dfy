/**
 * The screen logic of the terminal test harness in `test_terminal.py`: a
 * history-keeping screen whose `resize` pushes the rows it drops off the top
 * into the history, the cursor position report (CPR, section 8.3.14 of
 * ECMA-48) it answers with, and the fake REPL that paints numbered rows.
 */
module TestTerminal {
  import opened Support

  /** One row of screen cells, as the characters they show. */
  type Row = seq<char>

  // ---------------------------------------------------------------------
  // Decimal numbers, as Python's `str` and `%d` write them
  // ---------------------------------------------------------------------

  predicate IsDigit(c: char)
  {
    '0' <= c <= '9'
  }

  function DigitChar(d: nat): (c: char)
    requires d < 10
    ensures IsDigit(c)
  {
    ('0' as int + d) as char
  }

  function DigitValue(c: char): nat
    requires IsDigit(c)
  {
    c as int - '0' as int
  }

  /** `str(n)` for a non-negative `n`: its decimal digits, most significant first. */
  function Decimal(n: nat): (s: string)
    ensures |s| >= 1 && forall i :: 0 <= i < |s| ==> IsDigit(s[i])
    ensures n < 10 ==> s == [DigitChar(n)]
    decreases n
  {
    if n < 10 then [DigitChar(n)] else Decimal(n / 10) + [DigitChar(n % 10)]
  }

  /** The value of a string of digits. */
  function DigitsValue(s: string): nat
    requires forall i :: 0 <= i < |s| ==> IsDigit(s[i])
  {
    if s == [] then 0 else DigitsValue(s[..|s| - 1]) * 10 + DigitValue(s[|s| - 1])
  }

  /** Reads a non-empty string of digits. */
  function ParseDecimal(s: string): Option<nat>
  {
    if s != [] && forall i :: 0 <= i < |s| ==> IsDigit(s[i]) then Some(DigitsValue(s)) else None
  }

  /** Reading back what `Decimal` wrote gives the number. */
  lemma {:induction false} DecimalRoundTrip(n: nat)
    ensures ParseDecimal(Decimal(n)) == Some(n)
    decreases n
  {
    var s := Decimal(n);
    if n >= 10 {
      DecimalRoundTrip(n / 10);
      assert s[..|s| - 1] == Decimal(n / 10);
      assert DigitValue(s[|s| - 1]) == n % 10;
      assert DigitsValue(s) == (n / 10) * 10 + n % 10;
    } else {
      assert s[..0] == [];
    }
  }

  /** `"%d" % v` for any integer `v`: a minus sign before the digits of a negative number. */
  function FormatInt(v: int): (s: string)
    ensures s != [] && ';' !in s && 'R' !in s
  {
    if v < 0 then "-" + Decimal(-v) else Decimal(v)
  }

  /** Reads an optionally negative decimal number. */
  function ParseInt(s: string): Option<int>
  {
    if s != [] && s[0] == '-' then
      match ParseDecimal(s[1..])
      case None => None
      case Some(m) => Some(-(m as int))
    else
      match ParseDecimal(s)
      case None => None
      case Some(m) => Some(m)
  }

  /** Reading back what `FormatInt` wrote gives the number. */
  lemma FormatIntRoundTrip(v: int)
    ensures ParseInt(FormatInt(v)) == Some(v)
  {
    if v < 0 {
      DecimalRoundTrip(-v);
      assert FormatInt(v)[1..] == Decimal(-v);
    } else {
      DecimalRoundTrip(v);
    }
  }

  // ---------------------------------------------------------------------
  // The cursor position report
  // ---------------------------------------------------------------------

  /**
   * The reply to a device status report: the 0-indexed cursor written
   * 1-indexed, row before column, after the control sequence introducer
   * `csi`.
   */
  function CursorReport(csi: string, x: int, y: int): (s: string)
    ensures |s| > |csi| && s[..|csi|] == csi && s[|s| - 1] == 'R'
  {
    csi + FormatInt(y + 1) + ";" + FormatInt(x + 1) + "R"
  }

  /** The index of the first `c` in `s`, if any. */
  function Find(s: string, c: char): (r: Option<nat>)
    ensures r.None? ==> c !in s
    ensures r.Some? ==> r.value < |s| && s[r.value] == c && c !in s[..r.value]
  {
    if s == [] then None
    else if s[0] == c then Some(0)
    else
      match Find(s[1..], c)
      case None => None
      case Some(k) => assert s[..k + 1] == [s[0]] + s[1..][..k]; Some(k + 1)
  }

  /** Reads a cursor position report back into the 0-indexed (row, column) it reports. */
  function ParseCursorReport(csi: string, s: string): Option<(int, int)>
  {
    if |s| < |csi| + 1 || s[..|csi|] != csi || s[|s| - 1] != 'R' then None
    else
      var body := s[|csi|..|s| - 1];
      match Find(body, ';')
      case None => None
      case Some(k) =>
        match (ParseInt(body[..k]), ParseInt(body[k + 1..]))
        case (Some(row), Some(column)) => Some((row - 1, column - 1))
        case _ => None
  }

  /** The report names exactly the cursor it was written for, whatever the cursor (no clamping). */
  lemma CursorReportRoundTrip(csi: string, x: int, y: int)
    ensures ParseCursorReport(csi, CursorReport(csi, x, y)) == Some((y, x))
  {
    var s := CursorReport(csi, x, y);
    var rowText, columnText := FormatInt(y + 1), FormatInt(x + 1);
    var body := rowText + ";" + columnText;
    assert s == csi + body + "R";
    assert s[|csi|..|s| - 1] == body;
    assert body[..|rowText|] == rowText && body[|rowText|] == ';';
    assert body[|rowText| + 1..] == columnText;
    assert Find(body, ';') == Some(|rowText|) by {
      FindFirst(body, ';', |rowText|);
    }
    FormatIntRoundTrip(y + 1);
    FormatIntRoundTrip(x + 1);
  }

  /** `Find` reports the first occurrence. */
  lemma FindFirst(s: string, c: char, k: nat)
    requires k < |s| && s[k] == c && c !in s[..k]
    ensures Find(s, c) == Some(k)
  {
  }

  /**
   * `seek(0)` then `write(s)` on an in-memory text file: `s` overwrites the
   * start of the old contents, and whatever of them is longer stays.
   */
  function Overwrite(contents: string, s: string): (r: string)
    ensures |r| == if |contents| <= |s| then |s| else |contents|
    ensures r[..|s|] == s && r[|s|..] == if |contents| <= |s| then [] else contents[|s|..]
  {
    if |contents| <= |s| then s else s + contents[|s|..]
  }

  // ---------------------------------------------------------------------
  // Resizing
  // ---------------------------------------------------------------------

  /** Python's `x or current` for a requested size: an omitted or zero size keeps the current one. */
  function OrCurrent(requested: nat, current: nat): (size: nat)
    ensures requested > 0 ==> size == requested
    ensures size == 0 ==> current == 0
    ensures size == requested || size == current
  {
    if requested == 0 then current else requested
  }

  /** `del row[n:]`: what is left of a row cut at `n` cells. */
  function Take(row: Row, n: nat): (r: Row)
    ensures r <= row && |r| == if |row| <= n then |row| else n
  {
    if |row| <= n then row else row[..n]
  }

  /** Every row cut at `n` cells. */
  function TrimRows(rows: seq<Row>, n: nat): (r: seq<Row>)
    ensures |r| == |rows|
    ensures forall i :: 0 <= i < |rows| ==> r[i] <= rows[i] && |r[i]| == if |rows[i]| <= n then |rows[i]| else n
  {
    seq(|rows|, i requires 0 <= i < |rows| => Take(rows[i], n))
  }

  /** Rows no wider than `n` are left as they are. */
  lemma TrimNarrowRows(rows: seq<Row>, n: nat)
    requires forall i :: 0 <= i < |rows| ==> |rows[i]| <= n
    ensures TrimRows(rows, n) == rows
  {
    var r := TrimRows(rows, n);
    forall i | 0 <= i < |rows| ensures r[i] == rows[i] {
      assert r[i] <= rows[i] && |r[i]| == |rows[i]|;
    }
  }

  /**
   * A history-keeping screen (`HistoryPreservingOnResizeScreen`): the rows on
   * display, the rows pushed off the top, the cursor, the scrolling margins,
   * the origin mode flag and the in-memory file that holds the last cursor
   * report.
   */
  class HistoryScreen {
    var lines: nat
    var columns: nat
    var buffer: seq<Row>
    var history: seq<Row>
    var cursorX: int
    var cursorY: int
    var marginTop: int
    var marginBottom: int
    var originMode: bool
    var report: string

    /** The display has `lines` rows of `columns` cells each. */
    predicate Valid()
      reads this
    {
      |buffer| == lines && forall i :: 0 <= i < |buffer| ==> |buffer[i]| == columns
    }

    /** A blank screen of the given size with the cursor home and nothing reported yet. */
    constructor (columns: nat, lines: nat)
      ensures Valid() && this.lines == lines && this.columns == columns
      ensures buffer == Repeat(Repeat(' ', columns), lines) && history == []
      ensures cursorX == 0 && cursorY == 0 && marginTop == 0 && marginBottom == lines - 1
      ensures !originMode && report == ""
    {
      this.lines, this.columns := lines, columns;
      buffer := Repeat(Repeat(' ', columns), lines);
      history := [];
      cursorX, cursorY := 0, 0;
      marginTop, marginBottom := 0, lines - 1;
      originMode := false;
      report := "";
      new;
      forall i | 0 <= i < |buffer| ensures |buffer[i]| == columns {
        RepeatAt(Repeat(' ', columns), lines, i);
      }
    }

    /** `report_cursor_position`: the report overwrites the start of the report file. */
    method ReportCursorPosition(csi: string)
      modifies this
      ensures report == Overwrite(old(report), CursorReport(csi, cursorX, cursorY))
      ensures lines == old(lines) && columns == old(columns) && buffer == old(buffer) && history == old(history)
      ensures cursorX == old(cursorX) && cursorY == old(cursorY)
      ensures marginTop == old(marginTop) && marginBottom == old(marginBottom) && originMode == old(originMode)
    {
      var s := CursorReport(csi, cursorX, cursorY);
      report := Overwrite(report, s);
    }

    /** `reset_mode(DECOM)`: origin mode off, and the cursor goes home. */
    method ResetOriginMode()
      modifies this
      ensures !originMode && cursorX == 0 && cursorY == 0
      ensures lines == old(lines) && columns == old(columns) && buffer == old(buffer) && history == old(history)
      ensures marginTop == old(marginTop) && marginBottom == old(marginBottom) && report == old(report)
    {
      originMode := false;
      cursorX, cursorY := 0, 0;
    }

    /** Cuts every displayed row at `n` cells. */
    method TrimColumns(n: nat)
      modifies this
      ensures buffer == TrimRows(old(buffer), n)
      ensures lines == old(lines) && columns == old(columns) && history == old(history)
      ensures cursorX == old(cursorX) && cursorY == old(cursorY)
      ensures marginTop == old(marginTop) && marginBottom == old(marginBottom)
      ensures originMode == old(originMode) && report == old(report)
    {
      var rows := buffer;
      for y := 0 to |rows|
        invariant |rows| == |buffer|
        invariant forall i :: 0 <= i < y ==> rows[i] == Take(buffer[i], n)
        invariant forall i :: y <= i < |rows| ==> rows[i] == buffer[i]
      {
        rows := rows[y := Take(rows[y], n)];
      }
      assert rows == TrimRows(buffer, n);
      buffer := rows;
    }

    /** Moves the top `diff` rows into the history and the cursor up with them; no row is lost or reordered. */
    method DropTopRows(diff: nat)
      requires diff <= |buffer|
      modifies this
      ensures history == old(history) + old(buffer)[..diff] && buffer == old(buffer)[diff..]
      ensures history + buffer == old(history) + old(buffer)
      ensures cursorY == old(cursorY) - diff
      ensures lines == old(lines) && columns == old(columns) && cursorX == old(cursorX)
      ensures marginTop == old(marginTop) && marginBottom == old(marginBottom)
      ensures originMode == old(originMode) && report == old(report)
    {
      assert buffer[..diff] + buffer[diff..] == buffer;
      AppendAssoc(history, buffer[..diff], buffer[diff..]);
      history := history + buffer[..diff];
      buffer := buffer[diff..];
      cursorY := cursorY - diff;
    }

    /**
     * `resize`: shrinking drops the top rows into the history and moves the
     * cursor up with them, then cuts the rows to the new width; the size and
     * margins follow, and origin mode is reset with the cursor kept where it
     * was. Growing calls the module's undefined `take` and raises
     * `NameError`: growing the height raises before anything changes,
     * growing only the width raises after the rows have been dropped, and
     * only when there is a row to widen (the widening loop runs over the
     * new rows, so a screen of no rows takes its new width silently).
     */
    method Resize(requestedLines: nat, requestedColumns: nat) returns (raised: bool)
      requires Valid()
      modifies this
      ensures var newLines := OrCurrent(requestedLines, old(lines));
              var newColumns := OrCurrent(requestedColumns, old(columns));
              raised <==> newLines > old(lines) || (newColumns > old(columns) && newLines > 0)
      ensures OrCurrent(requestedLines, old(lines)) > old(lines) ==>
                buffer == old(buffer) && history == old(history) && cursorY == old(cursorY)
      ensures var newLines := OrCurrent(requestedLines, old(lines));
              var diff := old(lines) - newLines;
              newLines <= old(lines) ==>
                history == old(history) + old(buffer)[..diff] && cursorY == old(cursorY) - diff
      ensures var newLines := OrCurrent(requestedLines, old(lines));
              var newColumns := OrCurrent(requestedColumns, old(columns));
              newLines <= old(lines) && newColumns > old(columns) ==>
                buffer == old(buffer)[old(lines) - newLines..]
      ensures OrCurrent(requestedColumns, old(columns)) == old(columns) ==>
                history + buffer == old(history) + old(buffer)
      ensures raised ==>
                lines == old(lines) && columns == old(columns) && cursorX == old(cursorX)
                && marginTop == old(marginTop) && marginBottom == old(marginBottom)
                && originMode == old(originMode) && report == old(report)
      ensures var newLines := OrCurrent(requestedLines, old(lines));
              var newColumns := OrCurrent(requestedColumns, old(columns));
              !raised ==>
                Valid() && lines == newLines && columns == newColumns
                && buffer == TrimRows(old(buffer)[old(lines) - newLines..], newColumns)
                && cursorX == old(cursorX) && marginTop == 0 && marginBottom == newLines - 1
                && !originMode && report == old(report)
    {
      var newLines := OrCurrent(requestedLines, lines);
      var newColumns := OrCurrent(requestedColumns, columns);
      var diff := lines - newLines;
      if diff < 0 {
        return true;
      }
      DropTopRows(diff);
      diff := columns - newColumns;
      if diff < 0 && newLines > 0 {
        return true;
      } else if diff > 0 {
        TrimColumns(newColumns);
      } else {
        TrimNarrowRows(buffer, newColumns);
      }
      lines, columns := newLines, newColumns;
      marginTop, marginBottom := 0, lines - 1;
      var oldX, oldY := cursorX, cursorY;
      ResetOriginMode();
      cursorX, cursorY := oldX, oldY;
      raised := false;
    }
  }

  /** `resize()` with no arguments keeps the size and so changes no row, no history and no cursor. */
  lemma ResizeWithoutArgumentsKeepsRows(buffer: seq<Row>, lines: nat, columns: nat)
    requires |buffer| == lines && forall i :: 0 <= i < |buffer| ==> |buffer[i]| == columns
    ensures OrCurrent(0, lines) == lines && OrCurrent(0, columns) == columns
    ensures TrimRows(buffer[lines - OrCurrent(0, lines)..], OrCurrent(0, columns)) == buffer
  {
    assert buffer[0..] == buffer;
    TrimNarrowRows(buffer, columns);
  }

  /** A screen of no rows, three columns wide, widened to five: nothing to widen, so nothing raises. */
  method WidenEmptyScreen() returns (raised: bool, lines: nat, columns: nat)
    ensures !raised && lines == 0 && columns == 5
  {
    var screen := new HistoryScreen(3, 0);
    raised := screen.Resize(0, 5);
    lines, columns := screen.lines, screen.columns;
  }

  // ---------------------------------------------------------------------
  // The fake REPL
  // ---------------------------------------------------------------------

  /** `'-'.join(s for _ in range(k))`. */
  function JoinCopies(s: string, k: nat): (r: string)
    ensures |s| > 0 && k > 0 ==> |r| >= 2 * k - 1
    ensures |s| == 1 && k > 0 ==> |r| == 2 * k - 1
  {
    if k == 0 then "" else if k == 1 then s else JoinCopies(s, k - 1) + "-" + s
  }

  /** Joined copies of a one-character string alternate that character with `-`. */
  lemma {:induction false} JoinCopiesOfChar(c: char, k: nat, i: nat)
    requires i < 2 * k - 1
    ensures JoinCopies([c], k)[i] == if i % 2 == 0 then c else '-'
  {
    if k > 1 && i < 2 * k - 3 {
      JoinCopiesOfChar(c, k - 1, i);
      assert JoinCopies([c], k) == JoinCopies([c], k - 1) + "-" + [c];
    }
  }

  /** The fixture row `row` at the given width: its number joined with `-`, cut to the width. */
  function RowText(row: nat, columns: nat): (line: Row)
    ensures |line| == columns
  {
    var joined := JoinCopies(Decimal(row), columns);
    joined[..columns]
  }

  /** A one-digit row alternates its digit with `-` across the whole width. */
  lemma RowTextOfDigit(row: nat, columns: nat, i: nat)
    requires row < 10 && i < columns
    ensures RowText(row, columns)[i] == if i % 2 == 0 then DigitChar(row) else '-'
  {
    JoinCopiesOfChar(DigitChar(row), columns, i);
  }

  /** `FakeBpythonRepl`: how many lines it has output, and how many of them have scrolled off. */
  class FakeRepl {
    var scrolled: nat
    var numLinesOutput: nat

    constructor ()
      ensures scrolled == 0 && numLinesOutput == 1
    {
      scrolled, numLinesOutput := 0, 1;
    }

    /** `add_line`: one more line of output. */
    method AddLine()
      modifies this
      ensures numLinesOutput == old(numLinesOutput) + 1 && scrolled == old(scrolled)
    {
      numLinesOutput := numLinesOutput + 1;
    }

    /** `paint`: the fixture rows from the first unscrolled one to the last output one. */
    method Paint(columns: nat) returns (a: seq<Row>)
      ensures |a| == RangeLen(numLinesOutput - scrolled)
      ensures forall i :: 0 <= i < |a| ==> a[i] == RowText(scrolled + i, columns)
    {
      a := [];
      var row := scrolled;
      while row < numLinesOutput
        invariant scrolled <= row && (row <= numLinesOutput || row == scrolled)
        invariant |a| == row - scrolled
        invariant forall i :: 0 <= i < |a| ==> a[i] == RowText(scrolled + i, columns)
      {
        a := a + [RowText(row, columns)];
        row := row + 1;
      }
    }
  }

  /** The rows the fake REPL paints at width 6 in the height-change test. */
  lemma FixtureRows()
    ensures RowText(0, 6) == "0-0-0-" && RowText(1, 6) == "1-1-1-" && RowText(2, 6) == "2-2-2-"
  {
    forall row: nat, i: nat | row < 3 && i < 6
      ensures RowText(row, 6)[i] == if i % 2 == 0 then DigitChar(row) else '-'
    {
      RowTextOfDigit(row, 6, i);
    }
  }

  /**
   * The window-height test: three rows painted on a 6x3 screen with the
   * cursor on the last of them, then `resize(2, 6)`. The top row goes to the
   * history, two rows stay on display, and the cursor moves up to row 1.
   * Rendering through the window is not part of this model: the painted rows
   * and cursor are placed on the screen directly.
   */
  method ShrinkHeightScenario() returns (history: seq<Row>, display: seq<Row>, row: int, column: int)
    ensures history == ["0-0-0-"] && display == ["1-1-1-", "2-2-2-"]
    ensures row == 1 && column == 0
  {
    var repl := new FakeRepl();
    repl.AddLine();
    repl.AddLine();
    var painted := repl.Paint(6);
    FixtureRows();
    assert painted == ["0-0-0-", "1-1-1-", "2-2-2-"];
    var screen := new HistoryScreen(6, 3);
    screen.buffer := painted;
    screen.cursorX, screen.cursorY := 0, |painted| - 1;
    var raised := screen.Resize(2, 6);
    assert painted[..1] == ["0-0-0-"] && painted[1..] == ["1-1-1-", "2-2-2-"];
    TrimNarrowRows(painted[1..], 6);
    history, display, row, column := screen.history, screen.buffer, screen.cursorY, screen.cursorX;
  }
}
