# rlundo: undo for line-oriented interpreters, modelled in Dafny

rlundo runs an interactive interpreter under a pseudo-terminal and gives it
an `undo` command. This project models its three pieces of sequential logic
and proves properties of them:

- **The output recorder and rewind engine** (`rewrite.py`, module `Rewrite`
  in `rewrite.dfy`). The controlling process keeps a stack `outputs` of text
  buffers, one per prompt interval. `save` pushes an empty buffer, and
  `master_read` appends every output chunk to the newest buffer. `restore`
  pops the two newest buffers and counts their newlines `n`. If `n` is at
  most the cursor row, it moves the cursor up `n` rows and clears to the end
  of the screen. Otherwise it clears what it can, writes the line
  `#<---History contiguity broken by rewind--->`, repositions the cursor
  and writes `height // 2` filler lines. The class `Rewriter` holds the stack
  and a log of abstract terminal tokens (`MoveUp`, `MoveDown`, `MoveLeft`,
  `ClearEol`, `ClearEos`, `Text(s)`). Each of its methods is proved against a
  pure function of the old state (`AppendToNewest`, `Remaining`, `Popped`,
  `RewindOutput`), and the lemmas state the properties of those functions.
- **The fork-chain checkpoint protocol** (`undoableipython.py`, module
  `UndoableIPython` in `undoable_ipython.dfy`). `RawInputOriginal` is the
  loop of `raw_input_original`:
  - signal "save", then read a line;
  - turn `undo` or an interrupt into "restore" and exit status 42;
  - otherwise fork: the child returns the line; the parent waits, retrying
    on interrupts, then prompts again if the child's code is 42 and exits
    with the child's code otherwise.

  It runs over a script of rounds (what was read, and which side of the fork
  the process continues on). It is proved equal to the pure `Run`, and the
  lemmas about `Run` state the protocol. `ChainStep` models the whole process
  chain as a stack of committed lines, with the events "prompt" and "quit
  with a code". `rl_is_ipython` is `RlIsIpython` over a model of
  `os.path.basename`.
- **The terminal test harness's screen logic** (`test_terminal.py`, module
  `TestTerminal` in `test_terminal.dfy`):
  - the class `HistoryScreen` is the history-keeping screen. Its `Resize`
    drops top rows into the history, moves the cursor up with them, cuts the
    rows to the new width, and resets the size, the margins and origin mode.
  - `ReportCursorPosition` writes the cursor position report
    `CSI row;col R`, 1-indexed (section 8.3.14 of ECMA-48), over the start of
    its in-memory report file.
  - the class `FakeRepl` paints the numbered fixture rows.

`support.dfy` (module `Support`) holds the shared helpers: `Option`,
Python's `len(range(k))`, repetition and counting.

Some behaviours in the code may surprise a reader; the model follows the code:

- `restore` counts the newlines of *both* popped buffers: the output of the
  last command and the echo of the `undo` line. After the outputs
  `"line1\nline2\n"` and `"line3\n"`, a restore climbs three rows, not one
  (`Rewrite.UndoScenario`).
- A parent whose child exits with 42 does not exit itself. It signals "save"
  and prompts again, so one undo removes exactly one committed line.
- An undo in the root process, where no line is committed, ends the whole
  session with 42.
- `restore` has no fallback for a terminal that does not answer the cursor
  query. The row is whatever the query returns, here a parameter.
- `resize` grows the screen through `take`, which `test_terminal.py` never
  defines or imports. Growing therefore raises `NameError`. Growing the
  height raises before any change. Growing only the width raises after the
  top rows have already moved to the history, and only when the new height
  is not zero: the widening loop runs over the new rows, so a screen of no
  rows takes its new width without calling `take`. `Resize` returns whether
  it raised, and states the state in each case.
- The cursor is never clamped. A shrink can move it to a negative row, and
  the cursor report then carries a zero or negative number.

## Model

| member | source | states |
|---|---|---|
| Rewrite.Rewriter.constructor | rewrite.py:14 | the stack starts as one empty buffer and nothing has been written |
| Rewrite.CountLines | rewrite.py:30-31 | `count_lines` is zero exactly when the text holds no newline |
| Rewrite.Rewriter.Write | rewrite.py:20-22 | `write` appends exactly its argument to what the terminal has been sent and leaves the buffer stack alone |
| Rewrite.Rewriter.Save | rewrite.py:25-27 | `save` pushes exactly one empty buffer and writes nothing |
| Rewrite.StackAfterSaves | rewrite.py:14-27 | after `k` saves and no restore, the stack is `k + 1` empty buffers |
| Rewrite.CountLinesIsNewlineMultiplicity | rewrite.py:30-31 | `count_lines` is the number of `'\n'` characters in the message |
| Rewrite.ScenarioNewlines | rewrite.py:30-31 | `"line1\nline2\n"` holds two lines and `"line3\n"` holds one |
| Rewrite.CountLinesAppend | rewrite.py:38-39 | the newline count of a concatenation is the sum of the counts |
| Rewrite.AppendToNewest | rewrite.py:88-92 | appending output keeps the stack's length and every older buffer, and extends only the newest buffer by the data; an empty stack stays empty |
| Rewrite.Rewriter.MasterRead | rewrite.py:88-92 | `master_read` returns the data unchanged, and the stack becomes `AppendToNewest` of the old stack |
| Rewrite.Popped | rewrite.py:36-39 | the newline count of the popped text is the newest buffer's count plus the next-newest buffer's count (a missing buffer counts as `''`) |
| Rewrite.Remaining | rewrite.py:36-37 | a restore removes exactly `min(2, len(outputs))` buffers from the end and leaves the rest as a prefix of the old stack |
| Rewrite.Rewriter.PopTwo | rewrite.py:36-38 | the two pops return `Popped` of the old stack and leave `Remaining` of it |
| Rewrite.Rewriter.RewindNormally | rewrite.py:62-68 | the normal path's loops write exactly `NormalRewind(n)` |
| Rewrite.NormalRewindShape | rewrite.py:62-68 | the normal path writes `n` move-ups, then 200 move-lefts, then one clear-to-end-of-screen, and nothing else, with no marker |
| Rewrite.Rewriter.ClearUpToMarker | rewrite.py:43-49 | the overflow path's first loops write 200 move-lefts, a clear-eol, one (move-up, clear-eol) pair per available row, and the marker |
| Rewrite.Rewriter.RepositionAfterMarker | rewrite.py:50-56 | `height - 2` move-downs, 200 move-lefts, a newline, then `height - 1` move-ups; a negative range writes nothing |
| Rewrite.Rewriter.WriteFillerLines | rewrite.py:57-60 | `height // 2` filler lines, each followed by clear-to-end-of-screen |
| Rewrite.Rewriter.RewindOverflow | rewrite.py:42-60 | the overflow path writes exactly `OverflowRewind(lines_available, height)` |
| Rewrite.OverflowMarkerOnce | rewrite.py:42-60 | the overflow path writes the history-broken marker exactly once |
| Rewrite.OverflowBeforeMarker | rewrite.py:43-49 | the marker sits at index `201 + 2k`, where `k` is the number of available rows; before it come 200 move-lefts, a clear-eol and `k` (move-up, clear-eol) pairs, which hold exactly `k` move-ups |
| Rewrite.OverflowFillerTail | rewrite.py:50-60 | the overflow output ends with exactly `height // 2` (filler line, clear-eos) pairs |
| Rewrite.FillerTailCount | rewrite.py:57-60 | the overflow output holds `height // 2` filler lines and `height // 2` clear-eos tokens in all |
| Rewrite.MarkerIffOverflow | rewrite.py:42-68 | the marker appears in the rewind output exactly when `n > lines_available` |
| Rewrite.RestoreEmptyStack | rewrite.py:36-42 | restoring an empty stack pops nothing and, for a non-negative cursor row, takes the normal path with no move-up |
| Rewrite.Rewriter.Restore | rewrite.py:34-68 | `restore` leaves `Remaining` of the old stack and appends `RewindOutput` for the popped newline count and the cursor row |
| Rewrite.UndoCycle | rewrite.py:25-68 | save, output, save, echo, restore returns the stack to where it was. The rewind climbs the newlines of the output and the echo together: normally when they fit above the cursor, otherwise with one marker |
| Rewrite.UndoScenario | rewrite.py:25-68 | after outputs of two lines and one line, one restore leaves one buffer. It climbs three rows when the cursor row is at least 3, and otherwise writes the marker once |
| UndoableIPython.RawInputOriginal | undoableipython.py:54-92 | the loop (with the inner `waitpid` retry loop) ends and acts exactly as `Run` says for the same script |
| UndoableIPython.LineOf | undoableipython.py:60-68 | a read line is kept as it is, and the line is `undo` exactly when the user typed `undo` or pressed Ctrl-C |
| UndoableIPython.ParentDecision | undoableipython.py:88-90 | the parent prompts again exactly when the child's exit code `status // 256` is 42, and otherwise exits with that code |
| UndoableIPython.RoundActionsShape | undoableipython.py:54-90 | each turn is save, read, then either restore alone (exactly for `undo` or an interrupt), or a fork, then interrupted waits, then a reap as the last action |
| UndoableIPython.SaveBeforeEveryPrompt | undoableipython.py:54-63 | a run that does anything starts with "save", and every read comes right after a "save" |
| UndoableIPython.ReapOfUndoPromptsAgain | undoableipython.py:54-90 | a reap of exit code 42 is followed by the next turn's "save", or, at the end of the script, the run is about to prompt again |
| UndoableIPython.UndoExitsThroughRestore | undoableipython.py:67-72 | the run exits with 42 exactly when it signalled "restore". The restore follows a save and a read, and is the last action: the line is never forked on |
| UndoableIPython.ReturnedOnlyByChild | undoableipython.py:74-92 | a returned line is never `undo`, the fork is the last action, and some round read that line and continued as the child |
| UndoableIPython.ExitWithChildStatus | undoableipython.py:84-90 | a run that exits with any code but 42 exits with `status // 256` of the last status it reaped |
| UndoableIPython.WaitInterruptsIgnored | undoableipython.py:82-87 | interrupts during `waitpid` are retried and never change how the run ends |
| UndoableIPython.WaitStatus | undoableipython.py:88 | decoding the status of a child that exited with `code` gives `code` back |
| UndoableIPython.Unwind | undoableipython.py:88-90 | when the newest process ends with 42, exactly one committed line is dropped (at the root the session ends with 42); any other code ends the whole chain with that code |
| UndoableIPython.ChainStepAgreesWithRound | undoableipython.py:70-90 | a prompt in the chain model commits the line the child returns; the parent continues exactly when the child's code is 42 and otherwise exits with it |
| UndoableIPython.UndoDropsOneLine | undoableipython.py:67-72 | a typed `undo` or an interrupt at the prompt drops exactly the newest committed line |
| UndoableIPython.QuitEndsChain | undoableipython.py:88-90 | a child exiting with any code but 42 ends every process of the chain with that code |
| UndoableIPython.PromptsCommit | undoableipython.py:74-79 | reading lines other than `undo` commits each of them, in order |
| UndoableIPython.UndosDropLines | undoableipython.py:70-90 | `k` undos drop the newest `k` committed lines |
| UndoableIPython.UndoReturnsToCheckpoint | undoableipython.py:54-92 | undoing as many times as lines were entered returns to the state the first save recorded |
| UndoableIPython.UndoPastRootEnds | undoableipython.py:70-72 | one undo more than there are committed lines ends the session with 42 |
| UndoableIPython.RlIsIpython | undoableipython.py:101-107 | a path accepted as IPython ends in `ipython`, with a `/` right before it unless the path is exactly `ipython` |
| UndoableIPython.Basename | undoableipython.py:107 | the basename holds no `/`, is a suffix of the path, and is preceded by `/` unless it is the whole path |
| UndoableIPython.BasenameIsLastComponent | undoableipython.py:107 | a `/`-free suffix that follows a `/`, or is the whole path, is the basename |
| UndoableIPython.RlIsIpythonIf | undoableipython.py:101-107 | `ipython`, and any path ending in `/ipython`, names IPython |
| UndoableIPython.RlIsIpythonOnlyIf | undoableipython.py:101-107 | only `ipython` itself or a path ending in `/ipython` names IPython |
| UndoableIPython.RlIsIpythonExactly | undoableipython.py:101-107 | `rl_is_ipython` holds exactly when the path is `ipython` or ends in `/ipython` |
| UndoableIPython.RlIsIpythonFullPath | undoableipython.py:107 | `/usr/bin/ipython` names IPython |
| UndoableIPython.RlIsIpythonNotPrefix | undoableipython.py:107 | `ipython3` does not name IPython |
| UndoableIPython.RlIsIpythonTrailingSlash | undoableipython.py:107 | `/usr/bin/ipython/` does not name IPython: its basename is empty |
| TestTerminal.Decimal | test_terminal.py:49 | `str(n)` is a non-empty string of digits, and a single digit for `n < 10` |
| TestTerminal.DecimalRoundTrip | test_terminal.py:49 | reading back the digits of `str(n)` gives `n` |
| TestTerminal.FormatInt | test_terminal.py:49 | `%d` of any integer is non-empty and holds neither `;` nor `R` |
| TestTerminal.FormatIntRoundTrip | test_terminal.py:49 | reading back `%d` of any integer, negative ones included, gives the integer |
| TestTerminal.CursorReport | test_terminal.py:47-49 | the report starts with the control sequence introducer and ends with `R` |
| TestTerminal.CursorReportRoundTrip | test_terminal.py:47-49 | reading the report back gives the 0-indexed (row, column) of the cursor it was written for, for any cursor |
| TestTerminal.Overwrite | test_terminal.py:50-52 | writing at offset 0 puts the report at the start and keeps any longer tail of the old contents |
| TestTerminal.HistoryScreen.constructor | test_terminal.py:43-45 | a new screen is blank, has the cursor at home, margins `(0, lines - 1)` and an empty report file |
| TestTerminal.HistoryScreen.ReportCursorPosition | test_terminal.py:47-52 | the report of the current cursor overwrites the start of the report file; nothing else changes |
| TestTerminal.HistoryScreen.ResetOriginMode | test_terminal.py:99 | origin mode is off and the cursor is at home |
| TestTerminal.OrCurrent | test_terminal.py:64-65 | a non-zero requested size is taken as it is; otherwise the current size is kept, so the result is zero only when the current size is |
| TestTerminal.Take | test_terminal.py:94 | `del row[n:]` leaves a prefix of the row of length `min(len(row), n)` |
| TestTerminal.TrimRows | test_terminal.py:92-94 | every row is cut to a prefix of at most `n` cells |
| TestTerminal.HistoryScreen.TrimColumns | test_terminal.py:92-94 | the loop cuts every displayed row at `n` cells and changes nothing else |
| TestTerminal.TrimNarrowRows | test_terminal.py:92-94 | rows already no wider than `n` are unchanged |
| TestTerminal.HistoryScreen.DropTopRows | test_terminal.py:77-80 | the top `diff` rows move to the end of the history in order and the cursor moves up `diff` rows; history followed by display is unchanged |
| TestTerminal.HistoryScreen.Resize | test_terminal.py:63-101 | omitted sizes keep the current ones. A shrink appends the top `L - lines` rows to the history in order, removes them from the display and moves the cursor up as many rows. It cuts the rows to the new width, sets the size and the margins `(0, lines - 1)`, turns origin mode off and keeps the cursor column. When the width is unchanged, history followed by display reads as before. Growing the height raises; growing the width raises only when the new height is not zero; the state on raising is as described above |
| TestTerminal.WidenEmptyScreen | test_terminal.py:85-96 | widening a screen of no rows raises nothing and takes the new width |
| TestTerminal.ResizeWithoutArgumentsKeepsRows | test_terminal.py:64-65 | with no arguments the size is kept and the display rows are unchanged |
| TestTerminal.JoinCopies | test_terminal.py:187 | joining `k` copies of a non-empty string gives at least `2k - 1` characters, exactly that many for a one-character string |
| TestTerminal.JoinCopiesOfChar | test_terminal.py:187 | joined copies of one character alternate it with `-` |
| TestTerminal.RowText | test_terminal.py:187 | every fixture row is exactly `columns` wide |
| TestTerminal.RowTextOfDigit | test_terminal.py:187 | a one-digit fixture row alternates its digit with `-` across the whole width |
| TestTerminal.FakeRepl.constructor | test_terminal.py:176-179 | nothing is scrolled and one line has been output |
| TestTerminal.FakeRepl.AddLine | test_terminal.py:181-182 | one more line of output, scrolling unchanged |
| TestTerminal.FakeRepl.Paint | test_terminal.py:184-189 | `num_lines_output - scrolled` rows (none if negative), row `i` being the fixture row `scrolled + i` |
| TestTerminal.FixtureRows | test_terminal.py:257-263 | the fixture rows 0, 1 and 2 at width 6 are `0-0-0-`, `1-1-1-` and `2-2-2-` |
| TestTerminal.ShrinkHeightScenario | test_terminal.py:257-264 | after painting three rows on a 6x3 screen and `resize(2, 6)`, the history is `['0-0-0-']`, the display is `['1-1-1-', '2-2-2-']` and the cursor is at row 1, column 0 |

## Left out

- Socket rendezvous: the listener threads of `rewrite.py` and the client connection in `raw_input_original` are network I/O and threads. "save" and "restore" are single atomic actions here.
- Pseudo-terminal spawning and relaying (`run`, `run_with_listeners`) are I/O. `MasterRead` takes the chunk `os.read` returned as a parameter.
- `get_cursor_position` (module `findcursor`) is not part of this model. The cursor row is a parameter of `Rewrite.Rewriter.Restore`.
- `blessings` escape strings are abstract tokens. `terminal.height` is a parameter.
- Logging calls are diagnostics only and are left out.
- `os.fork`, `os.waitpid` and `os._exit` are not modelled as real processes. `UndoableIPython.RawInputOriginal` reads which side of the fork it is on, and the reaped status, from its script. The chain of processes is the pure `ChainStep`.
- `UndoableIPython.RawInputOriginal`: the choice between `input` and `raw_input` by Python version is one abstract read. An `EOFError` from the read is not modelled.
- `UndoableIPython.RawInputOriginal`: a script that runs out ends in `Prompting`, because the real loop can run forever.
- `patch_ipython`, `start_undoable_ipython` and `rlundo.py` are thin wrappers over IPython and over modules that are not part of this model.
- `TestTerminal.HistoryScreen.Resize`: requested sizes are natural numbers. Python's negative slice indices for a negative size are not modelled.
- `TestTerminal.HistoryScreen.Resize`: the history is an unbounded sequence. The maximum length of pyte's history deque is not modelled.
- `TestTerminal.HistoryScreen.ReportCursorPosition`: the value of pyte's `CSI` constant is a parameter.
- `TestTerminal.ShrinkHeightScenario`: rendering through curtsies' `CursorAwareWindow` is not modelled. The painted rows and the cursor are placed on the screen directly.
- The curtsies window tests, `ReportingStream` parsing, `Bugger`, `ScreenStdout` and the resizing diagram tests depend on libraries that are not part of this model.
- `FakeRepl.rows` and `FakeRepl.columns` read the terminal size through a callback. The width is a parameter of `TestTerminal.FakeRepl.Paint`.
