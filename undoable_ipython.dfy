/**
 * The checkpoint protocol of `undoableipython.py`.
 *
 * Before every prompt the process signals "save"; it then reads a line. The
 * line `undo` (or an interrupt while reading) signals "restore" and ends the
 * process with the distinguished status 42. Any other line forks: the child
 * returns the line to the interpreter, which runs it; the parent waits for
 * the child, prompts again when the child ended with 42, and otherwise ends
 * with the child's status.
 *
 * One process is modelled by `RawInputOriginal`, which consumes a script of
 * rounds (what the reader gave and which side of the fork this process is
 * on). The whole chain of processes is modelled by `ChainStep`, a stack of
 * committed lines.
 */
module UndoableIPython {
  import opened Support

  /** The exit status meaning "undo requested, screen already restored". */
  const UndoCode: int := 42

  /** The input line that requests an undo. */
  const UndoLine: string := "undo"

  /** What one call of the line reader gives. */
  datatype Input = Line(text: string) | KeyboardInterrupt

  /**
   * Which side of `os.fork()` this process continues on: the child
   * (`pid == 0`), or the parent, whose `os.waitpid` was interrupted
   * `interruptedWaits` times before it reaped the child's `status`.
   */
  datatype ForkRole = Child | Parent(interruptedWaits: nat, status: nat)

  /** One turn of the outer loop: what was read, and the fork's outcome should a fork happen. */
  datatype Round = Round(input: Input, role: ForkRole)

  /** The observable actions of one process. */
  datatype Action = SaveSignal | ReadInput | RestoreSignal | Forked | WaitInterrupted | Reaped(status: nat)

  /**
   * How a run of `raw_input_original` ends: it returns a line, ends the
   * process with an exit code, or (when the scripted rounds run out) is
   * about to signal "save" and prompt again.
   */
  datatype Finish = Returned(line: string) | Exited(code: int) | Prompting

  /** The line a read produces: an interrupt reads as `undo`. */
  function LineOf(input: Input): (line: string)
    ensures input.Line? ==> line == input.text
    ensures line == UndoLine <==> input == KeyboardInterrupt || input == Line(UndoLine)
  {
    match input
    case Line(text) => text
    case KeyboardInterrupt => UndoLine
  }

  /** The parent's decision on the reaped `status`: prompt again (`None`) or exit with `status // 256`. */
  function ParentDecision(status: nat): (d: Option<int>)
    ensures d.None? <==> status / 256 == UndoCode
    ensures d.Some? ==> d.value == status / 256 && d.value != UndoCode && d.value >= 0
  {
    var code := status / 256;
    if code == UndoCode then None else Some(code)
  }

  /** The actions of one turn of the outer loop. */
  function RoundActions(r: Round): seq<Action>
  {
    [SaveSignal, ReadInput]
    + if LineOf(r.input) == UndoLine then [RestoreSignal]
      else match r.role
        case Child => [Forked]
        case Parent(waits, status) => [Forked] + Repeat(WaitInterrupted, waits) + [Reaped(status)]
  }

  /** How one turn ends the run, or `None` when the loop goes round again. */
  function RoundFinish(r: Round): Option<Finish>
  {
    if LineOf(r.input) == UndoLine then Some(Exited(UndoCode))
    else match r.role
      case Child => Some(Returned(LineOf(r.input)))
      case Parent(_, status) =>
        match ParentDecision(status)
        case None => None
        case Some(code) => Some(Exited(code))
  }

  /** The run of `raw_input_original` over a script of rounds: how it ends and what it did. */
  function Run(rounds: seq<Round>): (Finish, seq<Action>)
  {
    if rounds == [] then (Prompting, [])
    else
      match RoundFinish(rounds[0])
      case Some(f) => (f, RoundActions(rounds[0]))
      case None =>
        var rest := Run(rounds[1..]);
        (rest.0, RoundActions(rounds[0]) + rest.1)
  }

  /**
   * `raw_input_original`: the outer `while True` loop of save, read, undo
   * check and fork, with the inner retry loop around `waitpid`.
   */
  method RawInputOriginal(rounds: seq<Round>) returns (finish: Finish, actions: seq<Action>)
    ensures (finish, actions) == Run(rounds)
  {
    actions := [];
    var i := 0;
    assert rounds[i..] == rounds && actions + Run(rounds).1 == Run(rounds).1;
    while i < |rounds|
      invariant 0 <= i <= |rounds|
      invariant Run(rounds) == (Run(rounds[i..]).0, actions + Run(rounds[i..]).1)
    {
      assert rounds[i..][0] == rounds[i] && rounds[i..][1..] == rounds[i + 1..];
      ghost var before := actions;
      var turn := [SaveSignal];
      var line;
      match rounds[i].input {
        case Line(text) => line := text;
        case KeyboardInterrupt => line := UndoLine;
      }
      turn := turn + [ReadInput];
      assert line == LineOf(rounds[i].input);
      if line == UndoLine {
        turn := turn + [RestoreSignal];
        assert turn == RoundActions(rounds[i]) && RoundFinish(rounds[i]) == Some(Exited(UndoCode));
        actions, finish := actions + turn, Exited(UndoCode);
        return;
      }
      turn := turn + [Forked];
      match rounds[i].role {
        case Child =>
          assert turn == RoundActions(rounds[i]);
          actions, finish := actions + turn, Returned(line);
          return;
        case Parent(waits, status) =>
          var w := 0;
          while w < waits
            invariant 0 <= w <= waits
            invariant turn == [SaveSignal, ReadInput, Forked] + Repeat(WaitInterrupted, w)
          {
            turn := turn + [WaitInterrupted];
            w := w + 1;
          }
          turn := turn + [Reaped(status)];
          assert turn == RoundActions(rounds[i]);
          actions := actions + turn;
          var exitCode := status / 256;
          if exitCode != UndoCode {
            finish := Exited(exitCode);
            return;
          }
      }
      AppendAssoc(before, turn, Run(rounds[i + 1..]).1);
      i := i + 1;
    }
    assert rounds[i..] == [] && actions + [] == actions;
    finish := Prompting;
  }

  /** The shape of one turn: save, read, then nothing but restore, fork, interrupted waits and a final reap. */
  lemma RoundActionsShape(r: Round)
    ensures |RoundActions(r)| >= 3
    ensures RoundActions(r)[0] == SaveSignal && RoundActions(r)[1] == ReadInput
    ensures forall k :: 2 <= k < |RoundActions(r)| ==> RoundActions(r)[k] != SaveSignal && RoundActions(r)[k] != ReadInput
    ensures forall k :: 0 <= k < |RoundActions(r)| - 1 ==> !RoundActions(r)[k].Reaped?
    ensures RoundActions(r)[|RoundActions(r)| - 1].Reaped? <==> LineOf(r.input) != UndoLine && r.role.Parent?
    ensures RoundActions(r)[|RoundActions(r)| - 1].Reaped? ==> RoundActions(r)[|RoundActions(r)| - 1].status == r.role.status
    ensures RestoreSignal in RoundActions(r) <==> LineOf(r.input) == UndoLine
    ensures LineOf(r.input) == UndoLine ==> RoundActions(r) == [SaveSignal, ReadInput, RestoreSignal]
  {
    if LineOf(r.input) != UndoLine && r.role.Parent? {
      var waits := Repeat(WaitInterrupted, r.role.interruptedWaits);
      assert RoundActions(r) == [SaveSignal, ReadInput, Forked] + waits + [Reaped(r.role.status)];
      forall k | 0 <= k < |waits| ensures waits[k] == WaitInterrupted {
        RepeatAt(WaitInterrupted, r.role.interruptedWaits, k);
      }
    }
  }

  /** A run that does anything starts with a "save" signal, and every read is immediately preceded by one. */
  lemma {:induction false} SaveBeforeEveryPrompt(rounds: seq<Round>)
    ensures Run(rounds).1 == [] <==> rounds == []
    ensures Run(rounds).1 != [] ==> Run(rounds).1[0] == SaveSignal
    ensures forall k :: 0 <= k < |Run(rounds).1| && Run(rounds).1[k] == ReadInput ==>
              0 < k && Run(rounds).1[k - 1] == SaveSignal
  {
    if rounds != [] {
      var head := RoundActions(rounds[0]);
      RoundActionsShape(rounds[0]);
      if RoundFinish(rounds[0]).None? {
        var rest := Run(rounds[1..]).1;
        SaveBeforeEveryPrompt(rounds[1..]);
        assert Run(rounds).1 == head + rest;
        forall k | 0 <= k < |Run(rounds).1| && Run(rounds).1[k] == ReadInput
          ensures 0 < k && Run(rounds).1[k - 1] == SaveSignal
        {
          if k > |head| {
            assert Run(rounds).1[k - 1] == rest[k - 1 - |head|];
          }
        }
      }
    }
  }

  /**
   * A reap of status 42 is followed by the next turn's "save" signal, or,
   * when the script runs out there, the run is about to prompt again.
   */
  lemma {:induction false} ReapOfUndoPromptsAgain(rounds: seq<Round>)
    ensures forall k :: 0 <= k < |Run(rounds).1| - 1 && Run(rounds).1[k].Reaped? && ParentDecision(Run(rounds).1[k].status) == None ==>
              Run(rounds).1[k + 1] == SaveSignal
    ensures (Run(rounds).1 != [] && Run(rounds).1[|Run(rounds).1| - 1].Reaped?
             && ParentDecision(Run(rounds).1[|Run(rounds).1| - 1].status) == None) ==> Run(rounds).0 == Prompting
  {
    if rounds != [] {
      var head := RoundActions(rounds[0]);
      RoundActionsShape(rounds[0]);
      if RoundFinish(rounds[0]).None? {
        var rest := Run(rounds[1..]);
        ReapOfUndoPromptsAgain(rounds[1..]);
        SaveBeforeEveryPrompt(rounds[1..]);
        var actions := Run(rounds).1;
        assert actions == head + rest.1 && Run(rounds).0 == rest.0;
        forall k | 0 <= k < |actions| - 1 && actions[k].Reaped? && ParentDecision(actions[k].status) == None
          ensures actions[k + 1] == SaveSignal
        {
          if k < |head| {
            assert actions[k + 1] == rest.1[0];
          } else {
            assert actions[k] == rest.1[k - |head|] && actions[k + 1] == rest.1[k + 1 - |head|];
          }
        }
        if rest.1 == [] {
          assert rounds[1..] == [];
        } else {
          assert actions[|actions| - 1] == rest.1[|rest.1| - 1];
        }
      } else {
        assert Run(rounds).1 == head;
      }
    }
  }

  /**
   * The run ends with status 42 exactly when it signalled "restore", and the
   * restore comes right after a read and is the last thing the process does.
   */
  lemma {:induction false} UndoExitsThroughRestore(rounds: seq<Round>)
    ensures Run(rounds).0 == Exited(UndoCode) <==> RestoreSignal in Run(rounds).1
    ensures RestoreSignal in Run(rounds).1 ==>
              var actions := Run(rounds).1;
              |actions| >= 3 && actions[|actions| - 1] == RestoreSignal && actions[|actions| - 2] == ReadInput
              && actions[|actions| - 3] == SaveSignal
  {
    if rounds != [] {
      RoundActionsShape(rounds[0]);
      if RoundFinish(rounds[0]).None? {
        UndoExitsThroughRestore(rounds[1..]);
        assert Run(rounds).1 == RoundActions(rounds[0]) + Run(rounds[1..]).1;
      }
    }
  }

  /**
   * A run that returns a line returned it on the child's side of a fork: the
   * line is never `undo`, the last action is the fork, and some round read
   * that line and continued as the child.
   */
  lemma {:induction false} ReturnedOnlyByChild(rounds: seq<Round>)
    ensures Run(rounds).0.Returned? ==>
              Run(rounds).0.line != UndoLine && Run(rounds).1[|Run(rounds).1| - 1] == Forked
              && exists j :: 0 <= j < |rounds| && rounds[j].role == Child && LineOf(rounds[j].input) == Run(rounds).0.line
  {
    if rounds != [] {
      if RoundFinish(rounds[0]).None? {
        ReturnedOnlyByChild(rounds[1..]);
        RoundActionsShape(rounds[0]);
        if Run(rounds).0.Returned? {
          var j :| 0 <= j < |rounds[1..]| && rounds[1..][j].role == Child && LineOf(rounds[1..][j].input) == Run(rounds).0.line;
          assert rounds[j + 1] == rounds[1..][j];
        }
      } else if Run(rounds).0.Returned? {
        assert rounds[0].role == Child;
      }
    }
  }

  /** A run that exits with any status but 42 passes on the status of the child it reaped last. */
  lemma {:induction false} ExitWithChildStatus(rounds: seq<Round>)
    ensures Run(rounds).0.Exited? && Run(rounds).0.code != UndoCode ==>
              Run(rounds).1 != [] && Run(rounds).1[|Run(rounds).1| - 1].Reaped?
              && Run(rounds).1[|Run(rounds).1| - 1].status / 256 == Run(rounds).0.code
  {
    if rounds != [] {
      RoundActionsShape(rounds[0]);
      if RoundFinish(rounds[0]).None? {
        ExitWithChildStatus(rounds[1..]);
        assert Run(rounds).1 == RoundActions(rounds[0]) + Run(rounds[1..]).1;
      }
    }
  }

  /** Two scripts that differ only in how often `waitpid` was interrupted. */
  predicate SameUpToWaits(a: seq<Round>, b: seq<Round>)
  {
    |a| == |b|
    && forall j :: 0 <= j < |a| ==>
         a[j].input == b[j].input && a[j].role.Child? == b[j].role.Child?
         && (a[j].role.Parent? ==> a[j].role.status == b[j].role.status)
  }

  /** Interrupts during `waitpid` are retried and never change how the run ends. */
  lemma {:induction false} WaitInterruptsIgnored(a: seq<Round>, b: seq<Round>)
    requires SameUpToWaits(a, b)
    ensures Run(a).0 == Run(b).0
  {
    if a != [] {
      assert RoundFinish(a[0]) == RoundFinish(b[0]);
      assert SameUpToWaits(a[1..], b[1..]) by {
        forall j | 0 <= j < |a[1..]| ensures a[1..][j] == a[j + 1] && b[1..][j] == b[j + 1] {}
      }
      WaitInterruptsIgnored(a[1..], b[1..]);
    }
  }

  /** An exit code as `os._exit` takes it. */
  type ExitCode = c: int | 0 <= c < 256

  /** The status `os.waitpid` reports for a child that ended with `os._exit(code)`. */
  function WaitStatus(code: ExitCode): (status: nat)
    ensures status / 256 == code
  {
    code * 256
  }

  /**
   * The chain of processes: while it lives, the lines committed so far (one
   * waiting parent per line, the newest process prompting); once the root has
   * exited, the code it exited with.
   */
  datatype Chain = Live(committed: seq<string>) | Ended(code: int)

  /** What happens at the newest process's prompt: a read, or the interpreter exiting with a code. */
  datatype Event = Prompt(input: Input) | Quit(code: ExitCode)

  /** The undo request as an event. */
  const UndoEvent: Event := Prompt(Line(UndoLine))

  /**
   * The newest process has ended with `code`; each waiting parent in turn
   * reaps it and either prompts again (status 42) or exits with the same code.
   */
  function Unwind(committed: seq<string>, code: ExitCode): (chain: Chain)
    ensures code == UndoCode ==>
              chain == if committed == [] then Ended(UndoCode) else Live(committed[..|committed| - 1])
    ensures code != UndoCode ==> chain == Ended(code)
    decreases |committed|
  {
    if committed == [] then Ended(code)
    else
      match ParentDecision(WaitStatus(code))
      case None => Live(committed[..|committed| - 1])
      case Some(next) => Unwind(committed[..|committed| - 1], next)
  }

  /** One event at the newest process's prompt. */
  function ChainStep(chain: Chain, event: Event): Chain
  {
    match chain
    case Ended(_) => chain
    case Live(committed) =>
      match event
      case Prompt(input) =>
        if LineOf(input) == UndoLine then Unwind(committed, UndoCode) else Live(committed + [LineOf(input)])
      case Quit(code) => Unwind(committed, code)
  }

  /** A sequence of events, in order. */
  function Replay(chain: Chain, events: seq<Event>): Chain
    decreases |events|
  {
    if events == [] then chain else Replay(ChainStep(chain, events[0]), events[1..])
  }

  /** A prompt in the chain agrees with one turn of `raw_input_original` on each side of the fork. */
  lemma ChainStepAgreesWithRound(committed: seq<string>, input: Input, waits: nat, code: ExitCode)
    requires LineOf(input) != UndoLine
    ensures RoundFinish(Round(input, Child)) == Some(Returned(LineOf(input)))
    ensures ChainStep(Live(committed), Prompt(input)) == Live(committed + [RoundFinish(Round(input, Child)).value.line])
    ensures RoundFinish(Round(input, Parent(waits, WaitStatus(code)))) == if code == UndoCode then None else Some(Exited(code))
  {
  }

  /** An undo, typed or interrupted, drops exactly the newest committed line; at the root it ends the session with 42. */
  lemma UndoDropsOneLine(committed: seq<string>, input: Input)
    requires LineOf(input) == UndoLine
    ensures ChainStep(Live(committed), Prompt(input)) ==
              if committed == [] then Ended(UndoCode) else Live(committed[..|committed| - 1])
  {
  }

  /** Quitting with any code but 42 ends every process of the chain with that code. */
  lemma QuitEndsChain(committed: seq<string>, code: ExitCode)
    requires code != UndoCode
    ensures ChainStep(Live(committed), Quit(code)) == Ended(code)
  {
  }

  /** Replaying two sequences of events one after the other. */
  lemma {:induction false} ReplayAppend(chain: Chain, a: seq<Event>, b: seq<Event>)
    ensures Replay(chain, a + b) == Replay(Replay(chain, a), b)
    decreases |a|
  {
    if a != [] {
      assert (a + b)[0] == a[0] && (a + b)[1..] == a[1..] + b;
      ReplayAppend(ChainStep(chain, a[0]), a[1..], b);
    } else {
      assert a + b == b;
    }
  }

  /** The prompts that read `lines`. */
  function Prompts(lines: seq<string>): (events: seq<Event>)
    ensures |events| == |lines|
    ensures forall i :: 0 <= i < |lines| ==> events[i] == Prompt(Line(lines[i]))
  {
    if lines == [] then [] else Prompts(lines[..|lines| - 1]) + [Prompt(Line(lines[|lines| - 1]))]
  }

  /** Reading lines that are not `undo` commits each of them, in order. */
  lemma {:induction false} PromptsCommit(committed: seq<string>, lines: seq<string>)
    requires forall i :: 0 <= i < |lines| ==> lines[i] != UndoLine
    ensures Replay(Live(committed), Prompts(lines)) == Live(committed + lines)
  {
    if lines != [] {
      var init := lines[..|lines| - 1];
      PromptsCommit(committed, init);
      ReplayAppend(Live(committed), Prompts(init), [Prompt(Line(lines[|lines| - 1]))]);
      assert committed + init + [lines[|lines| - 1]] == committed + lines;
    } else {
      assert committed + lines == committed;
    }
  }

  /** `k` undos drop the newest `k` committed lines. */
  lemma {:induction false} UndosDropLines(committed: seq<string>, k: nat)
    requires k <= |committed|
    ensures Replay(Live(committed), Repeat(UndoEvent, k)) == Live(committed[..|committed| - k])
  {
    if k > 0 {
      UndosDropLines(committed, k - 1);
      ReplayAppend(Live(committed), Repeat(UndoEvent, k - 1), [UndoEvent]);
      var shorter := committed[..|committed| - (k - 1)];
      assert shorter[..|shorter| - 1] == committed[..|committed| - k];
    } else {
      assert committed[..|committed|] == committed;
    }
  }

  /** Undoing as many times as lines were entered returns to the checkpoint the first prompt saved. */
  lemma UndoReturnsToCheckpoint(committed: seq<string>, lines: seq<string>)
    requires forall i :: 0 <= i < |lines| ==> lines[i] != UndoLine
    ensures Replay(Live(committed), Prompts(lines) + Repeat(UndoEvent, |lines|)) == Live(committed)
  {
    ReplayAppend(Live(committed), Prompts(lines), Repeat(UndoEvent, |lines|));
    PromptsCommit(committed, lines);
    UndosDropLines(committed + lines, |lines|);
    assert (committed + lines)[..|committed + lines| - |lines|] == committed;
  }

  /** One undo more than there are committed lines ends the whole session with 42. */
  lemma UndoPastRootEnds(committed: seq<string>)
    ensures Replay(Live(committed), Repeat(UndoEvent, |committed| + 1)) == Ended(UndoCode)
  {
    UndosDropLines(committed, |committed|);
    ReplayAppend(Live(committed), Repeat(UndoEvent, |committed|), [UndoEvent]);
  }

  /** `os.path.basename`: what follows the last `/` of the path. */
  function Basename(path: string): (base: string)
    ensures '/' !in base
    ensures |base| <= |path| && base == path[|path| - |base|..]
    ensures |base| < |path| ==> path[|path| - |base| - 1] == '/'
  {
    if path == [] || path[|path| - 1] == '/' then []
    else
      var init := path[..|path| - 1];
      var base := Basename(init) + [path[|path| - 1]];
      assert path == init + [path[|path| - 1]];
      base
  }

  /** A suffix with no `/` that follows a `/` (or the whole path) is the basename. */
  lemma {:induction false} BasenameIsLastComponent(path: string, i: nat)
    requires i <= |path| && '/' !in path[i..] && (i == 0 || path[i - 1] == '/')
    ensures Basename(path) == path[i..]
    decreases |path|
  {
    if i < |path| {
      var init := path[..|path| - 1];
      assert path[|path| - 1] == path[i..][|path| - 1 - i];
      assert init[i..] == path[i..][..|path| - 1 - i];
      BasenameIsLastComponent(init, i);
      assert path[i..] == init[i..] + [path[|path| - 1]];
    }
  }

  /** `rl_is_ipython`: the interpreter about to run is IPython. */
  predicate RlIsIpython(path: string): (b: bool)
    ensures b ==> |path| >= 7 && path[|path| - 7..] == "ipython"
    ensures b && |path| > 7 ==> path[|path| - 8] == '/'
  {
    Basename(path) == "ipython"
  }

  /** `ipython` itself, and any path ending in `/ipython`, names IPython. */
  lemma RlIsIpythonIf(path: string)
    requires path == "ipython" || (|path| >= 8 && path[|path| - 8..] == "/ipython")
    ensures RlIsIpython(path)
  {
    if path == "ipython" {
      BasenameIsLastComponent(path, 0);
    } else {
      var i := |path| - 7;
      assert path[i..] == path[|path| - 8..][1..] == "ipython";
      BasenameIsLastComponent(path, i);
    }
  }

  /** Only `ipython` itself, or a path ending in `/ipython`, names IPython. */
  lemma RlIsIpythonOnlyIf(path: string)
    requires RlIsIpython(path)
    ensures path == "ipython" || (|path| >= 8 && path[|path| - 8..] == "/ipython")
  {
    var base := Basename(path);
    if |path| > |base| {
      assert path[|path| - 8..] == [path[|path| - 8]] + base;
    }
  }

  /** The path names IPython exactly when it is `ipython` or ends in `/ipython`. */
  lemma RlIsIpythonExactly(path: string)
    ensures RlIsIpython(path) <==> path == "ipython" || (|path| >= 8 && path[|path| - 8..] == "/ipython")
  {
    if RlIsIpython(path) {
      RlIsIpythonOnlyIf(path);
    } else if path == "ipython" || (|path| >= 8 && path[|path| - 8..] == "/ipython") {
      RlIsIpythonIf(path);
    }
  }

  /** A full path to `ipython` names IPython. */
  lemma RlIsIpythonFullPath()
    ensures RlIsIpython("/usr/bin/ipython")
  {
    var path := "/usr/bin/ipython";
    assert path[|path| - 8..] == "/ipython";
    RlIsIpythonExactly(path);
  }

  /** `ipython3` is not IPython: the basename must match exactly. */
  lemma RlIsIpythonNotPrefix()
    ensures !RlIsIpython("ipython3")
  {
    var path := "ipython3";
    assert path[|path| - 8..] == path != "/ipython";
    RlIsIpythonExactly(path);
  }

  /** A path ending in `/` has an empty basename, so it is not IPython. */
  lemma RlIsIpythonTrailingSlash()
    ensures !RlIsIpython("/usr/bin/ipython/")
  {
    var path := "/usr/bin/ipython/";
    assert path[|path| - 1] == '/';
  }
}
