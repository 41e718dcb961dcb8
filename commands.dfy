/** The per-line command dispatch of the REPL: classification of a line as a
    meta command or a statement, the meta-command handler, statement
    preparation, statement execution, and the decision that the body of the
    main loop takes for one line. Everything here is a pure function of the
    line; process exit and printing are represented as values. */
module Commands {

  /** What the meta-command handler can hand back to its caller. */
  datatype MetaCommandResult = MetaCommandSuccess | MetaCommandUnknown

  /** What the meta-command handler does: terminate the process with a status,
      or return a result to the loop. */
  datatype MetaResponse = MetaExit(status: int) | MetaReturn(result: MetaCommandResult)

  /** The status half of what statement preparation returns. */
  datatype PrepareResult = PrepareSuccess | PrepareUnrecognizedCommand

  datatype StatementType = Insert | Select | Unknown

  /** A prepared statement; it carries only its type (no row is parsed). */
  datatype Statement = Statement(kind: StatementType)

  /** The decision the loop body takes for one line. */
  datatype Outcome =
    | Halt(status: int)             // the process exits with this status
    | MetaHandled                   // a meta command succeeded: continue silently
    | MetaUnknown                   // an unknown meta command
    | Unrecognized(line: string)    // a statement that did not prepare
    | Executed(stmt: Statement)     // a prepared statement that was executed

  /** The visible effect of one loop iteration (or of a whole session): the
      text printed, and whether the process is still running or has exited. */
  datatype Effect = Running(output: string) | Exited(output: string, status: int)

  /** The effect of printing `o` before `s`. */
  function Prepend(o: string, s: Effect): (r: Effect)
    ensures r.Running? == s.Running? && r.output == o + s.output
    ensures r.Exited? ==> r.status == s.status
  {
    match s
    case Running(out) => Running(o + out)
    case Exited(out, status) => Exited(o + out, status)
  }

  lemma PrependAssociative(a: string, b: string, s: Effect)
    ensures Prepend(a, Prepend(b, s)) == Prepend(a + b, s)
  {
    assert a + (b + s.output) == (a + b) + s.output;
  }

  /** The administrative marker: the first character of the line is '.'.
      Such a line is never one of the statement words. */
  predicate IsMetaLine(line: string): (b: bool)
    ensures b <==> |line| >= 1 && line[..1] == "."
    ensures b ==> line != "insert" && line != "select"
  {
    |line| > 0 && line[0] == '.'
  }

  /** The meta-command handler: exactly ".exit" terminates with status 0,
      every other line is reported unknown. */
  function DoMetaCommand(line: string): (r: MetaResponse)
    ensures r == MetaExit(0) <==> line == ".exit"
    ensures line != ".exit" ==> r == MetaReturn(MetaCommandUnknown)
    ensures r != MetaReturn(MetaCommandSuccess)
  {
    if line == ".exit" then MetaExit(0) else MetaReturn(MetaCommandUnknown)
  }

  /** Statement preparation: an exact, case-sensitive comparison of the whole
      line with the two known words. */
  function PrepareStatement(line: string): (r: (PrepareResult, Statement))
    ensures r == (PrepareSuccess, Statement(Insert)) <==> line == "insert"
    ensures r == (PrepareSuccess, Statement(Select)) <==> line == "select"
    ensures line != "insert" && line != "select" ==>
              r == (PrepareUnrecognizedCommand, Statement(Unknown))
    ensures r.0 == PrepareSuccess <==> r.1.kind != Unknown
  {
    if line == "insert" then (PrepareSuccess, Statement(Insert))
    else if line == "select" then (PrepareSuccess, Statement(Select))
    else (PrepareUnrecognizedCommand, Statement(Unknown))
  }

  /** The text `println!(msg)` writes. */
  function PrintLine(msg: string): (out: string)
    ensures |out| == |msg| + 1 && out[..|msg|] == msg && out[|msg|] == '\n'
  {
    msg + "\n"
  }

  /** The text statement execution prints. Each message already ends in a
      newline and is printed with `println!`, so a blank line follows. */
  function ExecuteCommand(stmt: Statement): (out: string)
    ensures |out| >= 2 && out[|out| - 2..] == "\n\n"
  {
    match stmt.kind
    case Insert => PrintLine("Handle insert here.\n")
    case Select => PrintLine("Handle select here.\n")
    case Unknown => PrintLine("I don't know how to handle this.\n")
  }

  /** Each statement type prints its own message. */
  lemma ExecuteMessagesDistinct(a: Statement, b: Statement)
    ensures ExecuteCommand(a) == ExecuteCommand(b) <==> a == b
  {
    if a != b {
      var ea, eb := ExecuteCommand(a), ExecuteCommand(b);
      assert ea[7] != eb[7] || ea[0] != eb[0];
    }
  }

  /** The body of the main loop for one (already read) line: meta lines go to
      the meta-command handler only; all other lines, the empty line included,
      are prepared and, when preparation succeeds, executed. */
  function Step(line: string): (o: Outcome)
    ensures IsMetaLine(line) ==> o == Halt(0) || o == MetaUnknown
    ensures !IsMetaLine(line) ==>
              o == Unrecognized(line) || o == Executed(Statement(Insert))
              || o == Executed(Statement(Select))
    ensures o == Halt(0) <==> line == ".exit"
    ensures o == MetaUnknown <==> IsMetaLine(line) && line != ".exit"
    ensures o == Executed(Statement(Insert)) <==> line == "insert"
    ensures o == Executed(Statement(Select)) <==> line == "select"
    ensures o == Unrecognized(line) <==>
              !IsMetaLine(line) && line != "insert" && line != "select"
    ensures o != MetaHandled
    ensures o.Executed? ==> o.stmt.kind != Unknown
  {
    if IsMetaLine(line) then
      match DoMetaCommand(line)
      case MetaExit(status) => Halt(status)
      case MetaReturn(MetaCommandSuccess) => MetaHandled
      case MetaReturn(MetaCommandUnknown) => MetaUnknown
    else
      var (status, stmt) := PrepareStatement(line);
      match status
      case PrepareSuccess => Executed(stmt)
      case PrepareUnrecognizedCommand => Unrecognized(line)
  }

  /** The text printed for an outcome, and whether the loop continues. */
  function Render(o: Outcome): (s: Effect)
    ensures s.Exited? <==> o.Halt?
    ensures o.Halt? ==> s == Exited("", o.status)
  {
    match o
    case Halt(status) => Exited("", status)
    case MetaHandled => Running("")
    case MetaUnknown => Running(PrintLine("Unrecognized command"))
    case Unrecognized(line) =>
      Running(PrintLine("Unrecognized command at the start of " + line))
    case Executed(stmt) =>
      Running(ExecuteCommand(stmt) + PrintLine("Completed Execution"))
  }

  /** What a meta line prints: nothing for ".exit", which ends the process
      with status 0, and a fixed diagnostic for every other meta line. */
  lemma MetaLineOutput(line: string)
    requires IsMetaLine(line)
    ensures line == ".exit" ==> Render(Step(line)) == Exited("", 0)
    ensures line != ".exit" ==> Render(Step(line)) == Running("Unrecognized command\n")
  {
    if line != ".exit" {
      assert Step(line) == MetaUnknown;
    }
  }

  /** What a prepared insert prints: its handler message, a blank line and
      the completion notice. */
  lemma InsertLineOutput()
    ensures Render(Step("insert")) == Running("Handle insert here.\n\n" + "Completed Execution\n")
  {
    assert "insert"[0] != '.';
    assert Step("insert") == Executed(Statement(Insert));
    assert ExecuteCommand(Statement(Insert)) == "Handle insert here.\n\n";
    assert PrintLine("Completed Execution") == "Completed Execution\n";
  }



  /** What a prepared select prints. */
  lemma SelectLineOutput()
    ensures Render(Step("select")) == Running("Handle select here.\n\n" + "Completed Execution\n")
  {
    assert "select"[0] != '.';
    assert Step("select") == Executed(Statement(Select));
    assert ExecuteCommand(Statement(Select)) == "Handle select here.\n\n";
    assert PrintLine("Completed Execution") == "Completed Execution\n";
  }



  /** Any other line, the empty line included, is echoed back in the
      diagnostic and nothing is executed. */
  lemma UnrecognizedLineOutput(line: string)
    requires !IsMetaLine(line) && line != "insert" && line != "select"
    ensures Render(Step(line)) == Running("Unrecognized command at the start of " + line + "\n")
  {
    assert Step(line) == Unrecognized(line);
  }

  /** The execution arm for `Unknown` is never reached from the loop: nothing
      the loop executes has type Unknown, so the loop never prints its
      message. */
  lemma UnknownNeverExecuted(line: string)
    ensures Step(line) != Executed(Statement(Unknown))
    ensures Render(Step(line)).output
              != ExecuteCommand(Statement(Unknown)) + PrintLine("Completed Execution")
  {
    var out := Render(Step(line)).output;
    var unknown := ExecuteCommand(Statement(Unknown)) + PrintLine("Completed Execution");
    assert unknown[0] == 'I';
    assert out == [] || out[0] != 'I';
  }
}
