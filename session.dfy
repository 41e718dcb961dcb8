/** The read-eval loop of the REPL: reading one line from standard input into
    the input buffer, and running the per-line dispatch of module Commands
    on it until the process exits. Standard input is a finite string; the
    text the process prints and its exit status are the observable result. */
module Session {
  import opened Commands

  /** The text `print_prompt` writes before every read. It holds no newline,
      so the prompt and what follows it share one line. */
  function PrintPrompt(): (out: string)
    ensures |out| > 0 && '\n' !in out
  {
    "db > "
  }

  const PROMPT: string := PrintPrompt()

  /** What one `read_line` call hands back: the bytes read (empty at end of
      input) or an error. */
  datatype ReadResult = ReadOk(bytes: string) | ReadErr

  /** What reading leaves for the loop: the line, or a fatal failure. */
  datatype ReadOutcome = Got(line: string) | ReadFailed

  /** The part of `s` that one `read_line` call consumes: everything up to and
      including the first newline, or all of `s` when it holds none. */
  function SplitLine(s: string): (r: (string, string))
    ensures r.0 + r.1 == s
    ensures s != [] ==> r.0 != []
    ensures forall i :: 0 <= i < |r.0| - 1 ==> r.0[i] != '\n'
    ensures r.1 != [] ==> r.0[|r.0| - 1] == '\n'
    decreases |s|
  {
    if s == [] then ([], [])
    else if s[0] == '\n' then ([s[0]], s[1..])
    else
      var (line, rest) := SplitLine(s[1..]);
      ([s[0]] + line, rest)
  }

  /** A line followed by a newline is read as one chunk, whatever follows it. */
  lemma {:induction false} SplitLineAt(line: string, rest: string)
    requires '\n' !in line
    ensures SplitLine(line + "\n" + rest) == (line + "\n", rest)
    decreases |line|
  {
    var s := line + "\n" + rest;
    if line != [] {
      assert s[1..] == line[1..] + "\n" + rest;
      SplitLineAt(line[1..], rest);
      assert [s[0]] + (line[1..] + "\n") == line + "\n";
    } else {
      assert s[1..] == rest;
    }
  }

  /** A chunk without a newline is read whole. */
  lemma {:induction false} SplitLineWhole(s: string)
    requires '\n' !in s
    ensures SplitLine(s) == (s, [])
    decreases |s|
  {
    if s != [] {
      assert '\n' !in s[1..];
      SplitLineWhole(s[1..]);
      assert [s[0]] + s[1..] == s;
    }
  }

  /** The effect of `read_input`: a read of n > 0 bytes leaves its first
      n - 1; a read of zero bytes or a read error is fatal. */
  function ReadSpec(r: ReadResult): (o: ReadOutcome)
    ensures o.Got? <==> r.ReadOk? && |r.bytes| > 0
    ensures o.Got? ==> |o.line| == |r.bytes| - 1
                       && o.line + [r.bytes[|r.bytes| - 1]] == r.bytes
  {
    match r
    case ReadErr => ReadFailed
    case ReadOk(bytes) => if |bytes| == 0 then ReadFailed else Got(bytes[..|bytes| - 1])
  }

  /** The input buffer the loop reads every line into. */
  class InputBuffer {
    var buffer: string
    var inputLength: nat

    constructor ()
      ensures buffer == "" && inputLength == 0
    {
      buffer := "";
      inputLength := 0;
    }

    /** Clears the buffer, appends what `read_line` returned and drops its
        last byte. `ok` is false where the source prints a diagnostic and
        exits with status 1. */
    method ReadInput(r: ReadResult) returns (ok: bool)
      modifies this
      ensures ok <==> ReadSpec(r).Got?
      ensures ok ==> buffer == ReadSpec(r).line && inputLength == |buffer|
      ensures !ok ==> buffer == "" && inputLength == old(inputLength)
    {
      buffer := "";
      match r {
        case ReadErr =>
          ok := false;
        case ReadOk(bytes) =>
          buffer := buffer + bytes;
          var bytesRead := |bytes|;
          if bytesRead <= 0 {
            ok := false;
            return;
          }
          inputLength := bytesRead - 1;
          if inputLength < |buffer| {
            buffer := buffer[..inputLength];
          }
          ok := true;
      }
    }
  }

  /** One pass of the loop when `read_line` returns `chunk`: the prompt, then
      either the fatal read diagnostic or the dispatch of the line. */
  function Iteration(chunk: string): (s: Effect)
    ensures s.Running? ==> chunk != []
    ensures s.Exited? ==> (s.status == 1 <==> chunk == [])
    ensures s.Exited? ==> (s.status == 0 <==> chunk != [] && chunk[..|chunk| - 1] == ".exit")
    ensures s.Exited? ==> s.status == 0 || s.status == 1
    ensures chunk == [] ==> s == Exited(PROMPT + "Error reading input\n", 1)
    ensures chunk != [] && chunk[..|chunk| - 1] == ".exit" ==> s == Exited(PROMPT, 0)
  {
    var rest := match ReadSpec(ReadOk(chunk))
      case ReadFailed => Exited(PrintLine("Error reading input"), 1)
      case Got(line) => Render(Step(line));
    Prepend(PROMPT, rest)
  }

  /** The whole session on standard input `stdin`: every chunk is processed in
      order until one of them ends the process. At the latest the read at end
      of input does, so every session ends. */
  function RunSpec(stdin: string): (s: Effect)
    ensures s.Exited? && (s.status == 0 || s.status == 1)
    decreases |stdin|
  {
    var (chunk, rest) := SplitLine(stdin);
    var first := Iteration(chunk);
    if first.Exited? then first else Prepend(first.output, RunSpec(rest))
  }

  /** The lines the loop would see, in order, if it never stopped early. No
      line holds a newline. */
  function Lines(stdin: string): (ls: seq<string>)
    ensures stdin == [] <==> ls == []
    ensures forall l :: l in ls ==> '\n' !in l
    decreases |stdin|
  {
    if stdin == [] then []
    else
      var (chunk, rest) := SplitLine(stdin);
      [chunk[..|chunk| - 1]] + Lines(rest)
  }

  /** The session after the text `before` has been printed, when the next
      pass prints `pass` and, if it does not exit, is followed by `tail`. */
  lemma PrependPass(before: string, pass: Effect, tail: Effect)
    ensures Prepend(before, if pass.Exited? then pass else Prepend(pass.output, tail))
            == if pass.Exited? then Exited(before + pass.output, pass.status)
               else Prepend(before + pass.output, tail)
  {
    if pass.Running? {
      PrependAssociative(before, pass.output, tail);
    }
  }

  /** The main loop, reading from `stdin`, with the input buffer as the only
      state carried from one pass to the next. */
  method Run(stdin: string) returns (s: Effect)
    ensures s == RunSpec(stdin)
  {
    var input := new InputBuffer();
    var out := "";
    var rest := stdin;
    s := Running("");
    while s.Running?
      invariant s.Running? ==> RunSpec(stdin) == Prepend(out, RunSpec(rest))
      invariant s.Exited? ==> s == RunSpec(stdin)
      decreases |rest| + (if s.Running? then 1 else 0)
    {
      var (chunk, next) := SplitLine(rest);
      // the text this pass prints, starting with the prompt
      var pass: Effect;
      var ok := input.ReadInput(ReadOk(chunk));
      if !ok {
        pass := Exited(PROMPT + PrintLine("Error reading input"), 1);
      } else {
        pass := Prepend(PROMPT, Render(Step(input.buffer)));
      }
      assert pass == Iteration(chunk);
      PrependPass(out, pass, RunSpec(next));
      if pass.Exited? {
        s := Exited(out + pass.output, pass.status);
      } else {
        out := out + pass.output;
        rest := next;
      }
    }
  }

  /** A complete line decides the pass it is read in on its own: the rest of
      the session is the session on the remaining input, whatever the line was. */
  lemma RunAfterLine(line: string, rest: string)
    requires '\n' !in line
    ensures Render(Step(line)).Exited? ==>
              RunSpec(line + "\n" + rest) == Prepend(PROMPT, Render(Step(line)))
    ensures Render(Step(line)).Running? ==>
              RunSpec(line + "\n" + rest)
              == Prepend(PROMPT + Render(Step(line)).output, RunSpec(rest))
  {
    SplitLineAt(line, rest);
    assert (line + "\n")[..|line + "\n"| - 1] == line;
  }

  /** ".exit" on a line of its own ends the session with status 0, after the
      prompt and nothing else; later input is never read. */
  lemma ExitLineEndsSession(rest: string)
    ensures RunSpec(".exit\n" + rest) == Exited(PROMPT, 0)
  {
    assert ".exit\n" + rest == ".exit" + "\n" + rest;
    RunAfterLine(".exit", rest);
    MetaLineOutput(".exit");
    assert PROMPT + "" == PROMPT;
  }

  /** At end of input the read of zero bytes prints a diagnostic and ends the
      session with status 1. */
  lemma EndOfInputExits()
    ensures RunSpec("") == Exited(PROMPT + "Error reading input\n", 1)
  {
  }

  /** A session ends with status 0 exactly when one of the lines it reads is
      ".exit"; otherwise it runs to end of input and ends with status 1. */
  lemma {:induction false} ExitStatus(stdin: string)
    ensures RunSpec(stdin).status == 0 <==> ".exit" in Lines(stdin)
    decreases |stdin|
  {
    if stdin != [] {
      var (chunk, rest) := SplitLine(stdin);
      assert Lines(stdin) == [chunk[..|chunk| - 1]] + Lines(rest);
      if Iteration(chunk).Running? {
        ExitStatus(rest);
      }
    }
  }

  /** The last line of input, when it has no newline, loses its last
      character: a final ".exit" without a newline is read as ".exi". */
  lemma FinalLineLosesLastChar()
    ensures RunSpec(".exit")
            == Exited(PROMPT + "Unrecognized command\n" + PROMPT + "Error reading input\n", 1)
  {
    SplitLineWhole(".exit");
    assert ".exit"[..4] == ".exi";
    MetaLineOutput(".exi");
    SplitLineWhole("");
  }

  /** Only the newline is dropped: a line ended by "\r\n" keeps its '\r', so
      ".exit\r\n" is an unknown meta command and the session goes on. */
  lemma CarriageReturnKept(rest: string)
    ensures RunSpec(".exit\r\n" + rest)
            == Prepend(PROMPT + "Unrecognized command\n", RunSpec(rest))
  {
    assert ".exit\r\n" + rest == ".exit\r" + "\n" + rest;
    RunAfterLine(".exit\r", rest);
    MetaLineOutput(".exit\r");
  }

  /** An "insert" line prints the insert handler's message and the
      completion notice, and the session goes on with the next line. */
  lemma InsertLineThen(rest: string)
    ensures RunSpec("insert\n" + rest)
            == Prepend(PROMPT + ("Handle insert here.\n\n" + "Completed Execution\n"), RunSpec(rest))
  {
    assert "insert\n" + rest == "insert" + "\n" + rest;
    InsertLineOutput();
    RunAfterLine("insert", rest);
  }

  /** A "select" line prints the select handler's message and the completion
      notice, and the session goes on with the next line. */
  lemma SelectLineThen(rest: string)
    ensures RunSpec("select\n" + rest)
            == Prepend(PROMPT + ("Handle select here.\n\n" + "Completed Execution\n"), RunSpec(rest))
  {
    assert "select\n" + rest == "select" + "\n" + rest;
    SelectLineOutput();
    RunAfterLine("select", rest);
  }

  /** A whole session: an insert, a select and ".exit", each on a line of
      its own. */
  lemma InsertSelectExit()
    ensures var insertOut := ("Handle insert here.\n\n" + "Completed Execution\n");
            var selectOut := ("Handle select here.\n\n" + "Completed Execution\n");
            RunSpec("insert\n" + ("select\n" + (".exit\n" + "")))
            == Exited((PROMPT + insertOut) + ((PROMPT + selectOut) + PROMPT), 0)
  {
    InsertLineThen("select\n" + (".exit\n" + ""));
    SelectLineThen(".exit\n" + "");
    ExitLineEndsSession("");
  }
}
