# REPL command dispatch of building-sqlite

This project models the read-eval loop of a minimal SQLite clone written in
Rust (`src/main.rs`). Each loop pass does four things:

1. It prints the prompt `db > `.
2. It reads one line from standard input into an input buffer and drops the
   line's last byte.
3. It classifies the line. A line whose first character is `.` is a meta
   command. Every other line is a statement.
4. It handles the line:
   - `.exit` ends the process with status 0; any other meta command prints
     `Unrecognized command`.
   - The statement `insert` or `select` (the whole line, case-sensitive) is
     prepared and executed. Execution prints a placeholder message and then
     `Completed Execution`.
   - Any other line prints `Unrecognized command at the start of <line>`.

No state passes from one line to the next. The buffer is cleared before
every read, and the statement is rebuilt on every pass.

The project has two modules:

- `Commands` (`commands.dfy`) holds the pure per-line part. It has the
  meta-command handler, statement preparation, statement execution, and
  `Step`, the decision the loop body takes for one line. `Render` gives the
  text printed for each decision, as an `Effect`.
- `Session` (`session.dfy`) holds the reading and the loop. `SplitLine` is
  the chunk one `read_line` call consumes. `ReadSpec` and the class
  `InputBuffer` with its method `ReadInput` model `read_input`.
  `Iteration` is one loop pass. `RunSpec` is a whole session on a finite
  standard input. `Run` is the loop itself, proved equal to `RunSpec`.

Process exit and printed text are values: an `Effect` is either
`Running(output)` or `Exited(output, status)`. Standard input is one finite
string. So every session ends, either by `.exit` (status 0) or by the
zero-byte read at end of input (status 1).

`src/main.rs` stores no rows. The row type (lines 4-11), the row field of
`Statement` (line 31) and the syntax-error variant (line 19) are commented
out, and `insert` matches only as a bare word.

## Model

| member | source | states |
|---|---|---|
| `Commands.IsMetaLine` | src/main.rs:128 | A line is a meta command exactly when its first character is `.`. Such a line is never `insert` or `select`. |
| `Commands.PrintLine` | src/main.rs:134 | `println!` writes its message followed by one newline. |
| `Commands.DoMetaCommand` | src/main.rs:70-77 | The process exits with status 0 exactly when the line is `.exit`. Every other line gives `MetaCommandUnknown`. `MetaCommandSuccess` is never returned. |
| `Commands.PrepareStatement` | src/main.rs:79-97 | The result is (success, Insert) exactly when the whole line is `insert`, and (success, Select) exactly when it is `select`. Every other line, the empty line included, gives (unrecognized, Unknown). Success is never paired with Unknown. |
| `Commands.ExecuteCommand` | src/main.rs:99-111 | Every execution message is printed with `println!` after a text that already ends in a newline, so the output ends in a blank line. |
| `Commands.ExecuteMessagesDistinct` | src/main.rs:99-111 | Two statements print the same message exactly when they are the same statement type. |
| `Commands.Step` | src/main.rs:128-149 | A `.` line goes only to the meta handler: it gives exit 0 exactly for `.exit` and an unknown meta command otherwise. Every other line goes to preparation: Insert exactly for `insert`, Select exactly for `select`, and unrecognized (carrying the line) otherwise. The silent meta-success branch is never taken. An Unknown statement is never executed. |
| `Commands.Render` | src/main.rs:128-150 | The loop stops exactly when the decision is to exit, and then prints nothing more. |
| `Commands.MetaLineOutput` | src/main.rs:128-137 | `.exit` prints nothing and exits with status 0. Any other `.` line prints `Unrecognized command` and the loop goes on. |
| `Commands.InsertLineOutput` | src/main.rs:139-150 | `insert` prints `Handle insert here.`, a blank line and `Completed Execution`. |
| `Commands.SelectLineOutput` | src/main.rs:139-150 | `select` prints `Handle select here.`, a blank line and `Completed Execution`. |
| `Commands.UnrecognizedLineOutput` | src/main.rs:139-147 | Any other non-`.` line prints `Unrecognized command at the start of ` followed by the line, and nothing is executed. |
| `Commands.UnknownNeverExecuted` | src/main.rs:107-108 | The `Unknown` arm of execution is unreachable from the loop: no line leads to it, and no line prints its message. |
| `Session.PrintPrompt` | src/main.rs:114-117 | The prompt is non-empty and holds no newline, so the prompt and the text after it share one line. |
| `Session.SplitLine` | src/main.rs:51 | One `read_line` consumes a prefix of the input. That prefix ends at the first newline, or is all of the input when it has none. It is non-empty unless the input is empty, and the rest of the input follows it unchanged. |
| `Session.SplitLineAt` | src/main.rs:51 | A line followed by a newline is read as exactly that chunk, whatever input follows. |
| `Session.SplitLineWhole` | src/main.rs:51 | Input without a newline is read whole in one call. |
| `Session.ReadSpec` | src/main.rs:49-65 | A read succeeds exactly when it returns n > 0 bytes. The line is then those bytes minus the last one. A read of 0 bytes, or a read error, is fatal. |
| `Session.InputBuffer.constructor` | src/main.rs:41-47 | A new buffer is empty, with input length 0. |
| `Session.InputBuffer.ReadInput` | src/main.rs:49-65 | The buffer is cleared and then holds the bytes read minus the last one, and `inputLength` is its length. On a fatal read the method reports failure, the buffer is empty and `inputLength` is unchanged. |
| `Session.Iteration` | src/main.rs:124-151 | One pass continues only after a non-empty read. At end of input it prints the prompt and `Error reading input` and exits with status 1, and status 1 occurs only there. When the line read (minus its last byte) is `.exit`, it prints only the prompt and exits with status 0, and status 0 occurs only then. No other status is possible. |
| `Session.RunSpec` | src/main.rs:119-152 | Every session on a finite input ends, with status 0 or 1. |
| `Session.Lines` | src/main.rs:124-126 | The loop reads no lines exactly when the input is empty, and no line it reads contains a newline. |
| `Session.Run` | src/main.rs:119-152 | The loop, which reads each line into the input buffer and dispatches it, prints exactly the text `RunSpec` gives and ends with its status. |
| `Session.RunAfterLine` | src/main.rs:49-50 | A complete line decides its pass on its own. If that pass continues, the rest of the session is the session on the remaining input, whatever the line was. |
| `Session.ExitLineEndsSession` | src/main.rs:70-72 | A `.exit` line ends the session with status 0 after printing only the prompt. Later input is never read. |
| `Session.EndOfInputExits` | src/main.rs:52-56 | At end of input the loop prints `Error reading input` and exits with status 1. |
| `Session.ExitStatus` | src/main.rs:119-152 | A session ends with status 0 exactly when one of the lines it reads is `.exit`. |
| `Session.FinalLineLosesLastChar` | src/main.rs:57-58 | A final `.exit` with no newline is read as `.exi`. It is reported unknown, and the session then ends with status 1 at end of input. |
| `Session.CarriageReturnKept` | src/main.rs:57-58 | Only the last byte is dropped. A line ended by `\r\n` keeps its `\r`, so `.exit\r\n` is an unknown meta command and the session goes on. |
| `Session.InsertLineThen` | src/main.rs:139-150 | An `insert` line prints its handler message and `Completed Execution`, and the session continues with the next line. |
| `Session.SelectLineThen` | src/main.rs:139-150 | A `select` line prints its handler message and `Completed Execution`, and the session continues with the next line. |
| `Session.InsertSelectExit` | src/main.rs:119-152 | The input `insert`, `select`, `.exit` prints the prompt and insert message, the prompt and select message, and a final prompt, then exits with status 0. |

## Left out

- Reading from the terminal, `print!`, `println!`, flushing stdout and
  `process::exit`. They are modelled as values: standard input is a string
  argument, and the printed text and exit status are the `Session` result.
- Read errors from the operating system and invalid UTF-8. A string cannot
  produce them, so `Run` never meets them. `ReadSpec` and
  `InputBuffer.ReadInput` still model the error arm of `read_input`.
- Blocking on standard input. A finite string ends, so end of input stands
  in for a terminal that closes.
- UTF-8 encoding: one character counts as one byte. The model does not
  capture the panic of `String::truncate` when the last line has no newline
  and ends in a multi-byte character.
- The `buffer_length` field of the input buffer. It is set to 0 and never
  read.
- The row layout, the row field of `Statement` and the syntax-error variant
  (src/main.rs:4-11, 19, 31). They are commented out and have no behaviour.
