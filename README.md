# rs3270 in Dafny

A model of the core of rs3270, a Rust client that drives the x3270 terminal emulator through its
script port, and proofs about that model. The model covers three parts:

- **The protocol engine** (`src/client_interface.rs`), in `protocol.dfy`. It contains:
  - the typed commands and the request line each sends (`get_client_message`);
  - the reader loop of `CommandBuilder::execute`, imperative over a `Connection` object, proved
    equal to a recursive reading of the response (`ReadFrom`, `Exchange`);
  - the per-command data accumulators and `build`;
  - the `ExecutionResult` predicates.
  
  The Rust standard-library string functions it relies on (`format!` of a `u8`, `parse::<u8>`,
  `split`, `replace`, `trim`) are in `strings.dfy`. A panic (`panic!`, `expect`, `unwrap` of
  `None`, debug-build `u8` overflow) is the value `Panicked(reason)` of `Common.Run`.
- **The mainframe provider** (`src/mainframe_provider.rs`), in `provider.dfy`. Each operation is a
  method of the class `MainframeProvider`. The method's contract gives:
  - what the operation returns;
  - the exact command sequence it sends;
  - the screen it leaves behind;
  - that the request lines written to the emulator are those of the commands it logs, in order
    (`Emulator.Transcribed`).
  
  `src/mainframe_processor.rs:273-448` repeats `src/mainframe_provider.rs:30-205` line for line,
  243 lines further down. For example, the row-against-column comparison of line 123 is line 366
  there. The one model stands for both copies.
- **The operation-tree interpreter** (`OperationContext::process_operation` and
  `process_operations`), in `interpreter.dfy`. It has three copies:
  - `src/mainframe_processor.rs:204-259`;
  - `src/processor_logic.rs:79-134`;
  - `src/main.rs:200-255`, the only one with a `KeyPress` operation.
  
  One model covers all three, with `PressKey` as the extra operation. `process_operations` need
  not terminate, so it is modelled with a bound (`fuel`) on the passes of its loop, and no
  halting claim is made without a hypothesis.

**The emulator.** The provider is proved against an x3270 stand-in, the class `Emulator.Terminal`
in `emulator.dfy`. It holds the 43 × 80 screen buffer of the model 3279-4 terminal that
`src/client_interface.rs:657-658` asks x3270 to emulate, a cursor and input fields. It answers every
command with the lines x3270 writes back:
- `data: ` lines;
- a status line;
- `ok` or `error`.

Those lines go through the modelled reader loop. The repository does not contain x3270, so the
way this stand-in treats the screen is the model's own choice. Examples: `Tab` wraps from the last
field to the first, and without fields every field key goes to the origin. The lemmas of
`emulator.dfy` state what the rest of the model relies on.

**The interpreter's collaborators.** The interpreter is generic over its provider, and its screens
and conditions are boxed functions with no implementation in the repository. So its provider is
a `Host` object that does two things:
- it records the calls made on it;
- it answers from the functions in a `Behaviour` value.

The conditions are Dafny functions of the variables and of those calls. Each evaluation of a
condition is itself recorded as an `Inspection` call, so a later pass may see a different provider
and answer differently, as a polling wait does.

**Behaviour of the code worth knowing, which the model keeps:**
- A region read sends `Ascii(row,column,height,width)` (`src/client_interface.rs:505-515`). The
  height comes before the width, and neither is decremented.
- An `ok` for either wait command panics in `build` (see Findings), although the command's output
  type is a success flag.
- `get_fields_count` (`src/mainframe_provider.rs:51-99`) makes no demand on the screen. Against
  this emulator, a screen without fields makes its loop run once and return 1, because the cursor
  comes back to the same place. Whether it ends on a real x3270 depends on where x3270 puts the
  cursor, which is outside the repository.
- A `Query(Cursor)` answered with `error` panics in the provider's `expect`
  (`src/mainframe_provider.rs:52-57`).

## Model

Some rows state one step of a recursive definition: `Protocol.ReadDataStep`,
`Protocol.ReadOtherStep`, `Protocol.ClassifyOtherLine`, `Interpreter.SetWrites`,
`Interpreter.KeyPressForwarded`, `Interpreter.NavigationIgnored`, `Interpreter.StepSingle` and
`Interpreter.StepConditional`. They spell out what `ReadFrom`, `Classify`, `Perform` and `Step` do
on one input, and the longer proofs use them. The properties themselves are the round trips, the
equalities of the loops with their recursive readings (`ReadResponse`, `ProcessOperations`), the
lemmas about whole responses (`ExchangeOf…`), and the provider's lemmas about whole screens.

| member | source | states |
|---|---|---|
| Strings.ParseDecimal | src/client_interface.rs:600-605 | a `u8` written in decimal parses back to itself with `parse::<u8>` |
| Strings.ParseU8RejectsNonDigits | src/client_interface.rs:604 | any character other than a digit (or a leading `+`) makes `parse::<u8>` fail |
| Strings.SplitJoin | src/client_interface.rs:601 | `split` undoes joining with the separator when no piece holds it |
| Strings.JoinSplit | src/client_interface.rs:601 | gluing the pieces of `split` back together with the separator gives the string |
| Strings.TrimDecomposes | src/client_interface.rs:462 | every line is its trimmed core between two runs of whitespace |
| Protocol.ClientMessageRoundTrip | src/client_interface.rs:486-595 | every request line names its command and carries its arguments unchanged. So it parses back to the command |
| Protocol.GetTextRoundTrip | src/client_interface.rs:486-493 | `GetText` sends `Ascii(row,column,length)` |
| Protocol.GetTextRangeRoundTrip | src/client_interface.rs:505-515 | `GetTextRange` sends `Ascii(row,column,height,width)`: the height before the width, nothing decremented |
| Protocol.MoveCursorRoundTrip | src/client_interface.rs:526-533 | `MoveCursor` sends `MoveCursor(row,column)` |
| Protocol.SetTextRoundTrip | src/client_interface.rs:535-541 | `SetText` sends its text verbatim between `String("` and `")` |
| Protocol.KeyRoundTrip | src/client_interface.rs:543-571 | `Tab`, `BackTab`, `Home`, `Enter` and `DeleteField` are sent as those literals |
| Protocol.KeywordRoundTrip | src/client_interface.rs:573-598 | `FieldEnd`, `Wait(InputField)`, `Wait(Unlock)` and `Query(Cursor)` are sent as those literals |
| Protocol.ClientMessageIsOneLine | src/client_interface.rs:410-416 | the request line has no line break of its own unless a `SetText` text does. The one `"\n"` added makes it exactly one line |
| Protocol.ExecutionResult.IsErr | src/client_interface.rs:52-67 | `is_err` holds for every variant except `Success`, `Unset` included |
| Protocol.ExecutionResult.IsOk | src/client_interface.rs:68-70 | `is_ok` holds exactly for `Success` |
| Protocol.ExecutionResult.Err | src/client_interface.rs:71-86 | `err` is `None` exactly for `Success`. For a failure it is the `Debug` rendering of the diagnostic or of the I/O error, with quotes, backslashes, ASCII and C1 control characters escaped |
| Protocol.DebugOfNextLine | src/client_interface.rs:79-80 | the C1 control character U+0085 is rendered as `\u{85}` inside the quotes |
| Protocol.Expect | src/client_interface.rs:36-51 | `expect` returns the value of a `Success` and panics on every other variant |
| Protocol.SuccessfulConclusionShape | src/client_interface.rs:462 | a conclusion counts as successful only if it is `ok` with whitespace around it |
| Protocol.SuccessfulConclusionPadded | src/client_interface.rs:462-463 | `ok` with any whitespace around it is a successful conclusion |
| Protocol.SuccessfulConclusionIsNotData | src/client_interface.rs:447-464 | no `data: ` line can also pass for a successful conclusion |
| Protocol.ClassifyDataLine | src/client_interface.rs:447-451 | a `data: ` line's payload is the rest of the line without its line break |
| Protocol.ClassifyOtherLine | src/client_interface.rs:457-469 | every line that is not a data line is an other line, and it is successful exactly when, trimmed, it is `ok` |
| Protocol.ClassifyEndOfStream | src/client_interface.rs:438-441 | the empty line `read_line` gives at the end of the stream is an unsuccessful other line |
| Protocol.ParsePosition | src/client_interface.rs:600-607 | the cursor report is split on spaces and every piece parsed. The first two values are the row and the column. A parse failure or fewer than two pieces panics |
| Protocol.ParsePositionOfReport | src/client_interface.rs:600-607 | the report `row column` parses back to that row and column |
| Protocol.FoldSingleText | src/client_interface.rs:494-502 | `GetText` keeps its one data line. No line leaves it empty, and a second line panics |
| Protocol.FoldLines | src/client_interface.rs:516-522 | `GetTextRange` appends every data line in arrival order and never panics |
| Protocol.FoldCursor | src/client_interface.rs:599-612 | `GetCursor` keeps the parsed position of its one data line. A second data line panics |
| Protocol.FoldIgnored | src/client_interface.rs:143-146 | commands without a data hook ignore every data line |
| Protocol.WaitPanicsOnSuccess | src/client_interface.rs:346-356 | the wait commands never set their output, so their `build` panics |
| Protocol.ReadDataStep | src/client_interface.rs:447-456 | a data reply feeds the accumulator, and it becomes the first line only at the very first read |
| Protocol.ReadOtherStep | src/client_interface.rs:457-469 | the first other line only marks the status as received. The next one concludes |
| Protocol.ReadThroughData | src/client_interface.rs:447-456 | a run of data lines is folded into the accumulator in order, stopping at the first panic |
| Protocol.ExchangeOfResponse | src/client_interface.rs:435-479 | a full response is the data, the status line, more data and the conclusion. It yields `Success(build())` exactly when the conclusion is `ok`, otherwise `CommandFailure` of the first line. Data after the status line still counts, and the reading stops after the conclusion |
| Protocol.ExchangeOfTruncatedResponse | src/client_interface.rs:436-441 | when the stream ends, its empty reads act as the status line and an unsuccessful conclusion |
| Protocol.ExchangeOfReadFailure | src/client_interface.rs:439-443 | a read error ends the exchange at once with `IoError` |
| Protocol.WaitOutcome | src/client_interface.rs:579-591 | an `ok` wait response panics as written. In the corrected `build` it reports success |
| Protocol.Connection.WriteAll | src/client_interface.rs:416-420 | `write_all` of no bytes succeeds. Otherwise it either appends every byte, or fails after the stream took a proper prefix of them, which stays written |
| Protocol.Connection.ReadLine | src/client_interface.rs:438-439 | `read_line` takes the next line. At the end of the stream it gives an empty line |
| Protocol.CommandBuilder.AppendClientDataResponse | src/client_interface.rs:455 | the command's data hook either updates the output slot or panics and leaves it unchanged |
| Protocol.Execute | src/client_interface.rs:408-425 | exactly the request line and one `"\n"` are written. A write error returns `IoError` with nothing read and only the part of the line the stream took before the error written. A flush error returns `IoError` with nothing read. Any other outcome is the response read from the stream |
| Protocol.ReadStep | src/client_interface.rs:436-471 | one pass of the reading loop advances the reading of the response by one line |
| Protocol.ReadResponse | src/client_interface.rs:427-479 | the reading loop returns the outcome of the response and consumes exactly the lines it read |
| Emulator.DecodedResponse | src/client_interface.rs:435-479 | the emulator's answer decodes to `Success` of the folded payloads when it ends in `ok`, otherwise to `CommandFailure` |
| Emulator.OutcomeOfGetText | src/client_interface.rs:486-503 | `GetText` inside the screen returns the characters there. Outside it, it fails |
| Emulator.OutcomeOfGetTextRange | src/client_interface.rs:505-524 | `GetTextRange` inside the screen returns its rows, top to bottom. A height of zero panics in `build` |
| Emulator.OutcomeOfGetCursor | src/client_interface.rs:593-614 | `Query(Cursor)` returns the cursor's row and column |
| Emulator.OutcomeWithoutOutput | src/client_interface.rs:526-577 | a command without output succeeds exactly when the emulator accepts it |
| Emulator.Terminal.Execute | src/client_interface.rs:690-693 | `execute` on the emulator returns the outcome of its answer and leaves it in the next state. It logs the command and writes its request line |
| Emulator.TranscribedMessages | src/client_interface.rs:410-416 | the request lines written during an operation are exactly the lines of the commands it appended to the log, in order |
| Emulator.TranscribedTrans | src/client_interface.rs:410-416 | two operations in a row write the request lines of all the commands they log, in order |
| Provider.MainframeProvider.GetScreenText | src/mainframe_provider.rs:31-43 | the operation sends one `GetTextRange(0,0,80,24)` and writes its request line. It returns the top 24 rows with one character popped from each, and the screen is unchanged |
| Provider.ScreenTextRows | src/mainframe_provider.rs:36-42 | the screen text has 24 lines: the first 24 of the screen's 43 rows in order, each without its last column |
| Provider.MainframeProvider.GetTextAtLocation | src/mainframe_provider.rs:44-50 | the operation sends `GetText(y, x, length)`, with the row before the column. It returns the text there, and a refused read panics |
| Provider.MainframeProvider.GetFieldsCount | src/mainframe_provider.rs:51-99 | the operation sends `Query`, `Home`, `Query`, then a `Tab`+`Query` per round, then `MoveCursor` back to the start. It returns the number of fields, at least 1, panics when the count would pass 255, and leaves the screen unchanged |
| Provider.ComesRound | src/mainframe_provider.rs:75 | counting `Tab`s from `Home`, the reported position equals the first field's exactly after one full round |
| Provider.MainframeProvider.GetFieldVector | src/mainframe_provider.rs:100-159 | the operation sends `Query`, `Tab`, `BackTab`, `Query`. If it does not stop early, it then sends `FieldEnd` and `Query`. On every path it sends `MoveCursor` back to the start, and the screen is unchanged |
| Provider.FieldVectorOfField | src/mainframe_provider.rs:152-155 | with the cursor in a one-row field, the corrected operation returns the field's row, first column and length |
| Provider.FieldVectorMixup | src/mainframe_provider.rs:123-133 | as written, the operation returns `None` whenever the field's row and column differ |
| Provider.FieldVectorExample | src/mainframe_provider.rs:123 | a field at row 5, column 3, ten long, with the cursor on it: `None` as written, `(5, 3, 10)` when corrected |
| Provider.MainframeProvider.SetTextAtLocation | src/mainframe_provider.rs:163-187 | the operation sends `Query`, `MoveCursor(y, x)`, `String(text)`, `MoveCursor(original)`. The text is written at (y, x), the cursor is restored, and the first refused step panics |
| Provider.WrittenTextReadsBack | src/mainframe_provider.rs:177-180 | reading back the text `set_text_at_location` wrote gives that text |
| Provider.ReadThenWrite | src/mainframe_provider.rs:163-187 | writing back at (x, y) the text just read there is accepted (no line break, on the screen) and leaves the screen as it was |
| Provider.MainframeProvider.MoveToFieldIndex | src/mainframe_provider.rs:188-204 | the operation sends `Home` and then exactly `index` `Tab`s, and nothing else. The cursor ends on field `index` counted round from the first field |
| Provider.TabFromIndex | src/mainframe_provider.rs:197-202 | each `Tab` moves from the `k`-th field stop to the next one |
| Interpreter.StoreOverwrites | src/mainframe_processor.rs:210-213 | `Store` sets its variable to the text read at its position, overwriting it. All other variables are unchanged |
| Interpreter.OnlyStoreChangesVariables | src/mainframe_processor.rs:204-237 | every operation except `Store` leaves the variables unchanged |
| Interpreter.CallsOfPerform | src/mainframe_processor.rs:214-231 | each operation makes one provider call. The exception is a `Set` from a variable not stored, which makes no call and changes nothing |
| Interpreter.SetWrites | src/processor_logic.rs:89-107 | `Set` writes the literal text, or the stored value of its variable, at (x, y) |
| Interpreter.NavigationIgnored | src/processor_logic.rs:81-84 | `Navigate` asks the screen to navigate and ignores the answer. The state afterwards is the same whatever it answered |
| Interpreter.KeyPressForwarded | src/main.rs:229-231 | a key press is forwarded to the provider, and the variables are unchanged |
| Interpreter.StepSingle | src/main.rs:238-243 | a single node runs its operation and continues at `next`, stopping when `next` is `None` |
| Interpreter.StepConditional | src/processor_logic.rs:123-132 | a conditional node changes no variable and makes one call, the inspection its condition makes. It moves to the consequent if the condition holds, otherwise to the alternative if there is one, and otherwise stays |
| Interpreter.Stalls | src/mainframe_processor.rs:248-256 | a conditional without an alternative whose condition is false at every evaluation is never left. Each pass only inspects the provider once more |
| Interpreter.LeavesWhenTrue | src/main.rs:244-247 | a conditional without an alternative waits until its condition first holds, one inspection per pass, and then moves to the consequent |
| Interpreter.Host.Evaluate | src/main.rs:246 | evaluating a condition answers it on the variables and the calls so far, and records one inspection |
| Interpreter.WalkSplits | src/mainframe_processor.rs:238-259 | running for `f + g` passes is the same as running `f` passes and then `g` more |
| Interpreter.WalkChain | src/main.rs:234-255 | a chain of single nodes runs its operations in order and is done after one pass per node |
| Interpreter.HaltsWithAlternatives | src/processor_logic.rs:113-134 | if every conditional node has an alternative, the loop is done within the tree's depth, whatever the conditions answer |
| Interpreter.OperationContext.ProcessOperation | src/main.rs:200-233 | `process_operation` changes the store and the provider's calls exactly as `Perform` says |
| Interpreter.OperationContext.ProcessOperations | src/mainframe_processor.rs:238-259 | `process_operations`, for at most `fuel` passes, reaches the state and the node that `Walk` gives |

## Left out

- Process and socket plumbing is not modelled: spawning and killing x3270, `TcpStream::connect`, `shutdown`. The TCP stream is a `Connection` that holds the lines still to be read and the error `write_all` or `flush` reports.
- `execute` reads through a fresh `BufReader` that is dropped when it returns, so lines buffered after the conclusion are lost. The model gives each exchange its own connection, which holds exactly the emulator's answer, so there is nothing to lose.
- The `println!` logging is not modelled.
- The `macro_rules!` machinery, its unused arm and its unreachable duplicate arm are not modelled. Only the generated commands are.
- `ExecutionResult::unwrap` is not modelled. It differs from `expect` only in its panic message, and no core operation calls it.
- The key catalogue (`KeyCode`) is not modelled. A key is an opaque number, because the interpreter only forwards it.
- `Screen::is_active` and `OperationCondition` are left uninterpreted. Neither has an implementation in the repository or a caller in the core.
- Emulator.Terminal.Execute: the emulator's transport never fails. Its connection has no write or flush fault and no read error, so no provider operation meets an `IoError`. In the source, every provider call's `expect` panics on an `IoError` (`Protocol.Expect` states that), and that panic path is absent from the `MainframeProvider` contracts.
- x3270's screen semantics are the emulator's own choice, as is its fixed status line. When a provider operation would panic on a refused command, the proof relies on what this emulator accepts.
- Some `expect`s in the provider follow commands this emulator always accepts: `Home`, `Tab`, `BackTab`, `FieldEnd` and `Query(Cursor)`. Their panic paths are unreachable in the model.
- The `u8` overflow of `get_field_vector`'s length cannot happen, because reported columns lie on the screen. The overflow of `get_fields_count`'s counter is modelled as a panic.
- Interpreter.Host.Evaluate: the reads a condition makes through `ReadOnlyMainframeProvider` are recorded as one `Inspection` call, not one call per read, because conditions are opaque boxed functions.
- Protocol.ExecutionResult.Err: escapes quotes, backslashes, ASCII and C1 control characters only. Rust's `Debug` also escapes other non-printable and grapheme-extending characters (U+0301, for example); its Unicode tables are not modelled.
- Protocol.Connection.WriteAll: how much of the bytes the stream takes before a write error is a parameter of the connection (`accepted`), not derived from the operating system.
- Interpreter.OperationContext.ProcessOperations: runs at most `fuel` passes of the `while let` loop, because the source loop need not terminate. It returns the node it would process next.
- Panics are values of `Common.Run`, not the unwinding of a thread. Nothing after a panic is modelled.

## Findings

| source | as written | input that shows it | evidently intended | confidence | as-written member | corrected member |
|---|---|---|---|---|---|---|
| src/client_interface.rs:579-591 | `WaitForCurrentField` and `WaitForUnlock` declare a `bool` output but no data hook sets it, so `build` unwraps `None` | any `Wait(InputField)` answered `ok` | a successful wait returns `Success(true)` | high, not executed | Protocol.WaitPanicsOnSuccess | Protocol.WaitOutcome |
| src/mainframe_provider.rs:123 | the original cursor's row is compared with the field start's column (also src/mainframe_processor.rs:366) | cursor at row 5, column 6 inside a field starting at row 5, column 3 | the row is compared with the row | high, not executed | Provider.FieldVectorMixup | Provider.FieldVectorOfField |
