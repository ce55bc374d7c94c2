/** An in-memory stand-in for the x3270 process at the other end of the script port: the 43 x 80
    screen buffer of the model 3279-4 terminal rs3270 launches, a cursor and a layout of input fields. It answers each command with the lines
    x3270 writes (`data: ` lines, a status line, `ok` or `error`), and those lines are fed through
    the real reader of the protocol engine. The screen semantics are this model's own modest
    choice; what the rest of the model relies on is stated in the lemmas below. */
module Emulator {
  import opened Common
  import opened Strings
  import opened Protocol

  const Rows := 43
  const Columns := 80
  const ScreenSize := Rows * Columns

  /** An input field: its first buffer offset and its length. */
  datatype Field = Field(start: nat, length: nat)

  /** The emulator state: the screen buffer (row by row), the cursor offset and the fields. */
  datatype Screen = Screen(buffer: string, cursor: nat, fields: seq<Field>)

  /** Fields are non-empty, fit the screen, and are listed in screen order without overlap. */
  predicate ValidLayout(fields: seq<Field>) {
    && (forall i | 0 <= i < |fields| :: fields[i].length >= 1 && fields[i].start + fields[i].length <= ScreenSize)
    && (forall i, j | 0 <= i < j < |fields| :: fields[i].start + fields[i].length <= fields[j].start)
  }

  predicate Valid(s: Screen) {
    |s.buffer| == ScreenSize && '\n' !in s.buffer && s.cursor < ScreenSize && ValidLayout(s.fields)
  }

  function RowOf(offset: nat): Byte
    requires offset < ScreenSize
  {
    offset / Columns
  }

  function ColumnOf(offset: nat): Byte
    requires offset < ScreenSize
  {
    offset % Columns
  }

  function Offset(row: nat, column: nat): nat {
    row * Columns + column
  }

  /** The (row, column) pair `Query(Cursor)` reports for an offset. */
  function Place(offset: nat): (Byte, Byte)
    requires offset < ScreenSize
  {
    (RowOf(offset), ColumnOf(offset))
  }

  /** Row and column name buffer offsets one to one. */
  lemma OffsetOfPlace(offset: nat)
    requires offset < ScreenSize
    ensures Offset(RowOf(offset), ColumnOf(offset)) == offset
  {
  }

  lemma PlaceInjective(a: nat, b: nat)
    requires a < ScreenSize && b < ScreenSize && Place(a) == Place(b)
    ensures a == b
  {
    OffsetOfPlace(a);
    OffsetOfPlace(b);
  }

  lemma PlaceOfOffset(row: nat, column: nat)
    requires row < Rows && column < Columns
    ensures Offset(row, column) < ScreenSize
    ensures RowOf(Offset(row, column)) == row && ColumnOf(Offset(row, column)) == column
  {
  }

  // ---------------------------------------------------------------------------------------------
  // Field navigation

  /** The first field from `from` on that starts after `offset`, or `|fields|` if none does. */
  function IndexAfter(fields: seq<Field>, offset: nat, from: nat): (k: nat)
    requires from <= |fields|
    ensures from <= k <= |fields|
    ensures forall j | from <= j < k :: fields[j].start <= offset
    ensures k < |fields| ==> fields[k].start > offset
    decreases |fields| - from
  {
    if from == |fields| then from
    else if fields[from].start > offset then from
    else IndexAfter(fields, offset, from + 1)
  }

  /** The last field below `upTo` that starts before `offset`, or -1 if none does. */
  function IndexBefore(fields: seq<Field>, offset: nat, upTo: nat): (k: int)
    requires upTo <= |fields|
    ensures -1 <= k < upTo
    ensures forall j | k < j < upTo :: fields[j].start >= offset
    ensures k >= 0 ==> fields[k].start < offset
    decreases upTo
  {
    if upTo == 0 then -1
    else if fields[upTo - 1].start < offset then upTo - 1
    else IndexBefore(fields, offset, upTo - 1)
  }

  /** `Tab`: the start of the next field, wrapping to the first; without fields, the origin. */
  function TabStop(s: Screen): nat {
    if |s.fields| == 0 then 0
    else
      var k := IndexAfter(s.fields, s.cursor, 0);
      if k < |s.fields| then s.fields[k].start else s.fields[0].start
  }

  /** `BackTab`: the start of the field before the cursor (the current field's start when the cursor
      is inside it), wrapping to the last field; without fields, the origin. */
  function BackTabStop(s: Screen): nat {
    if |s.fields| == 0 then 0
    else
      var k := IndexBefore(s.fields, s.cursor, |s.fields|);
      if k >= 0 then s.fields[k].start else s.fields[|s.fields| - 1].start
  }

  /** `Home`: the start of the first field; without fields, the origin. */
  function HomeStop(s: Screen): nat {
    if |s.fields| == 0 then 0 else s.fields[0].start
  }

  /** The field that holds `offset`, if any. */
  function FieldAt(fields: seq<Field>, offset: nat): (r: Option<nat>)
    ensures r.Some? ==> r.value < |fields| && fields[r.value].start <= offset < fields[r.value].start + fields[r.value].length
  {
    var k := IndexBefore(fields, offset + 1, |fields|);
    if k >= 0 && offset < fields[k].start + fields[k].length then Some(k) else None
  }

  /** `FieldEnd`: the last position of the field under the cursor; elsewhere the cursor stays. */
  function FieldEndStop(s: Screen): nat {
    match FieldAt(s.fields, s.cursor)
    case None => s.cursor
    case Some(k) => s.fields[k].start + s.fields[k].length - 1
  }

  lemma TabStopValid(s: Screen)
    requires Valid(s)
    ensures TabStop(s) < ScreenSize && BackTabStop(s) < ScreenSize && HomeStop(s) < ScreenSize && FieldEndStop(s) < ScreenSize
  {
  }

  /** From the start of a field, `Tab` goes to the start of the next one, the last wrapping to the first. */
  lemma TabFromField(s: Screen, k: nat)
    requires Valid(s) && k < |s.fields| && s.cursor == s.fields[k].start
    ensures k + 1 < |s.fields| ==> TabStop(s) == s.fields[k + 1].start
    ensures k + 1 == |s.fields| ==> TabStop(s) == s.fields[0].start
  {
    var i := IndexAfter(s.fields, s.cursor, 0);
    if k + 1 < |s.fields| {
      assert s.fields[k + 1].start > s.cursor;
    }
  }

  /** With the cursor anywhere inside a field, `Tab` and then `BackTab` bring it to that field's start. */
  lemma TabThenBackTab(s: Screen, k: nat)
    requires Valid(s) && k < |s.fields|
    requires s.fields[k].start <= s.cursor < s.fields[k].start + s.fields[k].length
    ensures BackTabStop(s.(cursor := TabStop(s))) == s.fields[k].start
  {
    var n := |s.fields|;
    var i := IndexAfter(s.fields, s.cursor, 0);
    if k + 1 < n {
      assert s.fields[k + 1].start > s.cursor;
      assert TabStop(s) == s.fields[k + 1].start;
    } else {
      assert TabStop(s) == s.fields[0].start;
    }
    var t := s.(cursor := TabStop(s));
    var j := IndexBefore(t.fields, t.cursor, n);
  }

  /** From a field's start, `FieldEnd` goes to its last position. */
  lemma FieldEndFromStart(s: Screen, k: nat)
    requires Valid(s) && k < |s.fields| && s.cursor == s.fields[k].start
    ensures FieldEndStop(s) == s.fields[k].start + s.fields[k].length - 1
  {
    var j := IndexBefore(s.fields, s.cursor + 1, |s.fields|);
  }

  // ---------------------------------------------------------------------------------------------
  // Screen contents

  /** `count` characters of the buffer from `offset`. */
  function Slice(buffer: string, offset: nat, count: nat): (r: string)
    requires offset + count <= |buffer|
    ensures |r| == count
    ensures forall i | 0 <= i < count :: r[i] == buffer[offset + i]
  {
    buffer[offset..offset + count]
  }

  /** `height` rows of `width` characters from (`row`, `column`), top to bottom. */
  function Region(buffer: string, row: nat, column: nat, width: nat, height: nat): (rows: seq<string>)
    requires |buffer| == ScreenSize && row + height <= Rows && column + width <= Columns
    ensures |rows| == height
    ensures forall k | 0 <= k < height :: rows[k] == Slice(buffer, Offset(row + k, column), width)
  {
    seq(height, k requires 0 <= k < height => Slice(buffer, Offset(row + k, column), width))
  }

  /** The buffer with `text` written over it from `offset`. */
  function Overwrite(buffer: string, offset: nat, text: string): (r: string)
    requires offset + |text| <= |buffer|
    ensures |r| == |buffer|
  {
    buffer[..offset] + text + buffer[offset + |text|..]
  }

  function Blanks(count: nat): (r: string)
    ensures |r| == count && '\n' !in r
  {
    seq(count, _ => ' ')
  }

  lemma SliceAvoids(buffer: string, offset: nat, count: nat, ch: char)
    requires offset + count <= |buffer| && ch !in buffer
    ensures ch !in Slice(buffer, offset, count)
  {
  }

  lemma OverwriteAvoids(buffer: string, offset: nat, text: string, ch: char)
    requires offset + |text| <= |buffer| && ch !in buffer && ch !in text
    ensures ch !in Overwrite(buffer, offset, text)
  {
  }

  /** What was written is what is found there afterwards. */
  lemma SliceOfOverwrite(buffer: string, offset: nat, text: string)
    requires offset + |text| <= |buffer|
    ensures Slice(Overwrite(buffer, offset, text), offset, |text|) == text
  {
    var r := Overwrite(buffer, offset, text);
    assert r[offset..offset + |text|] == text;
  }

  /** Writing leaves every other position alone. */
  lemma OverwriteElsewhere(buffer: string, offset: nat, text: string, i: nat)
    requires offset + |text| <= |buffer| && i < |buffer| && (i < offset || offset + |text| <= i)
    ensures Overwrite(buffer, offset, text)[i] == buffer[i]
  {
  }

  // ---------------------------------------------------------------------------------------------
  // Answering commands

  /** What the emulator sends back for one command (its `data:` payloads and whether it ends in
      `ok`), and the state it is left in. */
  datatype Reaction = Reaction(payloads: seq<string>, ok: bool, next: Screen)

  function Refuse(s: Screen): Reaction {
    Reaction([], false, s)
  }

  function Accept(s: Screen): Reaction {
    Reaction([], true, s)
  }

  /** The cursor report of `Query(Cursor)`: the row and column in decimal. */
  function CursorReport(s: Screen): string
    requires s.cursor < ScreenSize
  {
    Decimal(RowOf(s.cursor)) + " " + Decimal(ColumnOf(s.cursor))
  }

  /** The command applied to the screen. Reads outside the screen, and a move or a write that does
      not fit, are answered `error` and change nothing. */
  function React(s: Screen, c: Command): Reaction
    requires Valid(s)
  {
    match c
    case GetText(row, column, length) =>
      if row < Rows && column < Columns && Offset(row, column) + length <= ScreenSize
      then Reaction([Slice(s.buffer, Offset(row, column), length)], true, s)
      else Refuse(s)
    case GetTextRange(row, column, width, height) =>
      if row < Rows && column < Columns && row + height <= Rows && column + width <= Columns
      then Reaction(Region(s.buffer, row, column, width, height), true, s)
      else Refuse(s)
    case MoveCursor(row, column) =>
      if row < Rows && column < Columns then Accept(s.(cursor := Offset(row, column))) else Refuse(s)
    case SetText(text) =>
      if '\n' !in text && s.cursor + |text| <= ScreenSize
      then Accept(s.(buffer := Overwrite(s.buffer, s.cursor, text), cursor := (s.cursor + |text|) % ScreenSize))
      else Refuse(s)
    case MoveCursorToNextField => Accept(s.(cursor := TabStop(s)))
    case MoveCursorToPreviousField => Accept(s.(cursor := BackTabStop(s)))
    case MoveCursorToFirstField => Accept(s.(cursor := HomeStop(s)))
    case SendEnterKey => Accept(s)
    case ClearTextFromField =>
      (match FieldAt(s.fields, s.cursor)
       case None => Refuse(s)
       case Some(k) =>
         var f := s.fields[k];
         Accept(s.(buffer := Overwrite(s.buffer, f.start, Blanks(f.length)), cursor := f.start)))
    case MoveCursorToFieldEnd => Accept(s.(cursor := FieldEndStop(s)))
    case WaitForCurrentField => Accept(s)
    case WaitForUnlock => Accept(s)
    case GetCursor => Reaction([CursorReport(s)], true, s)
  }

  /** No payload holds a line break (the buffer holds none), and the state stays valid. */
  lemma ReactValid(s: Screen, c: Command)
    requires Valid(s)
    ensures Valid(React(s, c).next)
    ensures forall i | 0 <= i < |React(s, c).payloads| :: '\n' !in React(s, c).payloads[i]
  {
    ReactKeepsValid(s, c);
    ReactPayloadsAvoidBreaks(s, c);
  }

  lemma ReactKeepsValid(s: Screen, c: Command)
    requires Valid(s)
    ensures Valid(React(s, c).next)
  {
    TabStopValid(s);
    match c
    case SetText(text) =>
      if '\n' !in text && s.cursor + |text| <= ScreenSize {
        OverwriteAvoids(s.buffer, s.cursor, text, '\n');
      }
    case ClearTextFromField =>
      match FieldAt(s.fields, s.cursor) {
        case None =>
        case Some(k) => OverwriteAvoids(s.buffer, s.fields[k].start, Blanks(s.fields[k].length), '\n');
      }
    case _ =>
  }

  lemma ReactPayloadsAvoidBreaks(s: Screen, c: Command)
    requires Valid(s)
    ensures forall i | 0 <= i < |React(s, c).payloads| :: '\n' !in React(s, c).payloads[i]
  {
    match c
    case GetText(row, column, length) =>
      if row < Rows && column < Columns && Offset(row, column) + length <= ScreenSize {
        SliceAvoids(s.buffer, Offset(row, column), length, '\n');
      }
    case GetTextRange(row, column, width, height) =>
      if row < Rows && column < Columns && row + height <= Rows && column + width <= Columns {
        forall k | 0 <= k < height ensures '\n' !in Region(s.buffer, row, column, width, height)[k] {
          SliceAvoids(s.buffer, Offset(row + k, column), width, '\n');
        }
      }
    case GetCursor =>
      DecimalHasNoSeparator(RowOf(s.cursor), '\n');
      DecimalHasNoSeparator(ColumnOf(s.cursor), '\n');
    case _ =>
  }

  /** x3270's status line; the model keeps it fixed. */
  const StatusLine := "U F U C(localhost) I 4 43 80 0 0 0x0 -"

  /** The conclusion line. */
  function Conclusion(ok: bool): string {
    if ok then "ok\n" else "error\n"
  }

  /** One `data:` line per payload. */
  function DataLines(payloads: seq<string>): (events: seq<ReadEvent>)
    ensures |events| == |payloads|
  {
    seq(|payloads|, i requires 0 <= i < |payloads| => Line(DataPrefix + payloads[i] + "\n"))
  }

  /** The lines the emulator writes back for one reaction, as the reader receives them. */
  function Events(x: Reaction): seq<ReadEvent> {
    DataLines(x.payloads) + [Line(StatusLine + "\n"), Line(Conclusion(x.ok))]
  }

  lemma ClassifyStatus()
    ensures Classify(Line(StatusLine + "\n")) == OtherReply(false)
  {
    var line := StatusLine + "\n";
    assert line[0] == 'U';
    ClassifyUnsuccessful(line);
  }

  lemma RepliesOfConcatenation(a: seq<ReadEvent>, b: seq<ReadEvent>)
    ensures Replies(a + b) == Replies(a) + Replies(b)
  {
  }

  lemma RepliesOfDataLines(payloads: seq<string>)
    requires forall i | 0 <= i < |payloads| :: '\n' !in payloads[i]
    ensures Replies(DataLines(payloads)) == Data(payloads)
  {
    forall i | 0 <= i < |payloads| ensures Replies(DataLines(payloads))[i] == Data(payloads)[i] {
      ClassifyDataLine(payloads[i]);
    }
  }

  lemma ClassifyConclusion(ok: bool)
    ensures Classify(Line(Conclusion(ok))) == OtherReply(ok)
  {
    if ok {
      ClassifyOk();
    } else {
      ClassifyError();
    }
  }

  lemma RepliesOfEnding(status: string, conclusion: string, ok: bool)
    requires Classify(Line(status)) == OtherReply(false) && Classify(Line(conclusion)) == OtherReply(ok)
    ensures Replies([Line(status), Line(conclusion)]) == [OtherReply(false), OtherReply(ok)]
  {
  }

  /** The reader sees the payloads as data, then the status line, then the conclusion. */
  lemma RepliesOfResponse(x: Reaction)
    requires forall i | 0 <= i < |x.payloads| :: '\n' !in x.payloads[i]
    ensures Replies(Events(x)) == Data(x.payloads) + [OtherReply(false), OtherReply(x.ok)]
  {
    ClassifyStatus();
    ClassifyConclusion(x.ok);
    RepliesOfEnding(StatusLine + "\n", Conclusion(x.ok), x.ok);
    RepliesOfConcatenation(DataLines(x.payloads), [Line(StatusLine + "\n"), Line(Conclusion(x.ok))]);
    RepliesOfDataLines(x.payloads);
  }

  /** The emulator's response decodes to `Success(build())` of the folded payloads when it ends in
      `ok`, and to `CommandFailure` otherwise. */
  lemma DecodedResponse(c: Command, x: Reaction)
    requires forall i | 0 <= i < |x.payloads| :: '\n' !in x.payloads[i]
    ensures Exchange(AsWritten, c, Events(x)).outcome == AfterFold(AsWritten, c, Fold(c, None, x.payloads), FirstOf(x.payloads), x.ok)
  {
    RepliesOfResponse(x);
    ExchangeOfResponse(AsWritten, c, x.payloads, false, [], x.ok, []);
    assert Data(x.payloads) + [OtherReply(false)] + Data([]) + [OtherReply(x.ok)] + []
        == Data(x.payloads) + [OtherReply(false), OtherReply(x.ok)];
    assert x.payloads + [] == x.payloads;
  }

  /** What `execute` returns for a command sent to the emulator. */
  function Outcome(s: Screen, c: Command): Run<ExecutionResult<Value>>
    requires Valid(s)
  {
    Exchange(AsWritten, c, Events(React(s, c))).outcome
  }

  lemma DecodedOutcome(s: Screen, c: Command)
    requires Valid(s)
    ensures Outcome(s, c) == AfterFold(AsWritten, c, Fold(c, None, React(s, c).payloads), FirstOf(React(s, c).payloads), React(s, c).ok)
  {
    ReactValid(s, c);
    DecodedResponse(c, React(s, c));
  }

  /** `GetText` inside the screen returns the characters there; outside it, a command failure. */
  lemma OutcomeOfGetText(s: Screen, row: Byte, column: Byte, length: Byte)
    requires Valid(s)
    ensures Outcome(s, GetText(row, column, length)) ==
      if row < Rows && column < Columns && Offset(row, column) + length <= ScreenSize
      then Returned(Success(Text(Slice(s.buffer, Offset(row, column), length))))
      else Returned(CommandFailure(None))
  {
    DecodedOutcome(s, GetText(row, column, length));
    FoldSingleText(GetText(row, column, length), React(s, GetText(row, column, length)).payloads);
  }

  /** `GetTextRange` inside the screen returns its rows (none at all panics in `build`). */
  lemma OutcomeOfGetTextRange(s: Screen, row: Byte, column: Byte, width: Byte, height: Byte)
    requires Valid(s)
    ensures Outcome(s, GetTextRange(row, column, width, height)) ==
      if row < Rows && column < Columns && row + height <= Rows && column + width <= Columns then
        (if height == 0 then Panicked(MissingOutput) else Returned(Success(Lines(Region(s.buffer, row, column, width, height)))))
      else Returned(CommandFailure(None))
  {
    var c := GetTextRange(row, column, width, height);
    DecodedOutcome(s, c);
    FoldLines(c, React(s, c).payloads);
  }

  /** `Query(Cursor)` returns the cursor's row and column. */
  lemma OutcomeOfGetCursor(s: Screen)
    requires Valid(s)
    ensures Outcome(s, GetCursor) == Returned(Success(Position(RowOf(s.cursor), ColumnOf(s.cursor))))
  {
    DecodedOutcome(s, GetCursor);
    FoldCursor([CursorReport(s)]);
    ParsePositionOfReport(RowOf(s.cursor), ColumnOf(s.cursor));
  }

  /** A command without output succeeds with no value exactly when the emulator accepts it. */
  lemma OutcomeWithoutOutput(s: Screen, c: Command)
    requires Valid(s) && !HasOutput(c)
    ensures Outcome(s, c) == if React(s, c).ok then Returned(Success(NoValue)) else Returned(CommandFailure(None))
  {
    DecodedOutcome(s, c);
    FoldIgnored(c, None, React(s, c).payloads);
  }

  /** The lines `execute` writes for a run of commands: one request line per command, in order. */
  function Messages(cs: seq<Command>): (r: seq<string>)
    ensures |r| == |cs| && forall i | 0 <= i < |cs| :: r[i] == ClientMessage(cs[i]) + "\n"
  {
    seq(|cs|, i requires 0 <= i < |cs| => ClientMessage(cs[i]) + "\n")
  }

  /** From the log `log0` and the lines `sent0` to the log `log` and the lines `sent`: the log only
      grew, and the lines sent meanwhile are the request lines of the commands added to it, one per
      command and in order. */
  predicate Transcribed(sent0: seq<string>, log0: seq<Command>, sent: seq<string>, log: seq<Command>) {
    && |log0| <= |log| && log[..|log0|] == log0
    && |sent| == |sent0| + (|log| - |log0|) && sent[..|sent0|] == sent0
    && forall i | |log0| <= i < |log| :: sent[|sent0| + (i - |log0|)] == ClientMessage(log[i]) + "\n"
  }

  /** Two stretches of transcription in a row are one. */
  lemma TranscribedTrans(s0: seq<string>, l0: seq<Command>, s1: seq<string>, l1: seq<Command>, s2: seq<string>, l2: seq<Command>)
    requires Transcribed(s0, l0, s1, l1) && Transcribed(s1, l1, s2, l2)
    ensures Transcribed(s0, l0, s2, l2)
  {
    forall i | |l0| <= i < |l2|
      ensures s2[|s0| + (i - |l0|)] == ClientMessage(l2[i]) + "\n"
    {
      if i < |l1| {
        assert s2[|s0| + (i - |l0|)] == s1[|s0| + (i - |l0|)];
        assert l2[i] == l1[i];
      } else {
        assert |s1| + (i - |l1|) == |s0| + (i - |l0|);
      }
    }
    assert s2[..|s0|] == s1[..|s1|][..|s0|];
    assert l2[..|l0|] == l2[..|l1|][..|l0|];
  }

  /** Once the commands added to the log are known, the lines sent are exactly their request lines. */
  lemma TranscribedMessages(s0: seq<string>, l0: seq<Command>, s: seq<string>, commands: seq<Command>)
    ensures Transcribed(s0, l0, s, l0 + commands) <==> s == s0 + Messages(commands)
  {
    if s == s0 + Messages(commands) {
      assert (l0 + commands)[..|l0|] == l0;
      assert s[..|s0|] == s0;
    }
    if Transcribed(s0, l0, s, l0 + commands) {
      assert s == s[..|s0|] + s[|s0|..];
      assert s[|s0|..] == Messages(commands) by {
        forall j | 0 <= j < |commands| ensures s[|s0|..][j] == Messages(commands)[j] {
          assert (l0 + commands)[|l0| + j] == commands[j];
        }
      }
    }
  }

  /** The x3270 process behind one script-port connection, as far as the client can observe it:
      its screen, the commands it received and the request lines written to it. */
  class Terminal {
    var screen: Screen
    var log: seq<Command>
    var sent: seq<string>

    constructor(screen: Screen)
      ensures this.screen == screen && log == [] && sent == []
    {
      this.screen := screen;
      log := [];
      sent := [];
    }

    /** `ClientInterface::execute`: the command goes over a connection whose incoming lines are the
        emulator's answer to it. */
    method Execute(c: Command) returns (r: Run<ExecutionResult<Value>>)
      requires Valid(screen)
      modifies this
      ensures r == Outcome(old(screen), c)
      ensures screen == React(old(screen), c).next && Valid(screen)
      ensures log == old(log) + [c]
      ensures sent == old(sent) + [ClientMessage(c) + "\n"]
      ensures Transcribed(old(sent), old(log), sent, log)
    {
      var reaction := React(screen, c);
      ReactValid(screen, c);
      var written;
      r, written := Converse(c, Events(reaction));
      screen := reaction.next;
      log := log + [c];
      sent := sent + [written];
    }
  }

  /** One exchange over a fresh connection that delivers `incoming`: what `execute` returns and
      what it wrote. */
  method Converse(c: Command, incoming: seq<ReadEvent>) returns (r: Run<ExecutionResult<Value>>, written: string)
    ensures r == Exchange(AsWritten, c, incoming).outcome
    ensures written == ClientMessage(c) + "\n"
  {
    var conn := new Connection(incoming, None, None, 0);
    assert conn.writeFault.None? && conn.flushFault.None? && conn.written == [];
    r := Protocol.Execute(c, conn);
    written := conn.written;
  }
}
