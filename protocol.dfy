/** The x3270 script-port protocol engine of src/client_interface.rs: the typed commands, the
    request line each sends, the reader loop that classifies response lines, the per-command data
    accumulators, `build`, and the predicates on `ExecutionResult`. The TCP stream is a
    `Connection` object holding the bytes written and the response lines still to be read. */
module Protocol {
  import opened Common
  import opened Strings

  // ---------------------------------------------------------------------------------------------
  // Commands and their request lines

  /** One value per command struct generated by `command!`, with the struct's arguments. */
  datatype Command =
    | GetText(row: Byte, column: Byte, length: Byte)
    | GetTextRange(row: Byte, column: Byte, width: Byte, height: Byte)
    | MoveCursor(row: Byte, column: Byte)
    | SetText(text: string)
    | MoveCursorToNextField
    | MoveCursorToPreviousField
    | MoveCursorToFirstField
    | SendEnterKey
    | ClearTextFromField
    | MoveCursorToFieldEnd
    | WaitForCurrentField
    | WaitForUnlock
    | GetCursor

  /** `get_client_message`: the request line, without its newline. */
  function ClientMessage(c: Command): string {
    match c
    case GetText(row, column, length) => Call("Ascii", [row, column, length])
    case GetTextRange(row, column, width, height) => Call("Ascii", [row, column, height, width])
    case MoveCursor(row, column) => Call("MoveCursor", [row, column])
    case SetText(text) => StringOpen + text + StringClose
    case MoveCursorToNextField => "Tab"
    case MoveCursorToPreviousField => "BackTab"
    case MoveCursorToFirstField => "Home"
    case SendEnterKey => "Enter"
    case ClearTextFromField => "DeleteField"
    case MoveCursorToFieldEnd => "FieldEnd"
    case WaitForCurrentField => "Wait(InputField)"
    case WaitForUnlock => "Wait(Unlock)"
    case GetCursor => "Query(Cursor)"
  }

  /** `name(a,b,...)` with the arguments in decimal, as `format!` writes them. */
  function Call(name: string, args: seq<Byte>): string
    requires |args| >= 1
  {
    name + "(" + Join(Decimals(args), ',') + ")"
  }

  const StringOpen := "String(\""
  const StringClose := "\")"

  /** A message of the form `String("` + text + `")`. */
  predicate IsStringMessage(m: string) {
    |m| >= |StringOpen| + |StringClose| && m[..|StringOpen|] == StringOpen && m[|m| - |StringClose|..] == StringClose
  }

  /** A message of the form `open` + arguments + `)`. */
  predicate Enclosed(m: string, open: string) {
    |m| > |open| && m[..|open|] == open && m[|m| - 1] == ')'
  }

  /** Parses every piece as a `u8`; `None` as soon as one piece does not parse. */
  function ParseArguments(pieces: seq<string>): (r: Option<seq<Byte>>)
    ensures r.Some? ==> |r.value| == |pieces|
    decreases |pieces|
  {
    if |pieces| == 0 then Some([])
    else
      match (ParseU8(pieces[0]), ParseArguments(pieces[1..]))
      case (Some(v), Some(vs)) => Some([v] + vs)
      case _ => None
  }

  /** What the emulator makes of a request line: the inverse of `ClientMessage`. */
  function ParseClientMessage(m: string): Option<Command> {
    if IsStringMessage(m) then Some(SetText(m[|StringOpen|..|m| - |StringClose|]))
    else if Enclosed(m, "Ascii(") then
      match ParseArguments(Split(m[|"Ascii("|..|m| - 1], ','))
      case Some(a) =>
        if |a| == 3 then Some(GetText(a[0], a[1], a[2]))
        else if |a| == 4 then Some(GetTextRange(a[0], a[1], a[3], a[2]))
        else None
      case None => None
    else if Enclosed(m, "MoveCursor(") then
      match ParseArguments(Split(m[|"MoveCursor("|..|m| - 1], ','))
      case Some(a) => if |a| == 2 then Some(MoveCursor(a[0], a[1])) else None
      case None => None
    else ParseKeyword(m)
  }

  /** The commands without arguments, by name. */
  function ParseKeyword(m: string): Option<Command> {
    if m == "Tab" then Some(MoveCursorToNextField)
    else if m == "BackTab" then Some(MoveCursorToPreviousField)
    else if m == "Home" then Some(MoveCursorToFirstField)
    else if m == "Enter" then Some(SendEnterKey)
    else if m == "DeleteField" then Some(ClearTextFromField)
    else if m == "FieldEnd" then Some(MoveCursorToFieldEnd)
    else if m == "Wait(InputField)" then Some(WaitForCurrentField)
    else if m == "Wait(Unlock)" then Some(WaitForUnlock)
    else if m == "Query(Cursor)" then Some(GetCursor)
    else None
  }

  lemma DecimalHasNoSeparator(n: nat, sep: char)
    requires !IsDigit(sep)
    ensures sep !in Decimal(n)
  {
  }

  /** The decimal rendering of each value. */
  function Decimals(values: seq<Byte>): (pieces: seq<string>)
    ensures |pieces| == |values|
    ensures forall i | 0 <= i < |values| :: pieces[i] == Decimal(values[i])
    decreases |values|
  {
    if |values| == 0 then [] else [Decimal(values[0])] + Decimals(values[1..])
  }

  lemma {:induction false} ParseDecimalArguments(values: seq<Byte>)
    ensures ParseArguments(Decimals(values)) == Some(values)
    decreases |values|
  {
    if |values| > 0 {
      var pieces := Decimals(values);
      assert pieces[0] == Decimal(values[0]) && pieces[1..] == Decimals(values[1..]);
      ParseDecimal(values[0]);
      ParseDecimalArguments(values[1..]);
      assert ParseU8(pieces[0]) == Some(values[0]);
      assert ParseArguments(pieces[1..]) == Some(values[1..]);
      assert [values[0]] + values[1..] == values;
    }
  }

  /** The arguments of a request line, decimal and comma-separated, parse back to the values sent. */
  lemma ArgumentsRoundTrip(values: seq<Byte>, text: string)
    requires |values| >= 1
    requires text == Join(Decimals(values), ',')
    ensures ParseArguments(Split(text, ',')) == Some(values)
  {
    var pieces := Decimals(values);
    forall i | 0 <= i < |pieces| ensures ',' !in pieces[i] {
      DecimalHasNoSeparator(values[i], ',');
    }
    SplitJoin(pieces, ',');
    ParseDecimalArguments(values);
  }

  lemma SetTextRoundTrip(text: string)
    ensures ParseClientMessage(ClientMessage(SetText(text))) == Some(SetText(text))
  {
    var m := ClientMessage(SetText(text));
    assert m[..|StringOpen|] == StringOpen;
    assert m[|m| - |StringClose|..] == StringClose;
    assert m[|StringOpen|..|m| - |StringClose|] == text;
  }

  /** A call with decimal arguments: not a `String(...)` message, and enclosed by its name and `(`. */
  lemma CallShape(name: string, values: seq<Byte>)
    requires |name| > 0 && name[0] != 'S' && |values| >= 1
    ensures var m := Call(name, values);
            && !IsStringMessage(m) && Enclosed(m, name + "(") && m[|name + "("|..|m| - 1] == Join(Decimals(values), ',')
  {
    var m := Call(name, values);
    var open := name + "(";
    assert m == open + Join(Decimals(values), ',') + ")";
    assert m[0] == name[0];
    if |m| >= |StringOpen| {
      assert m[..|StringOpen|][0] == m[0];
    }
    assert m[..|open|] == open;
  }

  lemma CallRoundTrip(name: string, values: seq<Byte>)
    requires |name| > 0 && name[0] != 'S' && |values| >= 1
    ensures var m := Call(name, values);
            && !IsStringMessage(m) && Enclosed(m, name + "(")
            && ParseArguments(Split(m[|name + "("|..|m| - 1], ',')) == Some(values)
  {
    CallShape(name, values);
    ArgumentsRoundTrip(values, Join(Decimals(values), ','));
  }

  lemma GetTextRoundTrip(row: Byte, column: Byte, length: Byte)
    ensures ParseClientMessage(ClientMessage(GetText(row, column, length))) == Some(GetText(row, column, length))
  {
    CallRoundTrip("Ascii", [row, column, length]);
  }

  lemma GetTextRangeRoundTrip(row: Byte, column: Byte, width: Byte, height: Byte)
    ensures ParseClientMessage(ClientMessage(GetTextRange(row, column, width, height)))
            == Some(GetTextRange(row, column, width, height))
  {
    CallRoundTrip("Ascii", [row, column, height, width]);
  }

  lemma MoveCursorRoundTrip(row: Byte, column: Byte)
    ensures ParseClientMessage(ClientMessage(MoveCursor(row, column))) == Some(MoveCursor(row, column))
  {
    CallRoundTrip("MoveCursor", [row, column]);
    var m := ClientMessage(MoveCursor(row, column));
    assert !Enclosed(m, "Ascii(") by { assert m[..|"Ascii("|][0] == m[0]; }
  }

  /** A message without arguments is none of the argument forms, so it is looked up by name. */
  lemma KeywordShape(m: string)
    requires |m| > 0 && m[0] != 'S' && m[0] != 'A' && m[0] != 'M'
    ensures ParseClientMessage(m) == ParseKeyword(m)
  {
    if |m| >= |StringOpen| {
      assert m[..|StringOpen|][0] == m[0];
    }
    if |m| > |"Ascii("| {
      assert m[..|"Ascii("|][0] == m[0];
    }
    if |m| > |"MoveCursor("| {
      assert m[..|"MoveCursor("|][0] == m[0];
    }
  }

  /** Every request line names its command and carries its arguments unchanged: `GetTextRange`
      sends the height before the width, nothing is decremented, and `SetText` inserts its text
      verbatim between `String("` and `")`. */
  lemma ClientMessageRoundTrip(c: Command)
    ensures ParseClientMessage(ClientMessage(c)) == Some(c)
  {
    match c
    case SetText(text) => SetTextRoundTrip(text);
    case GetText(row, column, length) => GetTextRoundTrip(row, column, length);
    case GetTextRange(row, column, width, height) => GetTextRangeRoundTrip(row, column, width, height);
    case MoveCursor(row, column) => MoveCursorRoundTrip(row, column);
    case MoveCursorToNextField => KeyRoundTrip(c);
    case MoveCursorToPreviousField => KeyRoundTrip(c);
    case MoveCursorToFirstField => KeyRoundTrip(c);
    case SendEnterKey => KeyRoundTrip(c);
    case ClearTextFromField => KeyRoundTrip(c);
    case _ => KeywordRoundTrip(c);
  }

  /** The key presses, named after the keys. */
  lemma KeyRoundTrip(c: Command)
    requires c.MoveCursorToNextField? || c.MoveCursorToPreviousField? || c.MoveCursorToFirstField? || c.SendEnterKey? || c.ClearTextFromField?
    ensures ParseClientMessage(ClientMessage(c)) == Some(c)
  {
    KeywordShape(ClientMessage(c));
  }

  /** `FieldEnd`, the waits and the cursor query. */
  lemma KeywordRoundTrip(c: Command)
    requires c.MoveCursorToFieldEnd? || c.WaitForCurrentField? || c.WaitForUnlock? || c.GetCursor?
    ensures ParseClientMessage(ClientMessage(c)) == Some(c)
  {
    KeywordShape(ClientMessage(c));
  }

  /** A request line never contains a line break of its own unless the text of a `SetText` does, so
      request line plus the one `"\n"` of `execute` is exactly one line on the wire. */
  lemma ClientMessageIsOneLine(c: Command)
    requires c.SetText? ==> '\n' !in c.text
    ensures '\n' !in ClientMessage(c)
  {
    match c
    case GetText(row, column, length) => CallIsOneLine("Ascii", [row, column, length]);
    case GetTextRange(row, column, width, height) => CallIsOneLine("Ascii", [row, column, height, width]);
    case MoveCursor(row, column) => CallIsOneLine("MoveCursor", [row, column]);
    case _ =>
  }

  lemma CallIsOneLine(name: string, values: seq<Byte>)
    requires '\n' !in name && |values| >= 1
    ensures '\n' !in Call(name, values)
  {
    var pieces := Decimals(values);
    forall i | 0 <= i < |pieces| ensures '\n' !in pieces[i] {
      DecimalHasNoSeparator(values[i], '\n');
    }
    JoinAvoids(pieces, ',', '\n');
  }

  // ---------------------------------------------------------------------------------------------
  // Results

  /** The `std::io::Error` of a failed write, flush or read, kept as its `Debug` rendering. */
  datatype IoFault = IoFault(debug: string)

  /** The typed output a command's `build` returns: `()`, `String`, `Vec<String>`, `bool` or `(u8, u8)`. */
  datatype Value =
    | NoValue
    | Text(text: string)
    | Lines(lines: seq<string>)
    | Flag(flag: bool)
    | Position(row: Byte, column: Byte)

  datatype ExecutionResult<T> = Unset | Success(value: T) | IoError(fault: IoFault) | CommandFailure(diagnostic: Option<string>)
  {
    /** `is_err`: every variant but `Success` is an error, `Unset` included. */
    predicate IsErr()
      ensures IsErr() <==> !Success?
    {
      match this
      case Success(_) => false
      case IoError(_) => true
      case CommandFailure(_) => true
      case Unset => true
    }

    /** `is_ok`: the negation of `is_err`. */
    predicate IsOk()
      ensures IsOk() <==> Success?
    {
      !IsErr()
    }

    /** `err`: the `Debug` rendering of the failure, `None` exactly for `Success`. */
    function Err(): (r: Option<string>)
      ensures r.None? <==> Success?
      ensures CommandFailure? ==> r == Some(DebugOption(diagnostic))
      ensures IoError? ==> r == Some(fault.debug)
    {
      match this
      case Success(_) => None
      case IoError(e) => Some(e.debug)
      case CommandFailure(cf) => Some(DebugOption(cf))
      case Unset => Some("ExecutionResult::Unset")
    }
  }

  /** `ExecutionResult::expect` applied to what `execute` returned: the value of a `Success`; any
      other variant panics with the caller's message, and a panic inside `execute` stays a panic. */
  function Expect(r: Run<ExecutionResult<Value>>): (v: Run<Value>)
    ensures v.Returned? <==> r.Returned? && r.value.Success?
    ensures v.Returned? ==> v.value == r.value.value
    ensures r.Returned? && !r.value.Success? ==> v == Panicked(ExpectFailed)
  {
    match r
    case Panicked(p) => Panicked(p)
    case Returned(x) => if x.Success? then Returned(x.value) else Panicked(ExpectFailed)
  }

  /** `format!("{:?}", ch)` inside a string literal (`char::escape_debug`): the quote and the
      backslash get a backslash, the usual control characters their short escapes, and the other
      ASCII and C1 control characters are written `\u{..}` in hexadecimal. */
  function EscapeDebug(ch: char): string {
    if ch == '"' then "\\\""
    else if ch == '\\' then "\\\\"
    else if ch == '\n' then "\\n"
    else if ch == '\r' then "\\r"
    else if ch == '\t' then "\\t"
    else if ch == '\0' then "\\0"
    else if ch < ' ' || ('\U{7F}' <= ch <= '\U{9F}') then "\\u{" + Hex(ch as nat) + "}"
    else [ch]
  }

  function EscapeDebugString(s: string): string
    decreases |s|
  {
    if |s| == 0 then "" else EscapeDebug(s[0]) + EscapeDebugString(s[1..])
  }

  /** `format!("{:?}", cf)` for an `Option<String>`. */
  function DebugOption(cf: Option<string>): string {
    match cf
    case None => "None"
    case Some(s) => "Some(\"" + EscapeDebugString(s) + "\")"
  }

  /** A C1 control character in a diagnostic is written as its `\u{..}` escape. */
  lemma DebugOfNextLine()
    ensures DebugOption(Some("\U{0085}")) == "Some(\"\\u{85}\")"
  {
    assert Hex(0x85) == "85";
  }

  // ---------------------------------------------------------------------------------------------
  // Response lines

  const DataPrefix := "data: "

  /** `line.starts_with("data: ")`. */
  predicate IsDataLine(line: string) {
    |line| >= |DataPrefix| && line[..|DataPrefix|] == DataPrefix
  }

  /** `line.replacen("data: ", "", 1).replace("\n", "")`: the first occurrence of the prefix is the
      prefix itself, so the payload is the rest of the line with every line break removed. */
  function Payload(line: string): string {
    if |line| < |DataPrefix| then "" else RemoveAll(line[|DataPrefix|..], '\n')
  }

  /** The conclusion line reports success exactly when, trimmed, it is `ok`. */
  predicate IsSuccessfulConclusion(line: string) {
    Trim(line) == "ok"
  }

  /** The conclusion test accepts `ok` with any surrounding whitespace and nothing else. */
  lemma SuccessfulConclusionShape(line: string)
    ensures IsSuccessfulConclusion(line) ==>
      line == Leading(line) + "ok" + Trailing(line) && AllWhitespace(Leading(line)) && AllWhitespace(Trailing(line))
  {
    TrimDecomposes(line);
  }

  /** No data line can pass for a successful conclusion. */
  lemma SuccessfulConclusionIsNotData(line: string)
    ensures IsSuccessfulConclusion(line) ==> !IsDataLine(line)
  {
    if IsSuccessfulConclusion(line) {
      SuccessfulConclusionShape(line);
      var lead := Leading(line);
      if |lead| > 0 {
        assert line[0] == lead[0];
        assert IsWhitespace(line[0]);
      } else {
        assert line[0] == 'o';
      }
    }
  }

  /** A line that starts with a visible character other than `o` is not a successful conclusion. */
  lemma UnsuccessfulConclusion(line: string)
    requires |line| > 0 && !IsWhitespace(line[0]) && line[0] != 'o'
    ensures !IsSuccessfulConclusion(line)
  {
    SuccessfulConclusionShape(line);
  }

  lemma SuccessfulConclusionPadded(before: string, after: string)
    requires AllWhitespace(before) && AllWhitespace(after)
    ensures IsSuccessfulConclusion(before + "ok" + after)
  {
    TrimPadded(before, "ok", after);
  }

  // ---------------------------------------------------------------------------------------------
  // Data accumulators and build

  /** Which reading of `build` applies: the code as written, or what it evidently intends
      (the wait commands reporting success instead of unwrapping an output nothing sets). */
  datatype Revision = AsWritten | Intended

  /** The commands whose `build` returns an output kept in a `RefCell<Option<_>>`. */
  predicate HasOutput(c: Command) {
    c.GetText? || c.GetTextRange? || c.GetCursor? || c.WaitForCurrentField? || c.WaitForUnlock?
  }

  /** The cursor report: `data.split(" ")`, every piece parsed as a `u8` (a failure panics), then
      `position_vector[0]` and `position_vector[1]` (fewer than two pieces panics). */
  function ParsePosition(data: string): (r: Run<(Byte, Byte)>)
    ensures r.Returned? ==>
              && |Split(data, ' ')| >= 2
              && ParseU8(Split(data, ' ')[0]) == Some(r.value.0)
              && ParseU8(Split(data, ' ')[1]) == Some(r.value.1)
    ensures r.Panicked? ==> r.reason == UnparsableCoordinate || r.reason == MissingCoordinate
  {
    var pieces := Split(data, ' ');
    match ParseArguments(pieces)
    case None => Panicked(UnparsableCoordinate)
    case Some(values) =>
      if |values| < 2 then Panicked(MissingCoordinate)
      else
        ParseArgumentsElement(pieces, 0);
        ParseArgumentsElement(pieces, 1);
        Returned((values[0], values[1]))
  }

  lemma {:induction false} ParseArgumentsElement(pieces: seq<string>, i: nat)
    requires ParseArguments(pieces).Some? && i < |pieces|
    ensures ParseU8(pieces[i]) == Some(ParseArguments(pieces).value[i])
    decreases i
  {
    if i > 0 {
      ParseArgumentsElement(pieces[1..], i - 1);
    }
  }

  /** The cursor report the emulator sends, `row column`, parses back to the row and column. */
  lemma ParsePositionOfReport(row: Byte, column: Byte)
    ensures ParsePosition(Decimal(row) + " " + Decimal(column)) == Returned((row, column))
  {
    var values: seq<Byte> := [row, column];
    var text := Decimal(row) + " " + Decimal(column);
    var pieces := Decimals(values);
    assert Join(pieces, ' ') == text by {
      assert pieces[1..] == [Decimal(column)];
    }
    forall i | 0 <= i < |pieces| ensures ' ' !in pieces[i] {
      DecimalHasNoSeparator(values[i], ' ');
    }
    SplitJoin(pieces, ' ');
    ParseDecimalArguments(values);
  }

  /** The lines a `GetTextRange` has gathered so far (`None` before the first one). */
  function LinesSoFar(output: Option<Value>): seq<string> {
    if output.Some? && output.value.Lines? then output.value.lines else []
  }

  /** `append_client_data_response`: what one data line does to the command's output slot. */
  function AppendData(c: Command, output: Option<Value>, data: string): Run<Option<Value>> {
    match c
    case GetText(_, _, _) =>
      if output.Some? then Panicked(ExtraData) else Returned(Some(Text(data)))
    case GetTextRange(_, _, _, _) =>
      Returned(Some(Lines(LinesSoFar(output) + [data])))
    case GetCursor =>
      (match ParsePosition(data)
       case Panicked(p) => Panicked(p)
       case Returned(position) =>
         if output.Some? then Panicked(ExtraData) else Returned(Some(Position(position.0, position.1))))
    case _ => Returned(output)
  }

  /** `build`: unwraps the output slot of the commands that have one. */
  function Build(rev: Revision, c: Command, output: Option<Value>): Run<Value> {
    if rev == Intended && (c.WaitForCurrentField? || c.WaitForUnlock?) then Returned(Flag(true))
    else if HasOutput(c) then (if output.Some? then Returned(output.value) else Panicked(MissingOutput))
    else Returned(NoValue)
  }

  /** The output slot after a sequence of data lines, or the panic one of them causes. */
  function Fold(c: Command, output: Option<Value>, payloads: seq<string>): Run<Option<Value>>
    decreases |payloads|
  {
    if |payloads| == 0 then Returned(output)
    else
      match AppendData(c, output, payloads[0])
      case Panicked(p) => Panicked(p)
      case Returned(next) => Fold(c, next, payloads[1..])
  }

  lemma {:induction false} FoldAppend(c: Command, output: Option<Value>, a: seq<string>, b: seq<string>)
    ensures Fold(c, output, a + b) ==
      match Fold(c, output, a)
      case Panicked(p) => Panicked(p)
      case Returned(mid) => Fold(c, mid, b)
    decreases |a|
  {
    if |a| == 0 {
      assert a + b == b;
    } else {
      assert (a + b)[1..] == a[1..] + b;
      match AppendData(c, output, a[0])
      case Panicked(_) =>
      case Returned(next) => FoldAppend(c, next, a[1..], b);
    }
  }

  /** `GetText` keeps its one data line; a second one panics. */
  lemma FoldSingleText(c: Command, payloads: seq<string>)
    requires c.GetText?
    ensures Fold(c, None, payloads) ==
      if |payloads| == 0 then Returned(None)
      else if |payloads| == 1 then Returned(Some(Text(payloads[0])))
      else Panicked(ExtraData)
  {
    if |payloads| >= 1 {
      assert Fold(c, None, payloads) == Fold(c, Some(Text(payloads[0])), payloads[1..]);
    }
  }

  /** `GetCursor` keeps the position of its one data line; any second data line panics. */
  lemma FoldCursor(payloads: seq<string>)
    ensures |payloads| == 0 ==> Fold(GetCursor, None, payloads) == Returned(None)
    ensures |payloads| == 1 ==>
              Fold(GetCursor, None, payloads) ==
                match ParsePosition(payloads[0])
                case Panicked(p) => Panicked(p)
                case Returned(position) => Returned(Some(Position(position.0, position.1)))
    ensures |payloads| >= 2 ==> Fold(GetCursor, None, payloads).Panicked?
  {
    if |payloads| >= 1 {
      match ParsePosition(payloads[0])
      case Panicked(_) =>
      case Returned(position) =>
        var rest := payloads[1..];
        assert Fold(GetCursor, None, payloads) == Fold(GetCursor, Some(Position(position.0, position.1)), rest);
        if |rest| >= 1 {
          assert AppendData(GetCursor, Some(Position(position.0, position.1)), rest[0]).Panicked?;
        }
    }
  }

  lemma {:induction false} FoldLinesFrom(c: Command, prior: seq<string>, payloads: seq<string>)
    requires c.GetTextRange?
    ensures Fold(c, Some(Lines(prior)), payloads) == Returned(Some(Lines(prior + payloads)))
    decreases |payloads|
  {
    if |payloads| == 0 {
      assert prior + payloads == prior;
    } else {
      FoldLinesFrom(c, prior + [payloads[0]], payloads[1..]);
      assert prior + [payloads[0]] + payloads[1..] == prior + payloads;
    }
  }

  /** `GetTextRange` appends every data line, in arrival order, and never panics. */
  lemma FoldLines(c: Command, payloads: seq<string>)
    requires c.GetTextRange?
    ensures Fold(c, None, payloads) == if |payloads| == 0 then Returned(None) else Returned(Some(Lines(payloads)))
  {
    if |payloads| > 0 {
      assert LinesSoFar(None) + [payloads[0]] == [payloads[0]];
      FoldLinesFrom(c, [payloads[0]], payloads[1..]);
      assert [payloads[0]] + payloads[1..] == payloads;
    }
  }

  /** Commands without an output ignore every data line. */
  lemma {:induction false} FoldIgnored(c: Command, output: Option<Value>, payloads: seq<string>)
    requires !c.GetText? && !c.GetTextRange? && !c.GetCursor?
    ensures Fold(c, output, payloads) == Returned(output)
    decreases |payloads|
  {
    if |payloads| > 0 {
      FoldIgnored(c, output, payloads[1..]);
    }
  }

  /** As written, a wait command's output slot is never set, so a successful wait panics in `build`. */
  lemma WaitPanicsOnSuccess(c: Command, payloads: seq<string>)
    requires c.WaitForCurrentField? || c.WaitForUnlock?
    ensures Fold(c, None, payloads) == Returned(None)
    ensures Build(AsWritten, c, None) == Panicked(MissingOutput)
  {
    FoldIgnored(c, None, payloads);
  }

  // ---------------------------------------------------------------------------------------------
  // The reader loop

  /** One `read_line` result: a line (with its line break, if any) or an I/O error. */
  datatype ReadEvent = Line(text: string) | ReadFailure(fault: IoFault)

  /** The `i`-th read: past the end of the stream `read_line` keeps returning an empty line. */
  function LineAt(events: seq<ReadEvent>, i: nat): ReadEvent {
    if i < |events| then events[i] else Line("")
  }

  /** The events left after reading `k` of them. */
  function Drop(events: seq<ReadEvent>, k: nat): seq<ReadEvent> {
    if k <= |events| then events[k..] else []
  }

  /** All the reader loop uses of one read: a data line's payload, or for any other line whether
      it is a successful conclusion, or the read error. */
  datatype Reply = DataReply(payload: string) | OtherReply(isOk: bool) | FailedRead(fault: IoFault)

  function Classify(event: ReadEvent): Reply {
    match event
    case ReadFailure(f) => FailedRead(f)
    case Line(line) => if IsDataLine(line) then DataReply(Payload(line)) else OtherReply(IsSuccessfulConclusion(line))
  }

  /** The replies of a stream of read events. */
  function Replies(events: seq<ReadEvent>): (replies: seq<Reply>)
    ensures |replies| == |events|
  {
    seq(|events|, i requires 0 <= i < |events| => Classify(events[i]))
  }

  /** The `i`-th reply; past the end of the stream, that of an empty line. */
  function ReplyAt(replies: seq<Reply>, i: nat): Reply {
    if i < |replies| then replies[i] else OtherReply(false)
  }

  /** The reply the loop sees at its `i`-th read is the classification of that read. */
  lemma ReplyOfRead(events: seq<ReadEvent>, i: nat)
    ensures ReplyAt(Replies(events), i) == Classify(LineAt(events, i))
  {
    assert Trim("") == "";
  }

  /** The outcome of one exchange and the number of lines it read. */
  datatype Exchanged = Exchanged(outcome: Run<ExecutionResult<Value>>, consumed: nat)

  /** After the conclusion line: `Success(build())` when it was `ok`, else `CommandFailure(first_line)`. */
  function Conclude(rev: Revision, c: Command, output: Option<Value>, firstLine: Option<string>, successful: bool): Run<ExecutionResult<Value>> {
    if successful then
      match Build(rev, c, output)
      case Returned(v) => Returned(Success(v))
      case Panicked(p) => Panicked(p)
    else Returned(CommandFailure(firstLine))
  }

  /** `Conclude` after the data lines were folded, unless one of them panicked. */
  function AfterFold(rev: Revision, c: Command, fold: Run<Option<Value>>, firstLine: Option<string>, successful: bool): Run<ExecutionResult<Value>> {
    if fold.Panicked? then Panicked(fold.reason) else Conclude(rev, c, fold.value, firstLine, successful)
  }

  /** The reader from the `i`-th read on, in the state the loop of `execute` keeps: a data line at any
      position feeds the accumulator (the very first read also sets `first_line`), the first other line
      marks the status as received, and the next other line is the conclusion. */
  function ReadFrom(rev: Revision, c: Command, replies: seq<Reply>, i: nat, statusReceived: bool,
                    firstLine: Option<string>, output: Option<Value>): (x: Exchanged)
    ensures x.outcome.Returned? ==> !x.outcome.value.Unset?
    ensures i < x.consumed
    decreases (if i < |replies| then |replies| - i else 0) + (if statusReceived then 0 else 1)
  {
    match ReplyAt(replies, i)
    case FailedRead(f) => Exchanged(Returned(IoError(f)), i + 1)
    case DataReply(data) =>
      (match AppendData(c, output, data)
       case Panicked(p) => Exchanged(Panicked(p), i + 1)
       case Returned(next) => ReadFrom(rev, c, replies, i + 1, statusReceived, if i == 0 then Some(data) else firstLine, next))
    case OtherReply(isOk) =>
      if !statusReceived then ReadFrom(rev, c, replies, i + 1, true, firstLine, output)
      else Exchanged(Conclude(rev, c, output, firstLine, isOk), i + 1)
  }

  /** The whole response to one request, read from a fresh reader state. */
  function Respond(rev: Revision, c: Command, replies: seq<Reply>): Exchanged {
    ReadFrom(rev, c, replies, 0, false, None, None)
  }

  /** The exchange over the raw stream. */
  function Exchange(rev: Revision, c: Command, events: seq<ReadEvent>): Exchanged {
    Respond(rev, c, Replies(events))
  }

  /** One data reply: its payload goes to the accumulator, and is the first line if it is read first. */
  lemma ReadDataStep(rev: Revision, c: Command, replies: seq<Reply>, i: nat, data: string,
                     statusReceived: bool, firstLine: Option<string>, output: Option<Value>)
    requires ReplyAt(replies, i) == DataReply(data)
    ensures AppendData(c, output, data).Panicked? ==>
              ReadFrom(rev, c, replies, i, statusReceived, firstLine, output).outcome == Panicked(AppendData(c, output, data).reason)
    ensures AppendData(c, output, data).Returned? ==>
              ReadFrom(rev, c, replies, i, statusReceived, firstLine, output)
              == ReadFrom(rev, c, replies, i + 1, statusReceived, if i == 0 then Some(data) else firstLine, AppendData(c, output, data).value)
  {
  }

  /** One other reply: the status line the first time, the conclusion the second. */
  lemma ReadOtherStep(rev: Revision, c: Command, replies: seq<Reply>, i: nat, isOk: bool,
                      statusReceived: bool, firstLine: Option<string>, output: Option<Value>)
    requires ReplyAt(replies, i) == OtherReply(isOk)
    ensures !statusReceived ==>
              ReadFrom(rev, c, replies, i, statusReceived, firstLine, output) == ReadFrom(rev, c, replies, i + 1, true, firstLine, output)
    ensures statusReceived ==>
              ReadFrom(rev, c, replies, i, statusReceived, firstLine, output) == Exchanged(Conclude(rev, c, output, firstLine, isOk), i + 1)
  {
  }

  /** The replies of a run of data lines with these payloads. */
  function Data(payloads: seq<string>): (replies: seq<Reply>)
    ensures |replies| == |payloads|
  {
    seq(|payloads|, i requires 0 <= i < |payloads| => DataReply(payloads[i]))
  }

  /** `first_line` after the response starts with these data lines. */
  function FirstOf(payloads: seq<string>): Option<string> {
    if |payloads| > 0 then Some(payloads[0]) else None
  }

  /** `first_line` after reading `payloads` from the `i`-th read on. */
  function FirstAfter(i: nat, payloads: seq<string>, firstLine: Option<string>): Option<string> {
    if i == 0 then (if |payloads| > 0 then Some(payloads[0]) else firstLine) else firstLine
  }

  /** The replies from the `i`-th on are data lines with these payloads. */
  predicate DataAt(replies: seq<Reply>, i: nat, payloads: seq<string>) {
    forall k | 0 <= k < |payloads| :: ReplyAt(replies, i + k) == DataReply(payloads[k])
  }

  lemma DataAtTail(replies: seq<Reply>, i: nat, payloads: seq<string>)
    requires |payloads| > 0 && DataAt(replies, i, payloads)
    ensures ReplyAt(replies, i) == DataReply(payloads[0])
    ensures DataAt(replies, i + 1, payloads[1..])
  {
    assert ReplyAt(replies, i + 0) == DataReply(payloads[0]);
    forall k | 0 <= k < |payloads[1..]| ensures ReplyAt(replies, i + 1 + k) == DataReply(payloads[1..][k]) {
      assert ReplyAt(replies, i + (k + 1)) == DataReply(payloads[k + 1]);
    }
  }

  lemma DataAtConcatenation(front: seq<Reply>, payloads: seq<string>, back: seq<Reply>)
    ensures DataAt(front + Data(payloads) + back, |front|, payloads)
  {
    var replies := front + Data(payloads) + back;
    forall k | 0 <= k < |payloads| ensures ReplyAt(replies, |front| + k) == DataReply(payloads[k]) {
      assert replies[|front| + k] == Data(payloads)[k];
    }
  }

  /** One step of `Fold`. */
  lemma FoldStep(c: Command, output: Option<Value>, payloads: seq<string>)
    requires |payloads| > 0
    ensures AppendData(c, output, payloads[0]).Panicked? ==> Fold(c, output, payloads) == Panicked(AppendData(c, output, payloads[0]).reason)
    ensures AppendData(c, output, payloads[0]).Returned? ==> Fold(c, output, payloads) == Fold(c, AppendData(c, output, payloads[0]).value, payloads[1..])
  {
  }

  /** Reading a run of data lines feeds their payloads, in order, to the accumulator. */
  lemma {:induction false} ReadThroughData(rev: Revision, c: Command, replies: seq<Reply>, i: nat, payloads: seq<string>,
                                           statusReceived: bool, firstLine: Option<string>, output: Option<Value>)
    requires DataAt(replies, i, payloads)
    ensures Fold(c, output, payloads).Panicked? ==>
              ReadFrom(rev, c, replies, i, statusReceived, firstLine, output).outcome == Panicked(Fold(c, output, payloads).reason)
    ensures Fold(c, output, payloads).Returned? ==>
              ReadFrom(rev, c, replies, i, statusReceived, firstLine, output)
              == ReadFrom(rev, c, replies, i + |payloads|, statusReceived, FirstAfter(i, payloads, firstLine), Fold(c, output, payloads).value)
    decreases |payloads|
  {
    if |payloads| > 0 {
      ReadDataHead(rev, c, replies, i, payloads, statusReceived, firstLine, output);
      var step := AppendData(c, output, payloads[0]);
      if step.Returned? {
        var first := if i == 0 then Some(payloads[0]) else firstLine;
        ReadThroughData(rev, c, replies, i + 1, payloads[1..], statusReceived, first, step.value);
      }
    }
  }

  /** The first of a run of data lines, in the terms `ReadThroughData` needs for the rest. */
  lemma ReadDataHead(rev: Revision, c: Command, replies: seq<Reply>, i: nat, payloads: seq<string>,
                     statusReceived: bool, firstLine: Option<string>, output: Option<Value>)
    requires DataAt(replies, i, payloads) && |payloads| > 0
    ensures var step := AppendData(c, output, payloads[0]);
      step.Panicked? ==>
        Fold(c, output, payloads) == Panicked(step.reason)
        && ReadFrom(rev, c, replies, i, statusReceived, firstLine, output).outcome == Panicked(step.reason)
    ensures var step := AppendData(c, output, payloads[0]);
      var first := if i == 0 then Some(payloads[0]) else firstLine;
      step.Returned? ==>
        && DataAt(replies, i + 1, payloads[1..])
        && Fold(c, output, payloads) == Fold(c, step.value, payloads[1..])
        && ReadFrom(rev, c, replies, i, statusReceived, firstLine, output)
           == ReadFrom(rev, c, replies, i + 1, statusReceived, first, step.value)
        && FirstAfter(i + 1, payloads[1..], first) == FirstAfter(i, payloads, firstLine)
        && i + 1 + |payloads[1..]| == i + |payloads|
  {
    DataAtTail(replies, i, payloads);
    ReadDataStep(rev, c, replies, i, payloads[0], statusReceived, firstLine, output);
    FoldStep(c, output, payloads);
  }

  /** Up to and including the status line: the data lines before it are folded, the first of them
      is the first line, and the status line itself only marks the status as received. */
  lemma ReadUpToStatus(rev: Revision, c: Command, replies: seq<Reply>, before: seq<string>, status: bool)
    requires DataAt(replies, 0, before) && ReplyAt(replies, |before|) == OtherReply(status)
    ensures Fold(c, None, before).Panicked? ==> Respond(rev, c, replies).outcome == Panicked(Fold(c, None, before).reason)
    ensures Fold(c, None, before).Returned? ==>
              Respond(rev, c, replies) == ReadFrom(rev, c, replies, |before| + 1, true, FirstOf(before), Fold(c, None, before).value)
  {
    ReadThroughData(rev, c, replies, 0, before, false, None, None);
    assert FirstAfter(0, before, None) == FirstOf(before);
    if Fold(c, None, before).Returned? {
      ReadOtherStep(rev, c, replies, |before|, status, false, FirstOf(before), Fold(c, None, before).value);
    }
  }

  /** After the status line: the remaining data lines are folded and the next other line concludes. */
  lemma ReadAfterStatus(rev: Revision, c: Command, replies: seq<Reply>, i: nat, after: seq<string>, isOk: bool,
                        firstLine: Option<string>, output: Option<Value>)
    requires i > 0 && DataAt(replies, i, after) && ReplyAt(replies, i + |after|) == OtherReply(isOk)
    ensures Fold(c, output, after).Panicked? ==>
              ReadFrom(rev, c, replies, i, true, firstLine, output).outcome == Panicked(Fold(c, output, after).reason)
    ensures Fold(c, output, after).Returned? ==>
              ReadFrom(rev, c, replies, i, true, firstLine, output)
              == Exchanged(Conclude(rev, c, Fold(c, output, after).value, firstLine, isOk), i + |after| + 1)
  {
    ReadThroughData(rev, c, replies, i, after, true, firstLine, output);
    assert FirstAfter(i, after, firstLine) == firstLine;
    var fold := Fold(c, output, after);
    if fold.Returned? {
      ReadOtherStep(rev, c, replies, i + |after|, isOk, true, firstLine, fold.value);
    }
  }

  /** The exchange over replies laid out as a complete response. */
  lemma RespondInShape(rev: Revision, c: Command, replies: seq<Reply>, before: seq<string>, status: bool,
                       after: seq<string>, isOk: bool)
    requires DataAt(replies, 0, before) && ReplyAt(replies, |before|) == OtherReply(status)
    requires DataAt(replies, |before| + 1, after) && ReplyAt(replies, |before| + 1 + |after|) == OtherReply(isOk)
    ensures Respond(rev, c, replies).outcome == AfterFold(rev, c, Fold(c, None, before + after), FirstOf(before), isOk)
    ensures Fold(c, None, before + after).Returned? ==> Respond(rev, c, replies).consumed == |before| + |after| + 2
  {
    var i := |before| + 1;
    var fold := Fold(c, None, before);
    if fold.Returned? {
      ReadAfterStatus(rev, c, replies, i, after, isOk, FirstOf(before), fold.value);
    }
    FoldAppend(c, None, before, after);
    ReadUpToStatus(rev, c, replies, before, status);
  }

  /** Where the data lines and the two other lines of a complete response sit. */
  lemma ResponseShape(before: seq<string>, status: bool, after: seq<string>, isOk: bool, rest: seq<Reply>)
    ensures DataAt(Data(before) + [OtherReply(status)] + Data(after) + [OtherReply(isOk)] + rest, 0, before)
    ensures ReplyAt(Data(before) + [OtherReply(status)] + Data(after) + [OtherReply(isOk)] + rest, |before|) == OtherReply(status)
    ensures DataAt(Data(before) + [OtherReply(status)] + Data(after) + [OtherReply(isOk)] + rest, |before| + 1, after)
    ensures ReplyAt(Data(before) + [OtherReply(status)] + Data(after) + [OtherReply(isOk)] + rest, |before| + 1 + |after|)
            == OtherReply(isOk)
  {
    var replies := Data(before) + [OtherReply(status)] + Data(after) + [OtherReply(isOk)] + rest;
    var tail := [OtherReply(status)] + Data(after) + [OtherReply(isOk)] + rest;
    DataAtConcatenation([], before, tail);
    assert [] + Data(before) + tail == replies;
    assert replies[|before|] == OtherReply(status);
    DataAtConcatenation(Data(before) + [OtherReply(status)], after, [OtherReply(isOk)] + rest);
    assert Data(before) + [OtherReply(status)] + Data(after) + ([OtherReply(isOk)] + rest) == replies;
    assert replies[|before| + 1 + |after|] == OtherReply(isOk);
  }

  /** A complete response: data lines, the status line, more data lines and the conclusion line.
      A data line is payload even after the status line; the status line is ignored; the result is
      `Success(build())` exactly when the conclusion, trimmed, is `ok`, and otherwise
      `CommandFailure` carrying the payload of the first line if (and only if) that was a data line. */
  lemma ExchangeOfResponse(rev: Revision, c: Command, before: seq<string>, status: bool, after: seq<string>,
                           isOk: bool, rest: seq<Reply>)
    ensures Respond(rev, c, Data(before) + [OtherReply(status)] + Data(after) + [OtherReply(isOk)] + rest).outcome
              == AfterFold(rev, c, Fold(c, None, before + after), FirstOf(before), isOk)
    ensures Fold(c, None, before + after).Returned? ==>
              Respond(rev, c, Data(before) + [OtherReply(status)] + Data(after) + [OtherReply(isOk)] + rest).consumed
              == |before| + |after| + 2
  {
    ResponseShape(before, status, after, isOk, rest);
    RespondInShape(rev, c, Data(before) + [OtherReply(status)] + Data(after) + [OtherReply(isOk)] + rest,
                   before, status, after, isOk);
  }

  /** A stream that ends after its data lines: the empty reads at the end of the stream are taken for
      the status and the conclusion, so the exchange fails with the first line as its diagnostic. */
  lemma ExchangeOfTruncatedResponse(rev: Revision, c: Command, payloads: seq<string>)
    ensures Respond(rev, c, Data(payloads)).outcome == AfterFold(rev, c, Fold(c, None, payloads), FirstOf(payloads), false)
  {
    var replies := Data(payloads);
    DataAtConcatenation([], payloads, []);
    assert [] + replies + [] == replies;
    ReadThroughData(rev, c, replies, 0, payloads, false, None, None);
    var fold := Fold(c, None, payloads);
    if fold.Returned? {
      var n := |payloads|;
      var first := FirstAfter(0, payloads, None);
      assert first == FirstOf(payloads);
      ReadOtherStep(rev, c, replies, n, false, false, first, fold.value);
      ReadOtherStep(rev, c, replies, n + 1, false, true, first, fold.value);
    }
  }

  /** A read error before the conclusion ends the exchange with that error at once. */
  lemma ExchangeOfReadFailure(rev: Revision, c: Command, before: seq<string>, fault: IoFault, rest: seq<Reply>)
    ensures Respond(rev, c, Data(before) + [FailedRead(fault)] + rest).outcome ==
              if Fold(c, None, before).Panicked? then Panicked(Fold(c, None, before).reason) else Returned(IoError(fault))
  {
    var replies := Data(before) + [FailedRead(fault)] + rest;
    DataAtConcatenation([], before, [FailedRead(fault)] + rest);
    assert [] + Data(before) + ([FailedRead(fault)] + rest) == replies;
    ReadThroughData(rev, c, replies, 0, before, false, None, None);
    assert replies[|before|] == FailedRead(fault);
  }

  /** A wait's `ok` response: as written `build` panics, as intended the wait reports success. */
  lemma WaitOutcome(c: Command, before: seq<string>, status: bool, after: seq<string>)
    requires c.WaitForCurrentField? || c.WaitForUnlock?
    ensures Respond(AsWritten, c, Data(before) + [OtherReply(status)] + Data(after) + [OtherReply(true)]).outcome
            == Panicked(MissingOutput)
    ensures Respond(Intended, c, Data(before) + [OtherReply(status)] + Data(after) + [OtherReply(true)]).outcome
            == Returned(Success(Flag(true)))
  {
    FoldIgnored(c, None, before + after);
    var replies := Data(before) + [OtherReply(status)] + Data(after) + [OtherReply(true)];
    assert replies + [] == replies;
    ExchangeOfResponse(AsWritten, c, before, status, after, true, []);
    ExchangeOfResponse(Intended, c, before, status, after, true, []);
  }

  /** How the lines the emulator writes are classified. */
  lemma ClassifyDataLine(data: string)
    requires '\n' !in data
    ensures Classify(Line(DataPrefix + data + "\n")) == DataReply(data)
  {
    var line := DataPrefix + data + "\n";
    assert line[..|DataPrefix|] == DataPrefix;
    assert line[|DataPrefix|..] == data + "\n";
    RemoveTrailingBreak(data);
  }

  lemma {:induction false} RemoveTrailingBreak(data: string)
    requires '\n' !in data
    ensures RemoveAll(data + "\n", '\n') == data
    decreases |data|
  {
    if |data| == 0 {
      assert data + "\n" == "\n";
    } else {
      assert (data + "\n")[1..] == data[1..] + "\n";
      RemoveTrailingBreak(data[1..]);
      assert [data[0]] + data[1..] == data;
    }
  }

  /** A line that starts with a visible character other than `d` or `o` is an unsuccessful other line. */
  lemma ClassifyUnsuccessful(line: string)
    requires |line| > 0 && !IsWhitespace(line[0]) && line[0] != 'd' && line[0] != 'o'
    ensures Classify(Line(line)) == OtherReply(false)
  {
    if |line| >= |DataPrefix| {
      assert line[..|DataPrefix|][0] == line[0];
    }
    UnsuccessfulConclusion(line);
  }

  /** Any line that does not start with `data: `, trimmed, decides the conclusion. */
  lemma ClassifyOtherLine(line: string)
    requires !IsDataLine(line)
    ensures Classify(Line(line)) == OtherReply(Trim(line) == "ok")
  {
  }

  /** The emulator's conclusion lines, and the empty line read at the end of the stream. */
  lemma ClassifyOk()
    ensures Classify(Line("ok\n")) == OtherReply(true)
  {
    SuccessfulConclusionPadded("", "\n");
    assert "" + "ok" + "\n" == "ok\n";
  }

  lemma ClassifyError()
    ensures Classify(Line("error\n")) == OtherReply(false)
  {
    ClassifyUnsuccessful("error\n");
  }

  lemma ClassifyEndOfStream()
    ensures Classify(Line("")) == OtherReply(false)
  {
    assert Trim("") == "";
  }

  // ---------------------------------------------------------------------------------------------
  // The stream and the command object

  /** The TCP stream to the script port: the bytes written so far, the response lines not yet read,
      the error (if any) that `write_all` and `flush` report, and how many bytes the stream takes
      before `write_all` meets its error. */
  class Connection {
    var written: string
    var pending: seq<ReadEvent>
    const writeFault: Option<IoFault>
    const flushFault: Option<IoFault>
    const accepted: nat

    constructor(incoming: seq<ReadEvent>, writeFault: Option<IoFault>, flushFault: Option<IoFault>, accepted: nat)
      ensures written == "" && pending == incoming
      ensures this.writeFault == writeFault && this.flushFault == flushFault && this.accepted == accepted
    {
      written := "";
      pending := incoming;
      this.writeFault := writeFault;
      this.flushFault := flushFault;
      this.accepted := accepted;
    }

    /** The bytes `write_all` leaves on the stream when it fails: the part the stream took before
        the error, which is never the whole buffer. */
    function WrittenBeforeFault(bytes: string): (r: string)
      requires |bytes| > 0
      reads this
      ensures |r| < |bytes| && r == bytes[..|r|]
      ensures accepted < |bytes| ==> |r| == accepted
    {
      if accepted < |bytes| then bytes[..accepted] else bytes[..|bytes| - 1]
    }

    /** `write_all`: an empty buffer succeeds without writing; otherwise on success every byte is
        appended, and on failure the part written before the error stays on the stream. */
    method WriteAll(bytes: string) returns (fault: Option<IoFault>)
      modifies this`written
      ensures fault == if |bytes| == 0 then None else writeFault
      ensures fault.None? ==> written == old(written) + bytes
      ensures fault.Some? ==> written == old(written) + WrittenBeforeFault(bytes)
    {
      if |bytes| == 0 {
        return None;
      }
      fault := writeFault;
      if fault.None? {
        written := written + bytes;
      } else {
        written := written + WrittenBeforeFault(bytes);
      }
    }

    method Flush() returns (fault: Option<IoFault>)
      ensures fault == flushFault
    {
      fault := flushFault;
    }

    /** `read_line`: the next event; at the end of the stream, an empty line. */
    method ReadLine() returns (event: ReadEvent)
      modifies this`pending
      ensures event == LineAt(old(pending), 0)
      ensures pending == Drop(old(pending), 1)
    {
      if |pending| == 0 {
        event := Line("");
      } else {
        event := pending[0];
        pending := pending[1..];
      }
    }
  }

  /** A command struct: its arguments and the `RefCell<Option<_>>` its data hook fills in. */
  class CommandBuilder {
    const command: Command
    var output: Option<Value>

    constructor(command: Command)
      ensures this.command == command && output == None
    {
      this.command := command;
      output := None;
    }

    /** `append_client_data_response`, with its panic reported as a value. */
    method AppendClientDataResponse(data: string) returns (failure: Option<Panic>)
      modifies this`output
      ensures match AppendData(command, old(output), data)
              case Panicked(p) => failure == Some(p) && output == old(output)
              case Returned(next) => failure == None && output == next
    {
      match AppendData(command, output, data)
      case Panicked(p) =>
        failure := Some(p);
      case Returned(next) =>
        failure := None;
        output := next;
    }
  }

  lemma DropNext(events: seq<ReadEvent>, k: nat)
    ensures LineAt(Drop(events, k), 0) == LineAt(events, k)
    ensures Drop(Drop(events, k), 1) == Drop(events, k + 1)
  {
  }

  /** `CommandBuilder::execute`: write the request line and its newline, flush, then read the
      response. A write or flush error returns `IoError` at once. */
  method Execute(c: Command, conn: Connection) returns (r: Run<ExecutionResult<Value>>)
    modifies conn
    ensures conn.writeFault.Some? ==>
      r == Returned(IoError(conn.writeFault.value)) && conn.pending == old(conn.pending)
      && conn.written == old(conn.written) + conn.WrittenBeforeFault(ClientMessage(c) + "\n")
    ensures conn.writeFault.None? ==> conn.written == old(conn.written) + ClientMessage(c) + "\n"
    ensures conn.writeFault.None? && conn.flushFault.Some? ==>
      r == Returned(IoError(conn.flushFault.value)) && conn.pending == old(conn.pending)
    ensures conn.writeFault.None? && conn.flushFault.None? ==>
      r == Exchange(AsWritten, c, old(conn.pending)).outcome
      && conn.pending == Drop(old(conn.pending), Exchange(AsWritten, c, old(conn.pending)).consumed)
  {
    var clientMessage := ClientMessage(c) + "\n";
    var fault := conn.WriteAll(clientMessage);
    if fault.Some? {
      return Returned(IoError(fault.value));
    }
    fault := conn.Flush();
    if fault.Some? {
      return Returned(IoError(fault.value));
    }
    r := ReadResponse(c, conn);
  }

  /** How much reading the loop of `execute` may still do: the lines left, and the status line if it
      has not come yet (past the end of the stream every read is an empty, other line). */
  function Remaining(replies: seq<Reply>, i: nat, statusReceived: bool): nat {
    (if i < |replies| then |replies| - i else 0) + (if statusReceived then 0 else 1)
  }

  /** One pass of the reading loop: read a line; a read error ends the exchange, a data line goes
      to the accumulator (and is the first line if it is read first), the first other line is the
      status, the next one the conclusion. `stop` is the result of an exchange that ends early. */
  method ReadStep(c: Command, conn: Connection, builder: CommandBuilder, ghost events: seq<ReadEvent>,
                  ghost replies: seq<Reply>, i: nat, statusReceived: bool, firstLine: Option<string>)
    returns (stop: Option<Run<ExecutionResult<Value>>>, statusReceived': bool, firstLine': Option<string>,
             finished: bool, successful: bool)
    requires builder.command == c && replies == Replies(events) && conn.pending == Drop(events, i)
    modifies conn`pending, builder`output
    ensures conn.pending == Drop(events, i + 1)
    ensures stop.Some? ==>
      ReadFrom(AsWritten, c, replies, i, statusReceived, firstLine, old(builder.output)) == Exchanged(stop.value, i + 1)
    ensures stop.None? && !finished ==>
      !successful && Remaining(replies, i + 1, statusReceived') < Remaining(replies, i, statusReceived)
      && ReadFrom(AsWritten, c, replies, i, statusReceived, firstLine, old(builder.output))
         == ReadFrom(AsWritten, c, replies, i + 1, statusReceived', firstLine', builder.output)
    ensures stop.None? && finished ==>
      ReadFrom(AsWritten, c, replies, i, statusReceived, firstLine, old(builder.output))
      == Exchanged(Conclude(AsWritten, c, builder.output, firstLine', successful), i + 1)
  {
    stop, statusReceived', firstLine', finished, successful := None, statusReceived, firstLine, false, false;
    DropNext(events, i);
    ReplyOfRead(events, i);
    var event := conn.ReadLine();
    if event.ReadFailure? {
      stop := Some(Returned(IoError(event.fault)));
      return;
    }
    var line := event.text;
    if IsDataLine(line) {
      line := Payload(line);
      ReadDataStep(AsWritten, c, replies, i, line, statusReceived, firstLine, builder.output);
      if i == 0 {
        firstLine' := Some(line);
      }
      var failure := builder.AppendClientDataResponse(line);
      if failure.Some? {
        stop := Some(Panicked(failure.value));
      }
    } else if !statusReceived {
      ReadOtherStep(AsWritten, c, replies, i, IsSuccessfulConclusion(line), false, firstLine, builder.output);
      statusReceived' := true;
    } else {
      ReadOtherStep(AsWritten, c, replies, i, IsSuccessfulConclusion(line), true, firstLine, builder.output);
      if IsSuccessfulConclusion(line) {
        successful := true;
      }
      finished := true;
    }
  }

  /** The reading loop of `execute`: read lines until the conclusion, then build the result. */
  method ReadResponse(c: Command, conn: Connection) returns (r: Run<ExecutionResult<Value>>)
    modifies conn`pending
    ensures r == Exchange(AsWritten, c, old(conn.pending)).outcome
    ensures conn.pending == Drop(old(conn.pending), Exchange(AsWritten, c, old(conn.pending)).consumed)
  {
    var builder := new CommandBuilder(c);
    ghost var events := conn.pending;
    ghost var replies := Replies(events);
    ghost var x := Respond(AsWritten, c, replies);
    var isFinishedReading := false;
    var isStatusMessageReceived := false;
    var iterationCount: nat := 0;
    var isConclusionSuccessful := false;
    var firstLine: Option<string> := None;
    while !isFinishedReading
      invariant builder.command == c
      invariant conn.pending == Drop(events, iterationCount)
      invariant !isFinishedReading ==> !isConclusionSuccessful
      invariant !isFinishedReading ==>
        ReadFrom(AsWritten, c, replies, iterationCount, isStatusMessageReceived, firstLine, builder.output) == x
      invariant isFinishedReading ==>
        x == Exchanged(Conclude(AsWritten, c, builder.output, firstLine, isConclusionSuccessful), iterationCount)
      decreases (if isFinishedReading then 0 else 1), Remaining(replies, iterationCount, isStatusMessageReceived)
    {
      var stop;
      stop, isStatusMessageReceived, firstLine, isFinishedReading, isConclusionSuccessful :=
        ReadStep(c, conn, builder, events, replies, iterationCount, isStatusMessageReceived, firstLine);
      if stop.Some? {
        return stop.value;
      }
      iterationCount := iterationCount + 1;
    }
    r := Conclude(AsWritten, c, builder.output, firstLine, isConclusionSuccessful);
  }
}
