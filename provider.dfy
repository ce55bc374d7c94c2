/** The screen operations of `MainframeProvider` (src/mainframe_provider.rs, repeated verbatim in
    src/mainframe_processor.rs), each a fixed sequence of script-port commands sent to the terminal
    and unwrapped with `expect`. Every operation is specified by what it returns, the commands it
    sends and the screen it leaves behind. */
module Provider {
  import opened Common
  import opened Strings
  import opened Protocol
  import opened Emulator

  // ---------------------------------------------------------------------------------------------
  // What the operations compute

  /** `line.pop()`: the line without its last character; an empty line stays empty. */
  function PopLast(line: string): (r: string)
    ensures |line| == 0 ==> r == ""
    ensures |line| > 0 ==> r + [line[|line| - 1]] == line
  {
    if |line| == 0 then line else line[..|line| - 1]
  }

  /** `lines.into_iter().map(|mut line| { line.pop(); line }).collect()`. */
  function PopEach(lines: seq<string>): (r: seq<string>)
    ensures |r| == |lines|
  {
    seq(|lines|, i requires 0 <= i < |lines| => PopLast(lines[i]))
  }

  /** The number of rows `get_screen_text` asks for, fixed in the source whatever the screen's size. */
  const ScreenTextHeight := 24

  /** The screen text `get_screen_text` returns: the first 24 rows of the screen, top to bottom. */
  function ScreenText(s: Screen): seq<string>
    requires Valid(s)
  {
    PopEach(Region(s.buffer, 0, 0, Columns, ScreenTextHeight))
  }

  /** The text `get_text_at_location(x, y, length)` returns: `length` characters from column `x`
      of row `y`; a read the terminal refuses makes `expect` panic. */
  function TextAtLocation(s: Screen, x: Byte, y: Byte, length: Byte): Run<string>
    requires Valid(s)
  {
    if y < Rows && x < Columns && Offset(y, x) + length <= ScreenSize
    then Returned(Slice(s.buffer, Offset(y, x), length))
    else Panicked(ExpectFailed)
  }

  /** The count `get_fields_count` returns: the number of fields, at least one (the loop runs once
      before it compares), and a panic when the `u8` counter would pass 255. */
  function FieldsCount(s: Screen): Run<Byte> {
    if |s.fields| == 0 then Returned(1)
    else if |s.fields| <= 255 then Returned(|s.fields|)
    else Panicked(Overflow)
  }

  /** Where `Tab` followed by `BackTab` leaves the cursor: the start of the field taken as current. */
  function FieldFront(s: Screen): (r: nat)
    requires Valid(s)
    ensures r < ScreenSize
  {
    TabStopValid(s);
    TabStopValid(s.(cursor := TabStop(s)));
    BackTabStop(s.(cursor := TabStop(s)))
  }

  /** Where `FieldEnd` then leaves the cursor. */
  function FieldBack(s: Screen): (r: nat)
    requires Valid(s)
    ensures r < ScreenSize
  {
    TabStopValid(s.(cursor := FieldFront(s)));
    FieldEndStop(s.(cursor := FieldFront(s)))
  }

  /** The early exit of `get_field_vector`. As written it compares the original row with the
      column of the field start; the intended comparison is with the row. */
  predicate OffRow(rev: Revision, original: (Byte, Byte), start: (Byte, Byte)) {
    if rev == AsWritten then original.0 != start.1 else original.0 != start.0
  }

  /** The vector `get_field_vector` computes from its three cursor reports: the original position,
      the start of the current field and its end; something only when the cursor lies on the
      field's row between its first and last column. Reported columns lie on the screen, so the
      `u8` length cannot overflow. */
  function VectorOf(rev: Revision, original: (Byte, Byte), start: (Byte, Byte), end: (Byte, Byte)): Option<(Byte, Byte, Byte)>
    requires end.1 < Columns
  {
    if OffRow(rev, original, start) then None
    else if start.1 <= original.1 <= end.1 then Some((start.0, start.1, end.1 - start.1 + 1))
    else None
  }

  /** The vector `get_field_vector` returns on a screen. */
  function FieldVector(rev: Revision, s: Screen): Option<(Byte, Byte, Byte)>
    requires Valid(s)
  {
    VectorOf(rev, Place(s.cursor), Place(FieldFront(s)), Place(FieldBack(s)))
  }

  /** The screen after `set_text_at_location(x, y, text)` wrote the text and restored the cursor. */
  function WrittenAt(s: Screen, x: Byte, y: Byte, text: string): Screen
    requires Valid(s) && y < Rows && x < Columns && Offset(y, x) + |text| <= ScreenSize
  {
    s.(buffer := Overwrite(s.buffer, Offset(y, x), text))
  }

  /** Where `move_to_field_index(index)` leaves the cursor: on the `index`-th field, counting on
      from the last field to the first again; without fields, at the origin. */
  function FieldIndexStop(s: Screen, index: nat): nat {
    if |s.fields| == 0 then 0 else s.fields[index % |s.fields|].start
  }

  lemma TabFromIndex(s: Screen, k: nat)
    requires Valid(s)
    ensures Valid(s.(cursor := FieldIndexStop(s, k)))
    ensures TabStop(s.(cursor := FieldIndexStop(s, k))) == FieldIndexStop(s, k + 1)
  {
    var n := |s.fields|;
    if n > 0 {
      assert s.fields[k % n].start < ScreenSize;
      TabFromField(s.(cursor := FieldIndexStop(s, k)), k % n);
      NextIndex(k, n);
    }
  }

  /** Counting from `Home`: the first stop and the `n`-th are the first field's start. */
  lemma IndexStopOfHome(s: Screen)
    ensures FieldIndexStop(s, 0) == HomeStop(s)
    ensures FieldIndexStop(s, |s.fields|) == HomeStop(s)
  {
    if |s.fields| > 0 {
      ModOf(|s.fields|, |s.fields|, 1, 0);
    }
  }

  /** The number of `Tab`s from `Home` that bring the cursor back to where it started. */
  function Period(s: Screen): nat {
    if |s.fields| == 0 then 1 else |s.fields|
  }

  /** Counting `Tab`s from `Home`, the cursor reports the first field's position again exactly
      after one period. */
  lemma ComesRound(s: Screen, k: nat)
    requires Valid(s) && 0 < k <= Period(s)
    ensures FieldIndexStop(s, k) < ScreenSize && HomeStop(s) < ScreenSize
    ensures Place(FieldIndexStop(s, k)) == Place(HomeStop(s)) <==> k == Period(s)
  {
    IndexStopOfHome(s);
    if k < |s.fields| {
      IndexStopsDiffer(s, k);
      OffsetOfPlace(FieldIndexStop(s, k));
      OffsetOfPlace(HomeStop(s));
    }
  }

  /** Before the count comes round, the stops differ from the first field's start. */
  lemma IndexStopsDiffer(s: Screen, k: nat)
    requires Valid(s) && 0 < k < |s.fields|
    ensures FieldIndexStop(s, k) == s.fields[k].start != HomeStop(s)
  {
    ModOf(k, |s.fields|, 0, k);
    assert s.fields[0].start + s.fields[0].length <= s.fields[k].start;
  }

  predicate IsNavigation(c: Command) {
    c.MoveCursorToNextField? || c.MoveCursorToPreviousField? || c.MoveCursorToFirstField? || c.MoveCursorToFieldEnd?
  }

  /** Where a navigation command takes the cursor. */
  function Destination(s: Screen, c: Command): nat
    requires IsNavigation(c)
  {
    if c.MoveCursorToNextField? then TabStop(s)
    else if c.MoveCursorToPreviousField? then BackTabStop(s)
    else if c.MoveCursorToFirstField? then HomeStop(s)
    else FieldEndStop(s)
  }

  // ---------------------------------------------------------------------------------------------
  // The commands the operations send

  /** `count` copies of one command. */
  function Repeat(c: Command, count: nat): (r: seq<Command>)
    ensures |r| == count && forall i | 0 <= i < count :: r[i] == c
  {
    seq(count, _ => c)
  }

  /** The rounds of the counting loop: `Tab`, then `Query(Cursor)`, `count` times. */
  function Rounds(count: nat): (r: seq<Command>)
    ensures |r| == 2 * count
  {
    if count == 0 then [] else Rounds(count - 1) + [MoveCursorToNextField, GetCursor]
  }

  function CountingCommands(count: nat, original: (Byte, Byte)): seq<Command> {
    [GetCursor, MoveCursorToFirstField, GetCursor] + Rounds(count) + [MoveCursor(original.0, original.1)]
  }

  /** The commands `get_field_vector` sends, given the original position and the field start. */
  function VectorCommands(rev: Revision, original: (Byte, Byte), start: (Byte, Byte)): seq<Command> {
    [GetCursor, MoveCursorToNextField, MoveCursorToPreviousField, GetCursor]
    + (if OffRow(rev, original, start) then [] else [MoveCursorToFieldEnd, GetCursor])
    + [MoveCursor(original.0, original.1)]
  }

  // ---------------------------------------------------------------------------------------------
  // The provider

  /** `MainframeProvider`: the terminal it drives through `RefCell<ClientInterface>`. */
  class MainframeProvider {
    const terminal: Terminal

    constructor(terminal: Terminal)
      ensures this.terminal == terminal
    {
      this.terminal := terminal;
    }

    /** `execute(GetCursorCommand::new()).expect(..)`: the terminal always answers it. */
    method QueryCursor() returns (place: (Byte, Byte))
      requires Valid(terminal.screen)
      modifies terminal
      ensures place == Place(old(terminal.screen).cursor)
      ensures terminal.screen == old(terminal.screen)
      ensures terminal.log == old(terminal.log) + [GetCursor]
      ensures Transcribed(old(terminal.sent), old(terminal.log), terminal.sent, terminal.log)
    {
      OutcomeOfGetCursor(terminal.screen);
      var out := terminal.Execute(GetCursor);
      var v := Expect(out);
      place := (v.value.row, v.value.column);
    }

    /** `execute(command).expect(..)` for a command without output. */
    method Perform(c: Command) returns (r: Run<()>)
      requires Valid(terminal.screen) && !HasOutput(c)
      modifies terminal
      ensures r == if React(old(terminal.screen), c).ok then Returned(()) else Panicked(ExpectFailed)
      ensures terminal.screen == React(old(terminal.screen), c).next && Valid(terminal.screen)
      ensures terminal.log == old(terminal.log) + [c]
      ensures Transcribed(old(terminal.sent), old(terminal.log), terminal.sent, terminal.log)
    {
      OutcomeWithoutOutput(terminal.screen, c);
      var out := terminal.Execute(c);
      var v := Expect(out);
      r := if v.Returned? then Returned(()) else Panicked(v.reason);
    }

    /** `Tab`, `BackTab`, `Home` or `FieldEnd`: the terminal always accepts them. */
    method Navigate(c: Command)
      requires Valid(terminal.screen) && IsNavigation(c)
      modifies terminal
      ensures terminal.screen == old(terminal.screen).(cursor := Destination(old(terminal.screen), c))
      ensures Valid(terminal.screen)
      ensures terminal.log == old(terminal.log) + [c]
      ensures Transcribed(old(terminal.sent), old(terminal.log), terminal.sent, terminal.log)
    {
      var r := Perform(c);
    }

    /** `MoveCursor(row, column)`: accepted exactly inside the screen. */
    method MoveTo(row: Byte, column: Byte) returns (r: Run<()>)
      requires Valid(terminal.screen)
      modifies terminal
      ensures r == if row < Rows && column < Columns then Returned(()) else Panicked(ExpectFailed)
      ensures terminal.screen == if row < Rows && column < Columns then old(terminal.screen).(cursor := Offset(row, column)) else old(terminal.screen)
      ensures Valid(terminal.screen)
      ensures terminal.log == old(terminal.log) + [MoveCursor(row, column)]
      ensures Transcribed(old(terminal.sent), old(terminal.log), terminal.sent, terminal.log)
    {
      r := Perform(MoveCursor(row, column));
    }

    /** `get_screen_text`: one region read of the top 24 rows, each row losing its last character. */
    method GetScreenText() returns (lines: seq<string>)
      requires Valid(terminal.screen)
      modifies terminal
      ensures lines == ScreenText(old(terminal.screen))
      ensures terminal.screen == old(terminal.screen)
      ensures terminal.log == old(terminal.log) + [GetTextRange(0, 0, 80, 24)]
      ensures Transcribed(old(terminal.sent), old(terminal.log), terminal.sent, terminal.log)
    {
      OutcomeOfGetTextRange(terminal.screen, 0, 0, 80, 24);
      var out := terminal.Execute(GetTextRange(0, 0, 80, 24));
      var v := Expect(out);
      lines := PopEach(v.value.lines);
    }

    /** `get_text_at_location`: one read, with the row `y` sent before the column `x`. */
    method GetTextAtLocation(x: Byte, y: Byte, length: Byte) returns (r: Run<string>)
      requires Valid(terminal.screen)
      modifies terminal
      ensures r == TextAtLocation(old(terminal.screen), x, y, length)
      ensures terminal.screen == old(terminal.screen)
      ensures terminal.log == old(terminal.log) + [GetText(y, x, length)]
      ensures Transcribed(old(terminal.sent), old(terminal.log), terminal.sent, terminal.log)
    {
      OutcomeOfGetText(terminal.screen, y, x, length);
      var out := terminal.Execute(GetText(y, x, length));
      var v := Expect(out);
      if v.Panicked? {
        return Panicked(v.reason);
      }
      r := Returned(v.value.text);
    }

    /** One round of `get_fields_count`: `Tab` from the `k`-th stop to the next, then its position. */
    method NextFieldPlace(ghost s: Screen, ghost k: nat) returns (place: (Byte, Byte))
      requires Valid(s) && terminal.screen == s.(cursor := FieldIndexStop(s, k))
      modifies terminal
      ensures terminal.screen == s.(cursor := FieldIndexStop(s, k + 1)) && Valid(terminal.screen)
      ensures place == Place(FieldIndexStop(s, k + 1))
      ensures terminal.log == old(terminal.log) + [MoveCursorToNextField, GetCursor]
      ensures Transcribed(old(terminal.sent), old(terminal.log), terminal.sent, terminal.log)
    {
      ghost var w0, l0 := terminal.sent, terminal.log;
      TabFromIndex(s, k);
      Navigate(MoveCursorToNextField);
      ghost var w1, l1 := terminal.sent, terminal.log;
      place := QueryCursor();
      TranscribedTrans(w0, l0, w1, l1, terminal.sent, terminal.log);
    }

    /** The start of `get_fields_count`: the original position, then `Home` and the position of
        the first field. */
    method LocateFirstField() returns (original: (Byte, Byte), first: (Byte, Byte))
      requires Valid(terminal.screen)
      modifies terminal
      ensures original == Place(old(terminal.screen).cursor)
      ensures first == Place(HomeStop(old(terminal.screen)))
      ensures terminal.screen == old(terminal.screen).(cursor := HomeStop(old(terminal.screen)))
      ensures Valid(terminal.screen)
      ensures terminal.log == old(terminal.log) + [GetCursor, MoveCursorToFirstField, GetCursor]
      ensures Transcribed(old(terminal.sent), old(terminal.log), terminal.sent, terminal.log)
    {
      ghost var w0, l0 := terminal.sent, terminal.log;
      original := QueryCursor();
      ghost var w1, l1 := terminal.sent, terminal.log;
      Navigate(MoveCursorToFirstField);
      TranscribedTrans(w0, l0, w1, l1, terminal.sent, terminal.log);
      ghost var w2, l2 := terminal.sent, terminal.log;
      first := QueryCursor();
      TranscribedTrans(w0, l0, w2, l2, terminal.sent, terminal.log);
    }

    /** `get_fields_count`: from the first field, `Tab` and query until the cursor is back where
        `Home` put it, counting the rounds; then restore the cursor. */
    method GetFieldsCount() returns (r: Run<Byte>)
      requires Valid(terminal.screen)
      modifies terminal
      ensures r == FieldsCount(old(terminal.screen))
      ensures r.Returned? ==> terminal.screen == old(terminal.screen)
      ensures r.Returned? ==> terminal.log == old(terminal.log) + CountingCommands(r.value, Place(old(terminal.screen).cursor))
      ensures r.Panicked? ==> terminal.log == old(terminal.log) + [GetCursor, MoveCursorToFirstField, GetCursor] + Rounds(255)
      ensures Transcribed(old(terminal.sent), old(terminal.log), terminal.sent, terminal.log)
    {
      ghost var s := terminal.screen;
      ghost var n := |s.fields|;
      ghost var w0, l0 := terminal.sent, terminal.log;
      var currentCursorPosition, firstFieldCursorPosition := LocateFirstField();
      var fieldsCount: Byte := 0;
      var currentFieldCursorPosition: Option<(Byte, Byte)> := None;
      ghost var prefix := terminal.log;
      IndexStopOfHome(s);
      while currentFieldCursorPosition.None? || currentFieldCursorPosition.value != firstFieldCursorPosition
        invariant Valid(terminal.screen) && terminal.screen == s.(cursor := FieldIndexStop(s, fieldsCount as int))
        invariant currentCursorPosition == Place(s.cursor)
        invariant firstFieldCursorPosition == Place(HomeStop(s))
        invariant fieldsCount as int <= Period(s)
        invariant currentFieldCursorPosition.None? <==> fieldsCount == 0
        invariant currentFieldCursorPosition.Some? ==> currentFieldCursorPosition.value == Place(terminal.screen.cursor)
        invariant terminal.log == prefix + Rounds(fieldsCount as int)
        invariant Transcribed(w0, l0, terminal.sent, terminal.log)
        decreases Period(s) - fieldsCount as int
      {
        if fieldsCount > 0 {
          ComesRound(s, fieldsCount as int);
        }
        if fieldsCount == 255 {
          return Panicked(Overflow);
        }
        ghost var w1, l1 := terminal.sent, terminal.log;
        var place := NextFieldPlace(s, fieldsCount as int);
        TranscribedTrans(w0, l0, w1, l1, terminal.sent, terminal.log);
        MoreRounds(prefix, fieldsCount as int);
        fieldsCount := fieldsCount + 1;
        currentFieldCursorPosition := Some(place);
      }
      ComesRound(s, fieldsCount as int);
      ghost var w2, l2 := terminal.sent, terminal.log;
      var restored := MoveTo(currentCursorPosition.0, currentCursorPosition.1);
      TranscribedTrans(w0, l0, w2, l2, terminal.sent, terminal.log);
      OffsetOfPlace(s.cursor);
      Associative(old(terminal.log), [GetCursor, MoveCursorToFirstField, GetCursor], Rounds(fieldsCount as int), [MoveCursor(currentCursorPosition.0, currentCursorPosition.1)]);
      r := Returned(fieldsCount);
    }

    /** The first half of `get_field_vector`: the original position, then `Tab` and `BackTab`
        to the start of the field taken as current, and its position. */
    method LocateFieldStart() returns (original: (Byte, Byte), start: (Byte, Byte))
      requires Valid(terminal.screen)
      modifies terminal
      ensures original == Place(old(terminal.screen).cursor)
      ensures start == Place(FieldFront(old(terminal.screen)))
      ensures terminal.screen == old(terminal.screen).(cursor := FieldFront(old(terminal.screen)))
      ensures terminal.log == old(terminal.log) + [GetCursor, MoveCursorToNextField, MoveCursorToPreviousField, GetCursor]
      ensures Transcribed(old(terminal.sent), old(terminal.log), terminal.sent, terminal.log)
    {
      ghost var w0, l0 := terminal.sent, terminal.log;
      original := QueryCursor();
      ghost var w1, l1 := terminal.sent, terminal.log;
      Navigate(MoveCursorToNextField);
      TranscribedTrans(w0, l0, w1, l1, terminal.sent, terminal.log);
      ghost var w2, l2 := terminal.sent, terminal.log;
      Navigate(MoveCursorToPreviousField);
      TranscribedTrans(w0, l0, w2, l2, terminal.sent, terminal.log);
      ghost var w3, l3 := terminal.sent, terminal.log;
      start := QueryCursor();
      TranscribedTrans(w0, l0, w3, l3, terminal.sent, terminal.log);
    }

    /** The second half of `get_field_vector`: `FieldEnd`, and the position it reaches. */
    method LocateFieldEnd() returns (end: (Byte, Byte))
      requires Valid(terminal.screen)
      modifies terminal
      ensures end == Place(FieldEndStop(old(terminal.screen)))
      ensures terminal.screen == old(terminal.screen).(cursor := FieldEndStop(old(terminal.screen)))
      ensures terminal.log == old(terminal.log) + [MoveCursorToFieldEnd, GetCursor]
      ensures Transcribed(old(terminal.sent), old(terminal.log), terminal.sent, terminal.log)
    {
      ghost var w0, l0 := terminal.sent, terminal.log;
      Navigate(MoveCursorToFieldEnd);
      ghost var w1, l1 := terminal.sent, terminal.log;
      end := QueryCursor();
      TranscribedTrans(w0, l0, w1, l1, terminal.sent, terminal.log);
    }

    /** `get_field_vector`: find the field's start with `Tab` and `BackTab`, its end with `FieldEnd`,
        and restore the cursor on every path. */
    method GetFieldVector(rev: Revision) returns (vector: Option<(Byte, Byte, Byte)>)
      requires Valid(terminal.screen)
      modifies terminal
      ensures vector == FieldVector(rev, old(terminal.screen))
      ensures terminal.screen == old(terminal.screen)
      ensures terminal.log == old(terminal.log) + VectorCommands(rev, Place(old(terminal.screen).cursor), Place(FieldFront(old(terminal.screen))))
      ensures Transcribed(old(terminal.sent), old(terminal.log), terminal.sent, terminal.log)
    {
      ghost var s := terminal.screen;
      ghost var log := terminal.log;
      ghost var w0, l0 := terminal.sent, terminal.log;
      var originalCursorPosition, startingCursorPosition := LocateFieldStart();
      ghost var w1, l1 := terminal.sent, terminal.log;
      ghost var located := [GetCursor, MoveCursorToNextField, MoveCursorToPreviousField, GetCursor];
      ghost var commands := VectorCommands(rev, originalCursorPosition, startingCursorPosition);
      OffsetOfPlace(s.cursor);
      if OffRow(rev, originalCursorPosition, startingCursorPosition) {
        var restored := MoveTo(originalCursorPosition.0, originalCursorPosition.1);
        TranscribedTrans(w0, l0, w1, l1, terminal.sent, terminal.log);
        Associative(log, located, [], [MoveCursor(originalCursorPosition.0, originalCursorPosition.1)]);
        assert terminal.log == log + commands;
        return None;
      }
      var endingCursorPosition := LocateFieldEnd();
      TranscribedTrans(w0, l0, w1, l1, terminal.sent, terminal.log);
      ghost var w2, l2 := terminal.sent, terminal.log;
      var restored := MoveTo(originalCursorPosition.0, originalCursorPosition.1);
      TranscribedTrans(w0, l0, w2, l2, terminal.sent, terminal.log);
      Associative(log, located, [MoveCursorToFieldEnd, GetCursor], [MoveCursor(originalCursorPosition.0, originalCursorPosition.1)]);
      assert terminal.log == log + commands;
      vector := VectorOf(rev, originalCursorPosition, startingCursorPosition, endingCursorPosition);
    }

    /** `set_text_at_location`: save the cursor, move to (`y`, `x`), type the text, move back. */
    method SetTextAtLocation(x: Byte, y: Byte, text: string) returns (r: Run<()>)
      requires Valid(terminal.screen)
      modifies terminal
      ensures r.Returned? <==> y < Rows && x < Columns && '\n' !in text && Offset(y, x) + |text| <= ScreenSize
      ensures r.Panicked? ==> r.reason == ExpectFailed
      ensures !(y < Rows && x < Columns) ==>
        terminal.screen == old(terminal.screen) && terminal.log == old(terminal.log) + [GetCursor, MoveCursor(y, x)]
      ensures y < Rows && x < Columns && r.Panicked? ==>
        terminal.screen == old(terminal.screen).(cursor := Offset(y, x))
        && terminal.log == old(terminal.log) + [GetCursor, MoveCursor(y, x), SetText(text)]
      ensures r.Returned? ==>
        terminal.screen == WrittenAt(old(terminal.screen), x, y, text)
        && terminal.log == old(terminal.log)
           + [GetCursor, MoveCursor(y, x), SetText(text), MoveCursor(RowOf(old(terminal.screen).cursor), ColumnOf(old(terminal.screen).cursor))]
      ensures Transcribed(old(terminal.sent), old(terminal.log), terminal.sent, terminal.log)
    {
      ghost var s := terminal.screen;
      ghost var w0, l0 := terminal.sent, terminal.log;
      var currentCursorPosition := QueryCursor();
      ghost var w1, l1 := terminal.sent, terminal.log;
      var moved := MoveTo(y, x);
      TranscribedTrans(w0, l0, w1, l1, terminal.sent, terminal.log);
      if moved.Panicked? {
        return moved;
      }
      PlaceOfOffset(y, x);
      ghost var w2, l2 := terminal.sent, terminal.log;
      var typed := Perform(SetText(text));
      TranscribedTrans(w0, l0, w2, l2, terminal.sent, terminal.log);
      if typed.Panicked? {
        return typed;
      }
      OverwriteAvoids(s.buffer, Offset(y, x), text, '\n');
      ghost var w3, l3 := terminal.sent, terminal.log;
      var restored := MoveTo(currentCursorPosition.0, currentCursorPosition.1);
      TranscribedTrans(w0, l0, w3, l3, terminal.sent, terminal.log);
      OffsetOfPlace(s.cursor);
      r := restored;
    }

    /** `move_to_field_index`: `Home`, then `Tab` `index` times. */
    method MoveToFieldIndex(index: Byte)
      requires Valid(terminal.screen)
      modifies terminal
      ensures terminal.screen == old(terminal.screen).(cursor := FieldIndexStop(old(terminal.screen), index))
      ensures terminal.log == old(terminal.log) + [MoveCursorToFirstField] + Repeat(MoveCursorToNextField, index)
      ensures Transcribed(old(terminal.sent), old(terminal.log), terminal.sent, terminal.log)
    {
      ghost var s := terminal.screen;
      ghost var w0, l0 := terminal.sent, terminal.log;
      Navigate(MoveCursorToFirstField);
      IndexStopOfHome(s);
      if index > 0 {
        for i := 0 to index
          invariant Valid(terminal.screen)
          invariant terminal.screen == s.(cursor := FieldIndexStop(s, i))
          invariant terminal.log == old(terminal.log) + [MoveCursorToFirstField] + Repeat(MoveCursorToNextField, i)
          invariant Transcribed(w0, l0, terminal.sent, terminal.log)
        {
          TabFromIndex(s, i);
          ghost var w1, l1 := terminal.sent, terminal.log;
          Navigate(MoveCursorToNextField);
          TranscribedTrans(w0, l0, w1, l1, terminal.sent, terminal.log);
        }
      }
    }
  }

  lemma MoreRounds(prefix: seq<Command>, k: nat)
    ensures prefix + Rounds(k) + [MoveCursorToNextField, GetCursor] == prefix + Rounds(k + 1)
  {
    assert Rounds(k + 1) == Rounds(k) + [MoveCursorToNextField, GetCursor];
  }

  lemma Associative(a: seq<Command>, b: seq<Command>, c: seq<Command>, d: seq<Command>)
    ensures a + b + c + d == a + (b + c + d)
  {
  }

  lemma {:induction false} MulLess(a: nat, b: nat, n: nat)
    requires a < b
    ensures a * n + n <= b * n
    decreases b - a
  {
    assert (a + 1) * n == a * n + n;
    if a + 1 < b {
      MulLess(a + 1, b, n);
    }
  }

  lemma ModOf(a: nat, n: nat, q: nat, r: nat)
    requires n > 0 && r < n && a == q * n + r
    ensures a % n == r && a / n == q
  {
    var q', r' := a / n, a % n;
    if q' < q { MulLess(q', q, n); }
    if q < q' { MulLess(q, q', n); }
  }

  /** Counting on by one from an index modulo `n`. */
  lemma NextIndex(i: nat, n: nat)
    requires n > 0
    ensures i % n + 1 < n ==> (i + 1) % n == i % n + 1
    ensures i % n + 1 == n ==> (i + 1) % n == 0
  {
    var q, r := i / n, i % n;
    if r + 1 < n {
      ModOf(i + 1, n, q, r + 1);
    } else {
      assert i + 1 == (q + 1) * n + 0;
      ModOf(i + 1, n, q + 1, 0);
    }
  }

  // ---------------------------------------------------------------------------------------------
  // What the operations promise

  /** The screen text has 24 lines, the screen's first rows in order, each without its last column. */
  lemma ScreenTextRows(s: Screen)
    requires Valid(s)
    ensures |ScreenText(s)| == ScreenTextHeight
    ensures forall i | 0 <= i < ScreenTextHeight :: ScreenText(s)[i] == Slice(s.buffer, Offset(i, 0), Columns - 1)
  {
    var rows := Region(s.buffer, 0, 0, Columns, ScreenTextHeight);
    forall i | 0 <= i < ScreenTextHeight ensures ScreenText(s)[i] == Slice(s.buffer, Offset(i, 0), Columns - 1) {
      assert rows[i] == Slice(s.buffer, Offset(i, 0), Columns);
    }
  }

  /** Reading back what `set_text_at_location` wrote gives the text. */
  lemma WrittenTextReadsBack(s: Screen, x: Byte, y: Byte, text: string)
    requires Valid(s) && y < Rows && x < Columns && '\n' !in text && Offset(y, x) + |text| <= ScreenSize && |text| < 256
    ensures Valid(WrittenAt(s, x, y, text))
    ensures TextAtLocation(WrittenAt(s, x, y, text), x, y, |text|) == Returned(text)
  {
    OverwriteAvoids(s.buffer, Offset(y, x), text, '\n');
    SliceOfOverwrite(s.buffer, Offset(y, x), text);
  }

  /** Writing back, at the same place, the text just read there leaves the screen as it was. The
      text read holds no line break and has the length asked for, so `set_text_at_location` of it
      succeeds, and by its contract the screen it leaves is this one. */
  lemma ReadThenWrite(s: Screen, x: Byte, y: Byte, length: Byte)
    requires Valid(s) && TextAtLocation(s, x, y, length).Returned?
    ensures var text := TextAtLocation(s, x, y, length).value;
            && |text| == length && '\n' !in text && Offset(y, x) + |text| <= ScreenSize
            && WrittenAt(s, x, y, text) == s
  {
    var text := TextAtLocation(s, x, y, length).value;
    var o := Offset(y, x);
    assert text == s.buffer[o..o + length];
    assert s.buffer[..o] + text + s.buffer[o + length..] == s.buffer;
  }

  /** With the cursor inside a field that lies on one row, the corrected operation returns that
      field's row, first column and length. */
  lemma FieldVectorOfField(s: Screen, k: nat)
    requires Valid(s) && k < |s.fields|
    requires s.fields[k].start <= s.cursor < s.fields[k].start + s.fields[k].length
    requires RowOf(s.fields[k].start) == RowOf(s.fields[k].start + s.fields[k].length - 1)
    ensures FieldVector(Intended, s) == Some((RowOf(s.fields[k].start), ColumnOf(s.fields[k].start), s.fields[k].length))
  {
    TabThenBackTab(s, k);
    FieldEndFromStart(s.(cursor := s.fields[k].start), k);
  }

  /** As written, the same call returns nothing whenever the field's row and column differ. */
  lemma FieldVectorMixup(s: Screen, k: nat)
    requires Valid(s) && k < |s.fields|
    requires s.fields[k].start <= s.cursor < s.fields[k].start + s.fields[k].length
    requires RowOf(s.fields[k].start) == RowOf(s.fields[k].start + s.fields[k].length - 1)
    requires RowOf(s.fields[k].start) != ColumnOf(s.fields[k].start)
    ensures FieldVector(AsWritten, s) == None
  {
    TabThenBackTab(s, k);
  }

  /** A field at row 5, column 3, ten columns long, with the cursor at row 5, column 6. */
  lemma FieldVectorExample(buffer: string)
    requires |buffer| == ScreenSize && '\n' !in buffer
    ensures FieldVector(AsWritten, Screen(buffer, Offset(5, 6), [Field(Offset(5, 3), 10)])) == None
    ensures FieldVector(Intended, Screen(buffer, Offset(5, 6), [Field(Offset(5, 3), 10)])) == Some((5, 3, 10))
  {
    var s := Screen(buffer, Offset(5, 6), [Field(Offset(5, 3), 10)]);
    FieldVectorOfField(s, 0);
    FieldVectorMixup(s, 0);
  }
}
