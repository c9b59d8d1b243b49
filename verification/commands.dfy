/** The command applier: the `match cmd` block of the editor loop, one
    function per command, and `Apply` dispatching on the decoded command. */
module Commands {
  import opened Fallible
  import opened Keys
  import opened LineBuffer
  import opened Global

  /** What one command does to the loop: it keeps running with a new state,
      it breaks out of the loop (Exited), or the process aborts. */
  datatype Outcome =
    | Running(state: Editor)
    | Exited(state: Editor)
    | Crashed(fault: Fault)

  /** `MoveUp`: one row up unless already on row 1; never aborts. */
  function MoveUp(s: Editor): (r: Editor)
    ensures r == s.(row := r.row)
    ensures r.row < s.row <==> s.row > 1
    ensures r.row <= s.row <= r.row + 1
    ensures 1 <= s.row <= |s.lines| ==> 1 <= r.row <= |s.lines|
  {
    if s.row > 1 then s.(row := s.row - 1) else s
  }

  /** `MoveDown`: one row down only while `row + 1 < lines.len()`, so the
      cursor never steps onto the last line from above. */
  function MoveDown(s: Editor): (r: Result<Editor>)
    ensures r.Panic? <==> s.row + 1 < |s.lines| && s.row == U16_MAX
    ensures r.Panic? ==> r.fault == ArithmeticOverflow
    ensures r.Ok? ==> r.value == s.(row := r.value.row)
    ensures r.Ok? ==> (r.value.row > s.row <==> s.row + 1 < |s.lines|)
    ensures r.Ok? ==> s.row <= r.value.row <= s.row + 1
    ensures r.Ok? && 1 <= s.row <= |s.lines| ==> 1 <= r.value.row <= |s.lines|
    ensures r.Ok? && r.value.row == |s.lines| ==> s.row == |s.lines|
  {
    if s.row + 1 < |s.lines| then
      if s.row == U16_MAX then Panic(ArithmeticOverflow) else Ok(s.(row := s.row + 1))
    else Ok(s)
  }

  /** `MoveRight`: one column right while the cursor is before the
      one-past-the-end position of its line. */
  function MoveRight(s: Editor): (r: Result<Editor>)
    ensures CurrentLine(s).Panic? ==> r == Panic(CurrentLine(s).fault)
    ensures CurrentLine(s).Ok? ==>
      (r.Panic? <==> s.col == U16_MAX && s.col < |s.lines[s.row - 1]| + 1)
    ensures r.Panic? && CurrentLine(s).Ok? ==> r.fault == ArithmeticOverflow
    ensures r.Ok? ==> r.value == s.(col := r.value.col)
    ensures r.Ok? ==> s.col <= r.value.col <= s.col + 1
    ensures r.Ok? ==> (r.value.col > s.col <==> s.col < |s.lines[s.row - 1]| + 1)
    ensures r.Ok? && CursorInLine(s) ==> CursorInLine(r.value)
  {
    var i :- CurrentLine(s);
    if s.col < |s.lines[i]| + 1 then
      if s.col == U16_MAX then Panic(ArithmeticOverflow) else Ok(s.(col := s.col + 1))
    else Ok(s)
  }

  /** `MoveLeft`: one column left while the cursor is right of
      `gutter - 1`; `gutter - 1` underflows when the gutter is 0. */
  function MoveLeft(s: Editor): (r: Result<Editor>)
    ensures r.Panic? <==> s.gutter == 0
    ensures r.Panic? ==> r.fault == ArithmeticOverflow
    ensures r.Ok? ==> r.value == s.(col := r.value.col)
    ensures r.Ok? ==> r.value.col <= s.col <= r.value.col + 1
    ensures r.Ok? ==> (r.value.col < s.col <==> s.col > s.gutter - 1)
    ensures r.Ok? ==> r.value.col >= s.gutter - 1 || r.value.col == s.col
    ensures r.Ok? && CursorInLine(s) && s.gutter >= 2 ==> CursorInLine(r.value)
  {
    if s.gutter == 0 then Panic(ArithmeticOverflow)
    else if s.col > s.gutter - 1 then Ok(s.(col := s.col - 1))
    else Ok(s)
  }

  /** The `InsertChar(c)` command: puts `c` at 0-based index `col - 1` of
      the current line and moves the cursor one column right. */
  function InsertAtCursor(s: Editor, c: char): (r: Result<Editor>)
    ensures CursorInLine(s) ==> (r.Panic? <==> s.col == U16_MAX)
    ensures CursorInLine(s) && r.Panic? ==> r.fault == ArithmeticOverflow
    ensures r.Ok? ==> CursorInLine(s)
    ensures r.Ok? ==>
      var i := s.row - 1;
      && r.value == s.(col := r.value.col, lines := r.value.lines)
      && r.value.col == s.col + 1
      && |r.value.lines| == |s.lines|
      && |r.value.lines[i]| == |s.lines[i]| + 1
      && r.value.lines[i][s.col - 1] == c
      && r.value.lines[i][..s.col - 1] == s.lines[i][..s.col - 1]
      && r.value.lines[i][s.col..] == s.lines[i][s.col - 1..]
      && (forall j :: 0 <= j < |s.lines| && j != i ==> r.value.lines[j] == s.lines[j])
    ensures r.Ok? ==> CursorInLine(r.value)
  {
    var i :- CurrentLine(s);
    if s.col == 0 then Panic(ArithmeticOverflow)
    else
      var line :- VecInsert(s.lines[i], s.col - 1, c);
      if s.col == U16_MAX then Panic(ArithmeticOverflow)
      else Ok(s.(lines := s.lines[i := line], col := s.col + 1))
  }

  /** The `DeleteChar` command (backspace): when the cursor is right of
      `gutter - 1`, moves it one column left and removes the character it
      now stands on; otherwise nothing happens. */
  function DeleteBeforeCursor(s: Editor): (r: Result<Editor>)
    ensures s.gutter == 0 ==> r == Panic(ArithmeticOverflow)
    ensures s.gutter > 0 && s.col <= s.gutter - 1 ==> r == Ok(s)
    ensures CursorInLine(s) && s.gutter >= 2 ==> r.Ok?
    ensures r.Ok? && s.gutter > 0 && s.col > s.gutter - 1 ==>
      var i := s.row - 1;
      var k := r.value.col;
      && CursorInLine(s)
      && r.value == s.(col := k, lines := r.value.lines)
      && k == s.col - 1 >= 1
      && |r.value.lines| == |s.lines|
      && |r.value.lines[i]| == |s.lines[i]| - 1
      && r.value.lines[i][..k - 1] == s.lines[i][..k - 1]
      && r.value.lines[i][k - 1..] == s.lines[i][k..]
      && (forall j :: 0 <= j < |s.lines| && j != i ==> r.value.lines[j] == s.lines[j])
    ensures r.Ok? && CursorInLine(s) && s.gutter >= 2 ==> CursorInLine(r.value)
  {
    if s.gutter == 0 then Panic(ArithmeticOverflow)
    else if s.col > s.gutter - 1 then
      var t := s.(col := s.col - 1);
      var i :- CurrentLine(t);
      if t.col == 0 then Panic(ArithmeticOverflow)
      else
        var line :- VecRemove(t.lines[i], t.col - 1);
        Ok(t.(lines := t.lines[i := line]))
    else Ok(s)
  }

  function Lift(r: Result<Editor>): (o: Outcome)
    ensures o.Running? <==> r.Ok?
    ensures o.Running? ==> o.state == r.value
    ensures o.Crashed? ==> o.fault == r.fault
  {
    match r
    case Ok(s) => Running(s)
    case Panic(f) => Crashed(f)
  }

  /** One pass through the `match cmd` block of the loop. */
  function Apply(s: Editor, cmd: Command): (o: Outcome)
    // Quit breaks the loop and is the only way to do so.
    ensures o.Exited? <==> cmd == Quit
    ensures o.Exited? ==> o.state == s
    // No command adds or removes a line, or touches the gutter or terminal size.
    ensures !o.Crashed? ==> |o.state.lines| == |s.lines|
    ensures !o.Crashed? ==>
      o.state.gutter == s.gutter && o.state.terminalW == s.terminalW && o.state.terminalH == s.terminalH
    // Only the two edit commands change text, and only on the cursor's line.
    ensures o.Running? && !cmd.InsertChar? && !cmd.DeleteChar? ==> o.state.lines == s.lines
    ensures o.Running? ==>
      forall j :: 0 <= j < |s.lines| && j != s.row - 1 ==> o.state.lines[j] == s.lines[j]
    // Only the mode commands change the mode.
    ensures o.Running? ==>
      o.state.mode == (if cmd == EnterNormalMode then Normal else if cmd == EnterInsertMode then Insert else s.mode)
    // Mode switches and Invalid leave the state as it was apart from the mode.
    ensures o.Running? && (cmd == Invalid || cmd == EnterNormalMode || cmd == EnterInsertMode) ==>
      o.state == s.(mode := o.state.mode)
    // Moves and edits change nothing but the cursor and the text.
    ensures o.Running? && (cmd.IsMove() || cmd.InsertChar? || cmd.DeleteChar?) ==>
      o.state == s.(row := o.state.row, col := o.state.col, lines := o.state.lines)
  {
    match cmd
    case Quit => Exited(s)
    case EnterNormalMode => Running(s.(mode := Normal))
    case EnterInsertMode => Running(s.(mode := Insert))
    case MoveUp => Running(MoveUp(s))
    case MoveDown => Lift(MoveDown(s))
    case MoveRight => Lift(MoveRight(s))
    case MoveLeft => Lift(MoveLeft(s))
    case InsertChar(c) => Lift(InsertAtCursor(s, c))
    case DeleteChar => Lift(DeleteBeforeCursor(s))
    case Invalid => Running(s)
  }

  /** Typing a character and then backspacing restores the line and the
      column, whenever the first keystroke does not abort. */
  lemma InsertThenDelete(s: Editor, c: char)
    requires CursorInLine(s) && 1 <= s.gutter <= s.col + 1 && s.col < U16_MAX
    ensures Apply(s, InsertChar(c)).Running?
    ensures var s1 := Apply(s, InsertChar(c)).state;
      Apply(s1, DeleteChar) == Running(s)
  {
    var s1 := InsertAtCursor(s, c).value;
    var i := s.row - 1;
    var s2 := DeleteBeforeCursor(s1).value;
    assert s2.lines[i] == s.lines[i] by {
      assert s2.lines[i] == s2.lines[i][..s.col - 1] + s2.lines[i][s.col - 1..];
      assert s.lines[i] == s.lines[i][..s.col - 1] + s.lines[i][s.col - 1..];
    }
    assert s2.lines == s.lines;
  }

  /** A step right that moved is undone by a step left once the gutter has
      been computed. */
  lemma RightThenLeft(s: Editor)
    requires CursorInLine(s) && s.gutter == 2
    requires MoveRight(s).Ok? && MoveRight(s).value != s
    ensures MoveLeft(MoveRight(s).value) == Ok(s)
  {
  }

  /** A step up that moved is undone by a step down, except from the last
      line, because `MoveDown` stops one row short of it. */
  lemma UpThenDown(s: Editor)
    requires 1 < s.row <= |s.lines|
    ensures MoveDown(MoveUp(s)) == (if s.row < |s.lines| then Ok(s) else Ok(MoveUp(s)))
  {
  }

  /** In a two-line buffer `MoveDown` never reaches the second line. */
  lemma MoveDownStopsShortOfLastLine(s: Editor)
    requires |s.lines| == 2 && s.row == 1
    ensures MoveDown(s) == Ok(s)
  {
  }

  /** Vertical moves do not clamp the column: moving up from the end of a
      long line onto a shorter one leaves the cursor past the end of the
      shorter line. Unreachable in the editor, whose buffer keeps its one
      line. */
  lemma VerticalMoveIgnoresColumn()
    ensures var s := Editor(20, 20, 2, 4, 2, Normal, ["", "abc", ""]);
      CursorInLine(s) && !CursorInLine(MoveUp(s))
  {
  }
}
