/** The editor's main loop as a pure state machine: each iteration
    refreshes the terminal size and the gutter, redraws, reads at most one
    key, decodes it in the current mode and applies the command. */
module EditorLoop {
  import opened Fallible
  import opened Keys
  import opened LineBuffer
  import opened Global
  import opened Commands
  import opened Render

  /** What the outside world supplies to one iteration: the answer of the
      terminal-size query and the key read, if any. A failed or empty read
      (`None`) makes the loop start over without decoding anything. */
  datatype Tick = Tick(size: Option<(U16, U16)>, key: Option<Key>)

  /** The editor just before the loop: `Global::new` plus one empty line. */
  function Init(): (s: Editor)
    ensures Valid(s) && s.lines == [[]] && s.mode == Normal
  {
    NewLine(New(), [])
  }

  /** The invariant of every reachable state: the buffer still holds
      exactly the one line pushed at startup, and the cursor is on it, at a
      character or just past the end. */
  predicate Valid(s: Editor) {
    |s.lines| == 1 && CursorInLine(s)
  }

  /** The per-iteration recomputation that precedes each key read. */
  function Refresh(s: Editor, size: Option<(U16, U16)>): (r: Editor)
    ensures r.lines == s.lines && r.row == s.row && r.col == s.col && r.mode == s.mode
    ensures r.gutter == GutterWidth(|s.lines|) >= 2
  {
    UpdateLineNumbers(UpdateTerminalSize(s, size))
  }

  /** The refresh is idempotent, so a failed key read that sends the loop
      round again without a key changes nothing more than one refresh
      (and redraws, which aborts only if it already would have). */
  lemma RefreshIdempotent(s: Editor, size: Option<(U16, U16)>)
    ensures Refresh(Refresh(s, size), size) == Refresh(s, size)
    ensures Step(Refresh(s, size), Tick(size, None)) ==
      if PrintOverflows(Refresh(s, size)) then Crashed(ArithmeticOverflow)
      else Running(Refresh(s, size))
  {
  }

  /** One iteration of the loop: refresh, redraw, then decode and apply
      the key read, if any. */
  function Step(s: Editor, t: Tick): (o: Outcome)
    ensures o.Exited? <==>
      !PrintOverflows(Refresh(s, t.size)) && s.mode == Normal && t.key == Some(Char('q'))
    ensures o.Exited? ==> o.state == Refresh(s, t.size)
    ensures PrintOverflows(Refresh(s, t.size)) ==> o == Crashed(ArithmeticOverflow)
    ensures !o.Crashed? ==> |o.state.lines| == |s.lines|
    ensures o.Running? ==> o.state.gutter == GutterWidth(|s.lines|)
  {
    var s1 := Refresh(s, t.size);
    if PrintOverflows(s1) then Crashed(ArithmeticOverflow)
    else
      match t.key
      case None => Running(s1)
      case Some(k) => Apply(s1, Decode(s1.mode, k))
  }

  /** The loop over a finite stream of ticks; it stops at the first
      `Exited` or `Crashed` outcome, and is still `Running` when the
      stream runs out. No stream changes the number of lines, and the loop
      is only ever left from Normal mode. */
  function Run(s: Editor, ticks: seq<Tick>): (o: Outcome)
    ensures !o.Crashed? ==> |o.state.lines| == |s.lines|
    ensures o.Exited? ==> o.state.mode == Normal
    decreases |ticks|
  {
    if |ticks| == 0 then Running(s)
    else
      match Step(s, ticks[0])
      case Running(s') => Run(s', ticks[1..])
      case other => other
  }

  /** The loop is a fold: running two streams back to back is running the
      second from where the first left off, and an exit or abort is final. */
  lemma {:induction false} RunAppend(s: Editor, a: seq<Tick>, b: seq<Tick>)
    ensures Run(s, a + b) ==
      match Run(s, a)
      case Running(s') => Run(s', b)
      case o => o
    decreases |a|
  {
    if |a| == 0 {
      assert a + b == b;
    } else {
      assert (a + b)[0] == a[0];
      assert (a + b)[1..] == a[1..] + b;
      if Step(s, a[0]).Running? {
        RunAppend(Step(s, a[0]).state, a[1..], b);
      }
    }
  }

  /** The gutter of a one-line buffer is 2, so its left boundary
      `gutter - 1` is column 1. */
  lemma OneLineGutter(s: Editor)
    requires |s.lines| == 1
    ensures GutterWidth(|s.lines|) == 2
  {
    assert Decimal.ToDecimal(1) == ['1'];
  }

  /** From a valid state, a command applied after the refresh either keeps
      the state valid or aborts on a `u16` overflow of the column, and
      that happens exactly when the column is already 65535 and the command
      is a character insertion, or a step right on a line of 65535 or more
      characters. */
  lemma ApplyPreservesValid(s: Editor, cmd: Command)
    requires Valid(s) && s.gutter == 2
    ensures !Apply(s, cmd).Crashed? ==> Valid(Apply(s, cmd).state)
    ensures Apply(s, cmd).Crashed? <==>
      s.col == U16_MAX && (cmd.InsertChar? || (cmd == MoveRight && |s.lines[0]| >= U16_MAX))
    ensures Apply(s, cmd).Crashed? ==> Apply(s, cmd).fault == ArithmeticOverflow
  {
    match cmd
    case MoveUp =>
    case MoveDown =>
    case MoveRight =>
    case MoveLeft =>
    case InsertChar(c) =>
    case DeleteChar =>
    case _ =>
  }

  /** `Step` keeps `Valid`, and can only abort in the redraw: on a
      terminal under 5 columns or without rows, or once the column or the
      line length has reached 65534. The column overflow of the command
      applier is never reached, because the redraw aborts first. */
  lemma StepPreservesValid(s: Editor, t: Tick)
    requires Valid(s)
    ensures !Step(s, t).Crashed? ==> Valid(Step(s, t).state)
    ensures Step(s, t).Crashed? <==>
      || UpdateTerminalSize(s, t.size).terminalW < 5
      || UpdateTerminalSize(s, t.size).terminalH < 1
      || s.col >= U16_MAX - 1
      || |s.lines[0]| >= U16_MAX - 1
    ensures Step(s, t).Crashed? ==> Step(s, t).fault == ArithmeticOverflow
  {
    var s1 := Refresh(s, t.size);
    OneLineGutter(s);
    PrintOverflowsOneLine(s1);
    if !PrintOverflows(s1) && t.key.Some? {
      ApplyPreservesValid(s1, Decode(s1.mode, t.key.value));
    }
  }

  /** Over any stream of ticks from a valid state, the loop never indexes
      out of bounds: it ends valid, or aborts on an arithmetic overflow. */
  lemma {:induction false} RunPreservesValid(s: Editor, ticks: seq<Tick>)
    requires Valid(s)
    ensures !Run(s, ticks).Crashed? ==> Valid(Run(s, ticks).state)
    ensures Run(s, ticks).Crashed? ==> Run(s, ticks).fault == ArithmeticOverflow
    decreases |ticks|
  {
    if |ticks| > 0 {
      StepPreservesValid(s, ticks[0]);
      if Step(s, ticks[0]).Running? {
        RunPreservesValid(Step(s, ticks[0]).state, ticks[1..]);
      }
    }
  }

  /** The buffer of the running editor is never empty: it is always the
      single line pushed at startup. */
  lemma BufferNeverEmpty(ticks: seq<Tick>)
    ensures !Run(Init(), ticks).Crashed? ==> |Run(Init(), ticks).state.lines| == 1
  {
  }

  /** A terminal-size answer the redraw can work with: the fallback, or
      at least 5 columns and one row. */
  predicate SizeDrawable(size: Option<(U16, U16)>) {
    size.None? || (size.value.0 >= 5 && size.value.1 >= BOTTOM_BAR)
  }

  /** In Insert mode, typing a character and then pressing Backspace gives
      back the line and the column it started from, as long as neither
      redraw aborts. */
  lemma TypeThenBackspace(s: Editor, c: char, z1: Option<(U16, U16)>, z2: Option<(U16, U16)>)
    requires Valid(s) && s.mode == Insert
    requires s.col < U16_MAX - 2 && |s.lines[0]| < U16_MAX - 2
    requires SizeDrawable(z1) && SizeDrawable(z2)
    ensures Step(s, Tick(z1, Some(Char(c)))).Running?
    ensures var s2 := Step(Step(s, Tick(z1, Some(Char(c)))).state, Tick(z2, Some(Backspace)));
      && s2.Running?
      && s2.state.lines == s.lines
      && s2.state.col == s.col && s2.state.row == s.row && s2.state.mode == Insert
  {
    var s0 := Refresh(s, z1);
    OneLineGutter(s);
    PrintOverflowsOneLine(s0);
    InsertThenDelete(s0, c);
    var s1 := Step(s, Tick(z1, Some(Char(c)))).state;
    assert s1 == Apply(s0, InsertChar(c)).state;
    var s1' := Refresh(s1, z2);
    OneLineGutter(s1);
    PrintOverflowsOneLine(s1');
    assert s1' == s1.(terminalW := s1'.terminalW, terminalH := s1'.terminalH);
    assert Apply(s1', DeleteChar).Running?;
  }

  /** A key press with the terminal-size query failing. */
  function Press(k: Key): Tick {
    Tick(None, Some(k))
  }

  const TypeEraseQuitKeys: seq<Tick> :=
    [Press(Char('a')), Press(Char('h')), Press(Char('i')), Press(Backspace),
     Press(Esc), Press(Char('x')), Press(Char('q')), Press(Char('z'))]

  /** The states the scenario below passes through, one key at a time. */
  lemma TypeEraseQuitSteps()
    ensures Step(Init(), Press(Char('a'))) == Running(Editor(20, 20, 1, 1, 2, Insert, [[]]))
    ensures Step(Editor(20, 20, 1, 1, 2, Insert, [[]]), Press(Char('h')))
         == Running(Editor(20, 20, 1, 2, 2, Insert, ["h"]))
    ensures Step(Editor(20, 20, 1, 2, 2, Insert, ["h"]), Press(Char('i')))
         == Running(Editor(20, 20, 1, 3, 2, Insert, ["hi"]))
    ensures Step(Editor(20, 20, 1, 3, 2, Insert, ["hi"]), Press(Backspace))
         == Running(Editor(20, 20, 1, 2, 2, Insert, ["h"]))
    ensures Step(Editor(20, 20, 1, 2, 2, Insert, ["h"]), Press(Esc))
         == Running(Editor(20, 20, 1, 2, 2, Normal, ["h"]))
    ensures Step(Editor(20, 20, 1, 2, 2, Normal, ["h"]), Press(Char('x')))
         == Running(Editor(20, 20, 1, 2, 2, Normal, ["h"]))
    ensures Step(Editor(20, 20, 1, 2, 2, Normal, ["h"]), Press(Char('q')))
         == Exited(Editor(20, 20, 1, 2, 2, Normal, ["h"]))
  {
    var n0 := Editor(20, 20, 1, 1, 2, Normal, [[]]);
    var i1 := Editor(20, 20, 1, 1, 2, Insert, [[]]);
    var i2 := Editor(20, 20, 1, 2, 2, Insert, ["h"]);
    var i3 := Editor(20, 20, 1, 3, 2, Insert, ["hi"]);
    var n2 := Editor(20, 20, 1, 2, 2, Normal, ["h"]);
    OneLineGutter(n0);
    assert Step(Init(), Press(Char('a'))) == Running(i1) by {
      PrintOverflowsOneLine(n0);
    }
    assert Step(i1, Press(Char('h'))) == Running(i2) by {
      PrintOverflowsOneLine(i1);
      var h := VecInsert([], 0, 'h');
      assert h.Ok? && h.value == "h";
    }
    assert Step(i2, Press(Char('i'))) == Running(i3) by {
      PrintOverflowsOneLine(i2);
      var hi := VecInsert("h", 1, 'i');
      assert hi.Ok? && hi.value == "hi";
    }
    assert Step(i3, Press(Backspace)) == Running(i2) by {
      PrintOverflowsOneLine(i3);
      var r := VecRemove("hi", 1);
      assert r.Ok? && r.value == "h";
    }
    assert Step(i2, Press(Esc)) == Running(n2) by {
      PrintOverflowsOneLine(i2);
    }
    assert Step(n2, Press(Char('x'))) == Running(n2) by {
      PrintOverflowsOneLine(n2);
    }
    assert Step(n2, Press(Char('q'))) == Exited(n2) by {
      PrintOverflowsOneLine(n2);
    }
  }

  /** From startup: `a` enters Insert mode, `h` `i` are typed, Backspace
      erases the `i`, Escape returns to Normal mode, `x` is ignored and `q`
      quits, leaving the line "h" with the cursor after it; the trailing
      `z` is never read. */
  lemma ScenarioTypeEraseQuit()
    ensures Run(Init(), TypeEraseQuitKeys) == Exited(Editor(20, 20, 1, 2, 2, Normal, ["h"]))
  {
    var ticks := TypeEraseQuitKeys;
    var s1 := Editor(20, 20, 1, 1, 2, Insert, [[]]);
    var s2 := Editor(20, 20, 1, 2, 2, Insert, ["h"]);
    var s3 := Editor(20, 20, 1, 3, 2, Insert, ["hi"]);
    var s4 := s2.(mode := Normal);
    TypeEraseQuitSteps();
    assert Run(s4, ticks[6..]) == Exited(s4);
    assert Run(s4, ticks[5..]) == Exited(s4);
    assert Run(s2, ticks[4..]) == Exited(s4);
    assert Run(s3, ticks[3..]) == Exited(s4);
    assert Run(s2, ticks[2..]) == Exited(s4);
    assert Run(s1, ticks[1..]) == Exited(s4);
  }

  /** From startup, pressing `x` in Normal mode changes nothing but the
      refreshed gutter and terminal size. */
  lemma ScenarioUnboundKey()
    ensures Run(Init(), [Press(Char('x'))]) == Running(Editor(20, 20, 1, 1, 2, Normal, [[]]))
  {
    OneLineGutter(Init());
    PrintOverflowsOneLine(Editor(20, 20, 1, 1, 2, Normal, [[]]));
  }
}
