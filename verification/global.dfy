/** The editor state record `Global` and its helper methods. */
module Global {
  import opened Fallible
  import opened Decimal
  import opened Keys
  import opened LineBuffer

  /** The range of Rust's `u16`. */
  type U16 = x: int | 0 <= x < 0x1_0000
  const U16_MAX: U16 := 0xFFFF

  /** Terminal size used when the size query fails. */
  const FALLBACK_SIZE: U16 := 20

  /** The editor state. `row` and `col` are the 1-based cursor position in
      the text; `gutter` is the width of the line-number column
      (`line_numbers`). The source stores `gutter` as a `u16`; it is kept
      as a `nat` here, and `GutterFitsU16` shows the conversion never
      truncates. */
  datatype Editor = Editor(
    terminalW: U16,
    terminalH: U16,
    row: U16,
    col: U16,
    gutter: nat,
    mode: Mode,
    lines: seq<Line>)

  /** `Global::new`: cursor at (1, 1), Normal mode, no lines, no gutter. */
  function New(): (s: Editor)
    ensures s.row == 1 && s.col == 1 && s.mode == Normal
    ensures |s.lines| == 0 && s.gutter == 0
  {
    Editor(0, 0, 1, 1, 0, Normal, [])
  }

  /** `Global::new_line`: appends a line below all others. */
  function NewLine(s: Editor, line: Line): (r: Editor)
    ensures |r.lines| == |s.lines| + 1
    ensures r.lines[..|s.lines|] == s.lines && r.lines[|s.lines|] == line
    ensures r == s.(lines := r.lines)
  {
    s.(lines := s.lines + [line])
  }

  /** `Global::update_terminal_size`: `query` is what the terminal reported,
      if anything; a failed query falls back to 20 by 20. */
  function UpdateTerminalSize(s: Editor, query: Option<(U16, U16)>): (r: Editor)
    ensures query.None? ==> r.terminalW == FALLBACK_SIZE && r.terminalH == FALLBACK_SIZE
    ensures query.Some? ==> (r.terminalW, r.terminalH) == query.value
    ensures r == s.(terminalW := r.terminalW, terminalH := r.terminalH)
  {
    var (w, h) := if query.Some? then query.value else (FALLBACK_SIZE, FALLBACK_SIZE);
    s.(terminalW := w, terminalH := h)
  }

  /** Width of the gutter for a buffer of `n` lines: the length of the
      decimal numeral of `n`, plus one for the separator. */
  function GutterWidth(n: nat): nat {
    |ToDecimal(n)| + 1
  }

  /** `Global::update_line_numbers`: the gutter is one more than the number
      of decimal digits of the line count, so it is at least 2 and
      `gutter - 1` cannot underflow. */
  function UpdateLineNumbers(s: Editor): (r: Editor)
    ensures r == s.(gutter := r.gutter)
    ensures r.gutter >= 2
    ensures |s.lines| < Pow10(r.gutter - 1)
    ensures |s.lines| > 0 ==> Pow10(r.gutter - 2) <= |s.lines|
    ensures |s.lines| == 0 ==> r.gutter == 2
  {
    DecimalLength(|s.lines|);
    s.(gutter := GutterWidth(|s.lines|))
  }

  /** A `Vec` holds fewer than 2^64 elements, so the gutter is at most 21
      and its conversion to `u16` is exact. */
  lemma GutterFitsU16(n: nat)
    requires n < 0x1_0000_0000_0000_0000
    ensures GutterWidth(n) <= 21
  {
    UsizeDigits(n);
  }

  /** `Global::current_line`: the 0-based index of the cursor's line.
      `cur_row as usize - 1` underflows on row 0, and the indexing aborts
      past the last line. */
  function CurrentLine(s: Editor): (r: Result<nat>)
    ensures r.Ok? <==> 1 <= s.row <= |s.lines|
    ensures r.Ok? ==> r.value == s.row - 1
    ensures r.Panic? ==> r.fault == (if s.row == 0 then ArithmeticOverflow else IndexOutOfBounds)
  {
    if s.row == 0 then Panic(ArithmeticOverflow)
    else if s.row - 1 < |s.lines| then Ok(s.row - 1)
    else Panic(IndexOutOfBounds)
  }

  /** The cursor is on an existing line, at a character of it or just past
      its end. */
  predicate CursorInLine(s: Editor) {
    && 1 <= s.row <= |s.lines|
    && 1 <= s.col <= |s.lines[s.row - 1]| + 1
  }
}
