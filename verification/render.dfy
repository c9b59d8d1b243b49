/** The arithmetic of the redraw `print_tui` performs before every key read.
    What it draws is terminal output and is not modelled; the positions it
    computes are, because in an overflow-checked build a position that
    leaves `u16` (or a size that underflows) aborts the editor. */
module Render {
  import opened Global

  /** Height of the status bar below the text. */
  const BOTTOM_BAR: nat := 1

  /** The screen column `j as u16 + 1 + line_numbers` of the `j`th
      character of a line, before the `u16` range check: `as u16` keeps
      the low 16 bits of the index. */
  function ScreenX(j: nat, gutter: nat): nat {
    j % 0x1_0000 + 1 + gutter
  }

  /** The screen row `i as u16 + 1` of the `i`th line, before the range check. */
  function ScreenY(i: nat): nat {
    i % 0x1_0000 + 1
  }

  /** Drawing a line: each of its characters computes its screen position,
      so an empty line computes none. */
  predicate LineOverflows(line: seq<char>, i: nat, gutter: nat) {
    && |line| > 0
    && (ScreenY(i) > U16_MAX || exists j :: 0 <= j < |line| && ScreenX(j, gutter) > U16_MAX)
  }

  /** `print_tui` with `print_line_nubmers` and `print_content` aborts:
      the status position `terminal_w - 5` underflows, the visible-line
      count `terminal_h - BOTTOM_BAR` underflows, some character's position
      leaves `u16`, or the final cursor position `cur_col + line_numbers`
      does. Every one of these is an arithmetic overflow. */
  predicate PrintOverflows(s: Editor) {
    || s.terminalW < 5
    || s.terminalH < BOTTOM_BAR
    || (exists i :: 0 <= i < |s.lines| && LineOverflows(s.lines[i], i, s.gutter))
    || s.col + s.gutter > U16_MAX
  }

  /** For the one-line buffer the editor keeps, with its gutter of 2, the
      redraw aborts exactly when the terminal is under 5 columns wide or
      has no rows, or when the column or the line length reaches 65534. */
  lemma PrintOverflowsOneLine(s: Editor)
    requires |s.lines| == 1 && s.gutter == 2 && CursorInLine(s)
    ensures PrintOverflows(s) <==>
      s.terminalW < 5 || s.terminalH < 1 || s.col >= U16_MAX - 1 || |s.lines[0]| >= U16_MAX - 1
  {
    var line := s.lines[0];
    if |line| >= U16_MAX - 1 {
      assert ScreenX(U16_MAX - 2, 2) > U16_MAX;
      assert LineOverflows(line, 0, 2);
    } else {
      forall j | 0 <= j < |line|
        ensures ScreenX(j, 2) <= U16_MAX
      {
        assert j % 0x1_0000 == j;
      }
      assert !LineOverflows(line, 0, 2);
    }
  }
}
