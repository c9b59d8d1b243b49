# wisp: the modal editing core, in Dafny

This project models the core of the `wisp` terminal text editor (`src/main.rs`):
a small modal editor with a Normal and an Insert mode over a buffer of lines of
characters. Each pass of its main loop does four things:

1. It refreshes the terminal size and the width of the line-number gutter.
2. It redraws the screen (`print_tui`).
3. It reads one key and decodes it, according to the current mode, into a command.
4. It applies that command: a cursor move clamped to the text, a mode switch, a
   typed character, a backspace, or quit.

The model is functional. The `Global` record is an immutable `Editor` datatype over
`seq<seq<char>>`. `parse_command` is the pure `Keys.Decode`. The `match cmd` block is
`Commands.Apply`, with one function per command. The loop is `EditorLoop.Step`, folded
over a finite stream of ticks by `EditorLoop.Run`.

The source is a Rust program built with overflow checks. In such a build, a `u16` or
`usize` that leaves its range aborts the process, and so does a `Vec` index, insert or
remove out of range. The model does not forbid those inputs. It returns them as
`Panic`/`Crashed` values carrying a `Fault`, so every operation is total. The cursor row
and column are `U16` (`0..65535`).

Main results:

- `EditorLoop.Valid` holds in every reachable state. It says the buffer is the one line
  pushed at startup and the cursor sits on that line, at a character or one past the end.
- `Step` preserves `Valid`.
- The loop never indexes out of bounds. Its only aborts are arithmetic overflows in
  the redraw that precedes every key read (`Render.PrintOverflows`). The redraw aborts
  when the terminal is under 5 columns wide or has no rows. It also aborts once the
  cursor column or the line length reaches 65534, because the screen position
  `cur_col + line_numbers` (or a character's position) then leaves `u16`.
  `StepPreservesValid` states exactly when an iteration aborts.
- The command applier on its own would abort on the `u16` overflow of the column at
  65535 (`ApplyPreservesValid`). The editor never gets there, because the redraw has
  already aborted at 65534.
- `Run` is a fold of `Step` (`RunAppend`): an exit or an abort is final.
- Typing a character and then pressing Backspace restores the line and the column.
- `Decode` agrees with an independent table of the Normal-mode bindings.
  `Quit` comes only from `q` in Normal mode.
- The gutter is the number of decimal digits of the line count, plus one. So it is at
  least 2, and `line_numbers - 1` never underflows.

The model keeps the source's quirks as written:

- `MoveDown` advances only while `cur_row + 1 < lines.len()`, so it never steps onto the
  last line (`MoveDownStopsShortOfLastLine`, `UpThenDown`).
- Vertical moves do not clamp the column (`VerticalMoveIgnoresColumn`).
- The left boundary of `MoveLeft` and of Backspace is `line_numbers - 1`, not the gutter
  width.

None of these quirks can be observed in the editor, because its buffer never has more
than one line.

`src/main.rs` has no code for a command-line (`:`) mode, save, a forward delete, line
splitting, Tab expansion, or column clamping after vertical moves. The terminal library
reports Enter as the character `'\n'` and Tab as `'\t'`. In Normal mode, Enter, Tab and
`x` therefore decode to `Invalid`. In Insert mode, Enter inserts a literal `'\n'` into
the line and Tab a literal `'\t'`; nothing splits the line or expands the tab.

Files: `fallible.dfy` (Option, Result, Fault), `decimal.dfy` (`usize::to_string` and
digit counts), `keys.dfy` (Key, Mode, Command, `parse_command`), `line.dfy`
(`Vec::insert`/`Vec::remove` on a line), `global.dfy` (the `Global` record and its
helpers), `commands.dfy` (the command applier), `render.dfy` (the overflow checks of
the redraw), `editor_loop.dfy` (the loop, the invariant and the scenarios).

## Model

| member | source | states |
|---|---|---|
| Decimal.ToDecimal | src/main.rs:66 | the rendering of a line count is a non-empty string of decimal digits with no leading zero, and zero renders as exactly "0" |
| Decimal.FromToDecimal | src/main.rs:66 | reading the rendered numeral back gives the line count again |
| Decimal.DecimalLength | src/main.rs:65-67 | the numeral has exactly the number of digits the value needs: below the next power of ten and, unless zero, at least the previous one |
| Global.GutterFitsU16 | src/main.rs:67 | for any `Vec` length (below 2^64) the gutter is at most 21, so `as u16` never truncates it |
| Keys.Decode | src/main.rs:106-128 | Normal mode maps a key to a command through the binding table `a j k l h q`, and every other key to Invalid; Insert mode types `Char(c)` as `InsertChar(c)`, maps Esc to EnterNormalMode, Backspace to DeleteChar and anything else to Invalid, and never yields a move; Quit comes exactly from `q` in Normal mode |
| LineBuffer.VecInsert | src/main.rs:182 | inserting puts `c` at the index, keeps the prefix, shifts the rest right and grows the line by one; it aborts exactly when the index is past the end |
| LineBuffer.VecRemove | src/main.rs:189 | removing drops exactly the character at the index, keeps the prefix and shifts the rest left; it aborts exactly when no character is there |
| LineBuffer.RemoveAfterInsert | src/main.rs:180-191 | removing at the index just inserted at gives back the original line |
| LineBuffer.InsertAfterRemove | src/main.rs:189 | re-inserting the removed character at its index gives back the original line |
| Global.New | src/main.rs:49-59 | a new editor has its cursor at (1, 1), is in Normal mode, and has no lines and a zero gutter |
| Global.NewLine | src/main.rs:69-71 | pushing a line appends it after all existing lines and changes nothing else |
| Global.UpdateTerminalSize | src/main.rs:60-64 | the size is the one reported, or 20 by 20 when the query fails; nothing else changes |
| Global.UpdateLineNumbers | src/main.rs:65-68 | the gutter becomes at least 2 and equals one more than the digit count of the line count: bounded by powers of ten for a non-empty buffer, and exactly 2 (the length of "0", plus one) for an empty one; nothing else changes |
| Global.CurrentLine | src/main.rs:72-74 | the current line's index is `row - 1` exactly when `1 <= row <= lines.len()`; row 0 underflows and a row past the end is an index fault |
| Commands.MoveUp | src/main.rs:160-164 | moves up one row exactly when the row is above 1, never leaves `1..lines.len()`, and changes nothing but the row |
| Commands.MoveDown | src/main.rs:165-169 | moves down one row exactly when `row + 1 < lines.len()`, so it never steps onto the last line from above; it keeps the row in range, and aborts only on a `u16` overflow of the row |
| Commands.MoveRight | src/main.rs:170-174 | moves right one column exactly when the column is before one-past-the-end of the line, so it never passes `len + 1`; it keeps the cursor in the line and aborts only on the `u16` overflow at 65535 or on a bad row |
| Commands.MoveLeft | src/main.rs:175-179 | moves left one column exactly when the column is right of `gutter - 1`; it keeps the cursor at column 1 or more once the gutter is at least 2, and aborts only when the gutter is 0 |
| Commands.InsertAtCursor | src/main.rs:180-184 | puts `c` at 0-based index `col - 1` of the current line, grows that line by one, advances the column by one, and leaves the row, the mode and every other line unchanged; from a valid cursor it aborts only when the column is 65535 |
| Commands.DeleteBeforeCursor | src/main.rs:185-191 | when the column is right of `gutter - 1`, it moves the column one left and removes exactly the character at the new column, leaving every other line unchanged; otherwise it changes nothing; from a valid cursor with gutter at least 2 it never aborts |
| Commands.Apply | src/main.rs:156-193 | Quit exits and is the only command that does; no command changes the number of lines, the gutter or the terminal size; only the edit commands change text, and only on the cursor's line; only the mode commands change the mode |
| Commands.InsertThenDelete | src/main.rs:180-191 | the InsertChar command followed by the DeleteChar command restores the state exactly |
| Commands.RightThenLeft | src/main.rs:170-179 | a step right that moved is undone by a step left |
| Commands.UpThenDown | src/main.rs:160-169 | a step up is undone by a step down, except from the last line |
| Commands.MoveDownStopsShortOfLastLine | src/main.rs:165-169 | in a two-line buffer, moving down from row 1 does nothing |
| Commands.VerticalMoveIgnoresColumn | src/main.rs:160-164 | moving up onto a shorter line can leave the column past that line's end |
| EditorLoop.Init | src/main.rs:136-137 | the startup state has one empty line, is in Normal mode and is valid |
| EditorLoop.Refresh | src/main.rs:140-141 | each iteration sets the gutter from the line count (at least 2) and keeps the text, cursor and mode |
| EditorLoop.RefreshIdempotent | src/main.rs:140-152 | refreshing twice is refreshing once, so a failed key read that restarts the loop changes nothing more; the repeated redraw aborts only if it already would have |
| EditorLoop.Step | src/main.rs:138-193 | an iteration aborts whenever its redraw overflows; otherwise it exits exactly on `q` in Normal mode, leaving the refreshed state; it keeps the number of lines and leaves the gutter equal to the line count's width |
| EditorLoop.Run | src/main.rs:138-195 | the loop stops at the first exit or abort; no stream of keys changes the number of lines, and the loop is only left from Normal mode |
| EditorLoop.RunAppend | src/main.rs:138-195 | running two key streams back to back is running the second from where the first stopped, and an exit or abort ends the loop for good |
| Render.PrintOverflowsOneLine | src/main.rs:77-104 | for a one-line buffer with gutter 2, the redraw aborts exactly when the terminal is under 5 columns or has no rows, or when the cursor column or the line length reaches 65534 |
| EditorLoop.OneLineGutter | src/main.rs:65-67 | the gutter of a one-line buffer is 2 |
| EditorLoop.ApplyPreservesValid | src/main.rs:156-193 | on a valid refreshed state every command keeps the state valid; it aborts, on a `u16` overflow only, exactly when the column is 65535 and the command inserts a character or moves right on a line of 65535 or more characters |
| EditorLoop.StepPreservesValid | src/main.rs:138-193 | a loop iteration keeps the state valid; it aborts, always on an arithmetic overflow, exactly when the reported terminal is under 5 columns or has no rows, or when the column or the line length has reached 65534 |
| EditorLoop.RunPreservesValid | src/main.rs:138-195 | over any stream of keys from a valid state, the loop ends valid or aborts on an arithmetic overflow; it never indexes out of bounds |
| EditorLoop.BufferNeverEmpty | src/main.rs:136-195 | the running editor always has exactly its one startup line |
| EditorLoop.TypeThenBackspace | src/main.rs:138-191 | in Insert mode, typing a character and then pressing Backspace gives back the original line, column, row and mode, whenever the terminal is drawable and the line and column are short enough that neither redraw aborts |
| EditorLoop.TypeEraseQuitSteps | src/main.rs:106-193 | the intermediate states of that scenario, one key at a time: Insert mode entered, "h" and "hi" typed with the column advancing, Backspace back to "h", Normal mode, `x` ignored, `q` exits |
| EditorLoop.ScenarioTypeEraseQuit | src/main.rs:106-195 | from startup, `a h i Backspace Esc x q` exits with the line "h" and the cursor at column 2, and keys after `q` are not read |
| EditorLoop.ScenarioUnboundKey | src/main.rs:106-117 | from startup, `x` in Normal mode changes nothing but the refreshed gutter and terminal size |

## Left out

- What rendering draws (`print_tui`, `print_line_nubmers`, `print_content`, src/main.rs:77-104): clearing, escape sequences, stdout writes and the `unwrap` of a failed write are terminal output. Only the redraw's arithmetic is modelled (`Render.PrintOverflows`): `terminal_w - 5`, `terminal_h - BOTTOM_BAR`, each character's `j as u16 + 1 + line_numbers` and line's `i as u16 + 1`, and `cur_col + line_numbers`. This arithmetic aborts on narrow or zero-height terminals, and also at column or line length 65534 whatever the terminal size.
- termion's `cursor::Goto` is not part of this model; any check it makes on its own arguments is not modelled.
- The terminal-size query in `update_terminal_size`: the OS answer is a parameter (`Option` of a width and height). No command reads the size.
- Raw-mode setup and its failure exit, `process::exit`, and the blocking `stdin().keys()` read: these are I/O. A tick's key is `None` when the read fails or yields nothing, and the loop then starts over. `Run` folds `Step` over a finite stream of ticks; the real loop is unbounded until `q`.
- termion's `Key` enum beyond `Char`, `Esc` and `Backspace`: it is a foreign type, collapsed into one `Other` case. Every other key decodes to `Invalid` in both modes.
- The command-line mode, save, forward delete, line splitting and Tab expansion: `src/main.rs` has no code for them.
- Overflow in a release build: the model follows the debug profile, where an overflowing `u16` operation aborts (`Fault.ArithmeticOverflow`). A release build would wrap instead; that is not modelled.
- `usize` arithmetic (`cur_row as usize + 1`, `chars.len() + 1`): it is unbounded here, because no `Vec` in the editor can come near `usize::MAX` elements.
- The `line_numbers` field is a `nat` here, not a `u16`. `Global.GutterFitsU16` shows the value is at most 21, so the source's `as u16` conversion is exact.
