/** Keystrokes, editor modes, decoded commands, and the pure decoder
    `parse_command` that maps a (mode, key) pair to a command. */
module Keys {

  /** A key event. Only the three kinds of key the decoder tells apart are
      kept; every other key of the terminal library is `Other`. Enter and
      Tab arrive as the characters `'\n'` and `'\t'`. */
  datatype Key = Char(c: char) | Esc | Backspace | Other

  datatype Mode = Insert | Normal

  datatype Command =
    | Invalid
    | EnterNormalMode
    | EnterInsertMode
    | InsertChar(c: char)
    | DeleteChar
    | MoveUp
    | MoveDown
    | MoveRight
    | MoveLeft
    | Quit
  {
    predicate IsMove() {
      MoveUp? || MoveDown? || MoveRight? || MoveLeft?
    }
  }

  /** The Normal-mode key bindings as a table, independent of the decoder. */
  const NormalBindings: map<char, Command> :=
    map['a' := EnterInsertMode, 'j' := MoveDown, 'k' := MoveUp,
        'l' := MoveRight, 'h' := MoveLeft, 'q' := Quit]

  /** `parse_command`: total, and a function of the mode and the key alone. */
  function Decode(mode: Mode, key: Key): (cmd: Command)
    // Normal mode follows the binding table; unbound keys are Invalid.
    ensures mode == Normal ==>
      cmd == (if key.Char? && key.c in NormalBindings then NormalBindings[key.c] else Invalid)
    ensures mode == Normal ==>
      (cmd != Invalid <==> key.Char? && key.c in {'a', 'j', 'k', 'l', 'h', 'q'})
    // Insert mode: characters are typed verbatim, never moves or Quit.
    ensures mode == Insert && key.Char? ==> cmd == InsertChar(key.c)
    ensures mode == Insert && key.Esc? ==> cmd == EnterNormalMode
    ensures mode == Insert && key.Backspace? ==> cmd == DeleteChar
    ensures mode == Insert && key.Other? ==> cmd == Invalid
    ensures mode == Insert ==> !cmd.IsMove() && !cmd.EnterInsertMode?
    // The only way out of the loop is 'q' typed in Normal mode.
    ensures cmd == Quit <==> mode == Normal && key == Char('q')
    ensures cmd.InsertChar? ==> mode == Insert && key == Char(cmd.c)
    ensures cmd == DeleteChar <==> mode == Insert && key == Backspace
  {
    match mode
    case Normal => (
      match key
      case Char('a') => EnterInsertMode
      case Char('j') => MoveDown
      case Char('k') => MoveUp
      case Char('l') => MoveRight
      case Char('h') => MoveLeft
      case Char('q') => Quit
      case _ => Invalid)
    case Insert => (
      match key
      case Char(c) => InsertChar(c)
      case Esc => EnterNormalMode
      case Backspace => DeleteChar
      case _ => Invalid)
  }
}
