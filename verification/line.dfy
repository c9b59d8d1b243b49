/** A line of text and the two `Vec<char>` edits the editor performs on it.
    Both abort on an out-of-range index rather than clamp. */
module LineBuffer {
  import opened Fallible

  type Line = seq<char>

  /** `Vec::insert(index, c)`: shifts the tail right by one; aborts when
      `index` is past the end. */
  function VecInsert(line: Line, index: nat, c: char): (r: Result<Line>)
    ensures r.Panic? <==> index > |line|
    ensures r.Panic? ==> r.fault == IndexOutOfBounds
    ensures r.Ok? ==> |r.value| == |line| + 1
    ensures r.Ok? ==> r.value[index] == c
    ensures r.Ok? ==> r.value[..index] == line[..index] && r.value[index + 1..] == line[index..]
  {
    if index > |line| then Panic(IndexOutOfBounds)
    else Ok(line[..index] + [c] + line[index..])
  }

  /** `Vec::remove(index)`: shifts the tail left by one; aborts when there
      is no element at `index`. */
  function VecRemove(line: Line, index: nat): (r: Result<Line>)
    ensures r.Panic? <==> index >= |line|
    ensures r.Panic? ==> r.fault == IndexOutOfBounds
    ensures r.Ok? ==> |r.value| == |line| - 1
    ensures r.Ok? ==> r.value[..index] == line[..index] && r.value[index..] == line[index + 1..]
  {
    if index >= |line| then Panic(IndexOutOfBounds)
    else Ok(line[..index] + line[index + 1..])
  }

  /** Removing at the index just inserted at restores the line. */
  lemma RemoveAfterInsert(line: Line, index: nat, c: char)
    requires index <= |line|
    ensures VecInsert(line, index, c).Ok?
    ensures VecRemove(VecInsert(line, index, c).value, index) == Ok(line)
  {
    var l' := VecInsert(line, index, c).value;
    var r := VecRemove(l', index).value;
    assert r == r[..index] + r[index..];
    assert line == line[..index] + line[index..];
  }

  /** Re-inserting the removed character where it was restores the line. */
  lemma InsertAfterRemove(line: Line, index: nat)
    requires index < |line|
    ensures VecRemove(line, index).Ok?
    ensures VecInsert(VecRemove(line, index).value, index, line[index]) == Ok(line)
  {
    var l' := VecRemove(line, index).value;
    var r := VecInsert(l', index, line[index]).value;
    assert r == r[..index] + [r[index]] + r[index + 1..];
    assert line == line[..index] + [line[index]] + line[index + 1..];
  }
}
