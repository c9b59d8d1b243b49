/** Optional values and the runtime faults of the editor loop.

    The editor is a Rust program built with overflow checks: an integer
    that leaves its range and a vector index past the end both abort the
    process. The model turns each such abort into a `Panic` value instead of
    forbidding the input that causes it. */
module Fallible {

  datatype Option<+T> = None | Some(value: T)

  /** Why the process aborted. */
  datatype Fault =
    | ArithmeticOverflow   // an unsigned add or subtract left its range
    | IndexOutOfBounds     // a `Vec` access, insert or remove past the end

  /** The value of an operation that may abort. With the members below,
      `var x :- r; …` continues with the value of `r` or passes its abort on. */
  datatype Result<+T> = Ok(value: T) | Panic(fault: Fault) {

    predicate IsFailure() {
      Panic?
    }

    function PropagateFailure<U>(): Result<U>
      requires Panic?
    {
      Panic(fault)
    }

    function Extract(): T
      requires Ok?
    {
      value
    }
  }
}
