/** The two shapes of partial answer the agent's code produces. A regular
    expression either matches or returns `None`, and an alias file either
    loads or raises. `Option` models the first and `Result` the second.
    Both provide the three members Dafny's `:-` operator expects, so a step
    that fails ends the surrounding computation with that failure, as an
    early `return` or an uncaught exception does in the agent. */
module Wrappers {

  /** A match group or dictionary lookup that may be absent. */
  datatype Option<+T> = None | Some(value: T) {

    predicate IsFailure() {
      None?
    }

    function PropagateFailure<U>(): Option<U>
      requires None?
    {
      None
    }

    function Extract(): T
      requires Some?
    {
      value
    }

    /** The value, or `default` when there is none (Python's `x or default`
        on an optional string). */
    function GetOr(default: T): T {
      match this
      case Some(v) => v
      case None => default
    }
  }

  /** A value, or the error that stopped its computation. */
  datatype Result<+T, +E> = Ok(value: T) | Err(error: E) {

    predicate IsFailure() {
      Err?
    }

    function PropagateFailure<U>(): Result<U, E>
      requires Err?
    {
      Err(error)
    }

    function Extract(): T
      requires Ok?
    {
      value
    }
  }

  /** Python's `min` on two integers. */
  function Min(a: int, b: int): int {
    if a <= b then a else b
  }
}
