/** Option and the outcome of an operation of the interpreter. */
module Wrappers {

  /** The message of the Go runtime panic for a nil pointer or nil interface dereference. */
  const NilDereference := "runtime error: invalid memory address or nil pointer dereference"

  /** Go's nil-or-value, as in a pointer that may be nil. */
  datatype Option<+T> = None | Some(value: T)

  /**
   * What a Go operation of the interpreter can end in:
   * - Ok: it returned a value and a nil error;
   * - Err: it returned a non-nil `error` whose text is `msg`;
   * - Panic: it stopped with a Go runtime panic (nil dereference, index out of
   *   range, division by zero, a failed type assertion, an explicit `panic`);
   * - Exhausted: the model's fuel ran out before evaluation finished (the source
   *   would keep running or overflow its stack).
   */
  datatype Outcome<+T> = Ok(value: T) | Err(msg: string) | Panic(reason: string) | Exhausted
  {
    /** The same failure, carried to a different value type. */
    function Forward<U>(): (r: Outcome<U>)
      requires !Ok?
      ensures r.Err? == Err? && r.Panic? == Panic? && r.Exhausted? == Exhausted?
      ensures Err? ==> r.msg == msg
      ensures Panic? ==> r.reason == reason
    {
      match this
      case Err(m) => Err(m)
      case Panic(p) => Panic(p)
      case Exhausted => Exhausted
    }
  }
}
