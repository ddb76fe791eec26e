/** Failure-carrying values shared by every component of the model. */
module Wrappers {

  datatype Option<+T> = None | Some(value: T)

  /** The outcome of an operation that the program reports by returning or by throwing. */
  datatype Result<+T, +E> = Ok(value: T) | Err(error: E) {

    predicate IsFailure() {
      Err?
    }

    function PropagateFailure<U>(): Result<U, E>
      requires Err?
    {
      Err(error)
    }

    function Extract(): T
      requires Ok?
    {
      value
    }
  }

  /** The first position of an element in a sequence, or -1. */
  function IndexOf<T(==)>(xs: seq<T>, x: T): (i: int)
    ensures -1 <= i < |xs|
    ensures i >= 0 ==> xs[i] == x
    ensures i == -1 ==> x !in xs
  {
    if xs == [] then -1
    else if xs[0] == x then 0
    else
      var rest := IndexOf(xs[1..], x);
      if rest == -1 then -1 else rest + 1
  }
}
