/** Results that may be missing, and results that may be an error. */
module Wrappers {
  datatype Option<+T> = None | Some(value: T) {
    predicate IsFailure() {
      None?
    }

    function PropagateFailure<U>(): Option<U>
      requires None?
    {
      None
    }

    function Extract(): T
      requires Some?
    {
      value
    }
  }

  /** Carries on only if the condition holds. */
  function Check(condition: bool): (r: Option<()>)
    ensures r.Some? <==> condition
  {
    if condition then Some(()) else None
  }

  datatype Result<+T, +E> = Ok(value: T) | Err(error: E) {
    predicate IsFailure() {
      Err?
    }

    function PropagateFailure<U>(): Result<U, E>
      requires Err?
    {
      Err(error)
    }

    function Extract(): T
      requires Ok?
    {
      value
    }
  }

  function Need<E>(condition: bool, error: E): (r: Result<(), E>)
    ensures r == if condition then Ok(()) else Err(error)
  {
    if condition then Ok(()) else Err(error)
  }
}
