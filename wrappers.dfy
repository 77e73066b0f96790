/** Option and Result values used across the model for Rust's `Option` and `Result`. */
module Wrappers {
  /** A Rust `Option`; `:-` propagates a `None`. */
  datatype Option<T> = None | Some(value: T)
  {
    predicate IsSome() { this.Some? }

    predicate IsFailure() { this.None? }

    function PropagateFailure<U>(): Option<U>
      requires IsFailure()
    {
      None
    }

    function Extract(): T
      requires !IsFailure()
    {
      value
    }
  }

  /** A Rust `Result`; `:-` propagates an `Err` the way `?` does. */
  datatype Result<T, E> = Ok(value: T) | Err(error: E)
  {
    predicate IsOk() { this.Ok? }

    predicate IsFailure() { this.Err? }

    function PropagateFailure<U>(): Result<U, E>
      requires IsFailure()
    {
      Err(error)
    }

    function Extract(): T
      requires !IsFailure()
    {
      value
    }
  }

  /** The value of an `Option` as a sequence of at most one element. */
  function OptionToSeq<T>(o: Option<T>): (s: seq<T>)
    ensures |s| == if o.Some? then 1 else 0
    ensures o.Some? ==> s == [o.value]
  {
    if o.Some? then [o.value] else []
  }
}
