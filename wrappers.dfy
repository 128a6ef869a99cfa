/** Optional values and results with an error message, as the engine's `None` returns and raised exceptions. */
module Wrappers {
  datatype Option<T> = None | Some(value: T)
  {
    predicate IsSome() { Some? }

    function GetOr(default: T): (v: T)
      ensures Some? ==> v == value
      ensures None? ==> v == default
    {
      match this
      case Some(v) => v
      case None => default
    }
  }

  /** `Failure` stands for a raised `ValueError`; the message identifies which check raised. */
  datatype Result<T, E> = Success(value: T) | Failure(error: E)
}
