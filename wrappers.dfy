// Optional values and error-or-value results shared by every module of the model.
module Wrappers {

  datatype Option<T> = None | Some(value: T)
  {
    predicate IsSome() { Some? }

    function GetOr(default: T): T
    {
      match this
      case None => default
      case Some(v) => v
    }
  }

  /** A Python `(value, error)` pair: exactly one side is present. */
  datatype Result<T> = Ok(value: T) | Err(error: string)
  {
    predicate IsOk() { Ok? }
  }

  /** Python truthiness of an optional string: None and '' are falsy. */
  predicate Truthy(o: Option<string>)
  {
    o.Some? && o.value != []
  }
}
