/** Python's `None`/value and value/exception alternatives, as datatypes. */
module Wrappers {

  /** `Optional[T]`: `None` or a value. */
  datatype Option<T> = None | Some(value: T) {

    /** The value, or `default` when absent (Python's `d.get(key, default)`). */
    function GetOr(default: T): T
    {
      if Some? then value else default
    }
  }

  /** A computation that either returns a value or raises an error carrying a message. */
  datatype Result<T> = Ok(value: T) | Err(msg: string)
}
