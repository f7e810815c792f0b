/**
 * Optional values, standing for PHP's nullable values (`?int`, `?array`),
 * and results, standing for a call that returns or throws.
 */
module Wrappers {

  datatype Option<+T> = None | Some(value: T)

  /** A call that returned `value` or threw an exception carrying `message`. */
  datatype Result<+T> = Ok(value: T) | Thrown(message: string)
}
