/** Option and the `{ error }` / `{ success: true, ... }` result shape shared by the server actions. */
module Wrappers {

  datatype Option<+T> = None | Some(value: T)

  /** A server action either succeeds with a value or returns `{ error: message }`. */
  datatype Result<+T> = Ok(value: T) | Err(message: string)
}
