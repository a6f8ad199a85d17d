/**
 * Outcome types shared by the whole model.
 *
 * - `Option<T>` stands for Rust's `Option`.
 * - `Result<T>` stands for `Result<T, String>` as returned by the crate's `FromStr`
 *   implementations, plus a third case `Panic` for the places where the crate calls
 *   `unwrap()` on a failed parse and the process aborts.
 * - `Parsed<T>` stands for nom's `IResult<&str, T>`: a value with the unconsumed
 *   rest of the input, or a recoverable mismatch (`NoMatch`, nom's `Err::Error`),
 *   or `Abort` when a panic was raised inside the parser.
 */
module Wrappers {

  datatype Option<T> = None | Some(value: T) {

    /** Rust's `unwrap_or` */
    function GetOr(default: T): T {
      match this
      case Some(v) => v
      case None => default
    }

    /** Rust's `Option::map` */
    function Map<U>(f: T -> U): Option<U> {
      match this
      case Some(v) => Some(f(v))
      case None => None
    }
  }

  datatype Result<T> = Ok(value: T) | Err(msg: string) | Panic

  datatype Parsed<T> = Done(value: T, rest: string) | NoMatch | Abort
}
