/** Failure-carrying result types shared by the population modules. */
module Wrappers {

  /** An optional value, as Rust's `Option`. */
  datatype Option<T> = None | Some(value: T)

  /**
   * What a call of the projection engine can end in: a returned `Ok` value,
   * a returned `Err` with its static message, or a panic (an out-of-bounds
   * index or a failed `expect`) with the message the program aborts with.
   */
  datatype Outcome<T> = Ok(value: T) | Err(msg: string) | Panic(msg: string)
}
