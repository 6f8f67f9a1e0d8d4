/** Result wrappers standing in for the exceptions the games can raise. */
module Outcomes {

  /** `None` stands for an input stream that ran out (the console scanner would throw). */
  datatype Option<T> = None | Some(value: T)

  /** `Err` stands for a run-time exception of the Java code. */
  datatype Result<T, E> = Ok(value: T) | Err(error: E)
}
