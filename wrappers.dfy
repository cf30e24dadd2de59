/** Small result types shared by the whole model. */
module Wrappers {

  /** A value that may be absent (a C pointer that may be NULL). */
  datatype Option<T> = None | Some(value: T)

  /**
   * The outcome of an operation that can stop the process.  `Abort` stands
   * for a failed `assert`, a call to `abort()`, or a step whose behaviour in
   * C is undefined (a NULL dereference, a read past the end of a mapping);
   * the model does not go on after it.
   */
  datatype Status<T> = Ok(value: T) | Abort(reason: string)
}
