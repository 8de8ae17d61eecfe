/** Small value types shared by every module of the model. */
module Common {

  /** An optional value: Python's `None`, JavaScript's `null`/`undefined`. */
  datatype Option<+T> = None | Some(value: T)
}
