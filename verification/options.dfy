/** An optional value: Python's `None` versus a present value. */
module Options {

  datatype Option<+T> = None | Some(value: T)
}
