// Types that several modules share: a value that may be missing, and what SQLFreeHandle may return.
module Options {
  datatype Option<T> = None | Some(value: T)

  datatype FreeReturn = FreeSuccess | FreeError | FreeInvalidHandle
}
