/** java.util.Optional, as returned by Either's accessors and as the answer of a call that may fail. */
module Optional {

  datatype Option<+T> = None | Some(value: T)
}
