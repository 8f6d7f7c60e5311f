/** The optional value used for parse results and for a location that has not been seen yet. */
module Options {

  datatype Option<+T> = None | Some(value: T)
}
