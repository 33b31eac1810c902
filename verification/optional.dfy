/** The Some/None datatype used wherever the plugin reads a value that may be absent. */
module Optional {

  datatype Option<+T> = None | Some(value: T)
}
