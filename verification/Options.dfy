/** A value that may be absent: a nil pointer, a map miss, an unset knob. */
module Options {
  datatype Option<+T> = None | Some(value: T)
}
