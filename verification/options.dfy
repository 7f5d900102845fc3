/** A minimal optional-value type, used for parsers that can reject their input. */
module Options {

  datatype Option<+T> = None | Some(value: T)
}
