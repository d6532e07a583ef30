/** The optional value used wherever the dashboard code reads something that may be missing. */
module Options {

  datatype Option<+T> = None | Some(value: T)
}
