/** The optional value used for "nothing changed" and "not found" results. */
module Options {

  datatype Option<+T> = None | Some(value: T)
}
