/** The one datatype every other module shares. */
module Common {
  datatype Option<+T> = None | Some(value: T)
}
