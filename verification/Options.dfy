/** The conventional present-or-absent datatype, used for JavaScript's null and undefined results. */
module Options {
  datatype Option<+T> = None | Some(value: T)
}
