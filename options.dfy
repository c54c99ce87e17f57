/** The optional value returned by a lookup that can fail (`T | undefined` in the source). */
module Options {

  datatype Option<+T> = None | Some(value: T)

}
