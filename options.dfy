/** The optional value used wherever the source returns "nothing" or raises. */
module Options {

  datatype Option<+T> = None | Some(value: T)

}
