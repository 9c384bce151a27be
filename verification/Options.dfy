/**
 The optional value every module uses.
 */
module Options {

  datatype Option<+T> = None | Some(value: T)
}
