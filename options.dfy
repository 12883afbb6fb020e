/** The optional value used for "no birth this frame" and "no acceptable draw". */
module Options {

  datatype Option<T> = None | Some(value: T)
}
