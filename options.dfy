// The optional value used for "nothing was posted" and "no report this frame".
module Options {

  datatype Option<T> = None | Some(value: T)
}
