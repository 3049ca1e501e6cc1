/** The optional value used wherever the source may produce nothing (a missing
    match, an undefined array element, a rendering that returned null). */
module Options {
  datatype Option<+T> = None | Some(value: T)
}
