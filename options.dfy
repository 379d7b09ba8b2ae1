/** Swift's `Optional`, as returned by the transforms given to `compactMap`. */
module Options {

  datatype Option<+T> = None | Some(value: T)
}
