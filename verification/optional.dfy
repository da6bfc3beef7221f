/** An optional value: the model's stand-in for JavaScript's `undefined`. */
module Optional {
  datatype Option<+T> = None | Some(value: T)
}
