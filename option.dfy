/** The optional value that stands for JavaScript's `undefined`/`null`
    alternatives throughout the model. */
module Options {
  datatype Option<+T> = None | Some(value: T)
}
