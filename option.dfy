/** The optional value used for JavaScript's `undefined`/`null`-or-value fields and results. */
module Optional {
  datatype Option<+T> = None | Some(value: T)
}
