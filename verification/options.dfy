/** The `nil`-or-value results the three games return (Ruby's `nil` becomes `None`). */
module Options {

  datatype Option<+T> = None | Some(value: T) {

    /** Ruby truthiness of the value: `!!x` is true iff `x` is not nil. */
    predicate IsPresent() {
      Some?
    }
  }
}
