/** The optional-value datatype shared by the model. */
module Wrappers {

  /** A value that may be absent. `ColorUtils` uses `None` for JavaScript's NaN. */
  datatype Option<+T> = None | Some(value: T)
}
