/** The optional-value type used for the decoders of this model. */
module Wrappers {

  /** `None` stands for "not a valid encoding". */
  datatype Option<+T> = None | Some(value: T)
}
