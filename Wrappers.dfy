/** The optional value used for every nullable field and parameter of the model. */
module Wrappers {

  /** A Java reference that may be null: `None` stands for null. */
  datatype Option<+T> = None | Some(value: T)
}
