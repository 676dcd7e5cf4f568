/** The optional-value and result types shared by the modules of this model. */
module Wrappers {

  datatype Option<+T> = None | Some(value: T)

  datatype Result<+R, +E> = Success(value: R) | Failure(error: E)

  /** The outcome of a call that returns nothing but may throw. */
  datatype Outcome<+E> = Pass | Fail(error: E)

  /** The exceptions the modelled Kotlin code can raise. */
  datatype Failure =
    | IllegalState      // IllegalStateException("Invalid state in handlePartial")
    | NullPointer       // a `!!` applied to null
    | HierarchyRequest  // a DOM insertion the parent node does not accept
}
