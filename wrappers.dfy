/** The `Option` and `Result` datatypes shared by the two models. */
module Wrappers {

  /** An optional value. In the aggregation model `None` stands for Java's `Double.NaN`
      (a missing or undefined value); in the writer model it stands for a `null` reference. */
  datatype Option<+T> = None | Some(value: T)

  /** The outcome of an operation that can fail with an error value. */
  datatype Result<+R, +E> = Success(value: R) | Failure(error: E)
}
