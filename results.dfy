/** Failure-carrying wrappers used by the lexer, the parser and the evaluator. */
module Results {

  datatype Option<+T> = None | Some(value: T)

  /** The C++ engine reports failure by throwing; the model returns it instead. */
  datatype Result<+R, +E> = Success(value: R) | Failure(error: E)
}
