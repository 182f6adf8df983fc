/** The Java exceptions the modelled code throws, as values. */
module Failures {

  datatype Failure =
    | IllegalArgument(message: string)
    | UnsupportedOperation(message: string)
    | IllegalState(message: string)
    | IndexOutOfBounds(index: int)
      /** `IllegalArgumentException("Duplicate key(s): " + keys)` of the JSON analyzer. */
    | DuplicateKeys(paths: set<string>)
      /** `CompilationException`: "Compilation failed." wrapping its cause. */
    | CompilationFailed(cause: Failure)
}
