/** The exceptions the core throws, as values, and the result type that carries them. */
module Errors {

  /** Both are ArgumentException in the source; the variant records which message it carries. */
  datatype ArgumentException =
    | ChannelOutOfRange                              // a channel number outside 1..128
    | ByteArrayTooSmall(expected: nat, got: nat)     // fewer bytes than the struct's size; both counts are reported

  datatype Result<+T> = Success(value: T) | Failure(error: ArgumentException)

  /** Completion of a method that returns nothing but may throw. */
  datatype Outcome = Pass | Fail(error: ArgumentException)
}
