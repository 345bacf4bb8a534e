/** Java-side vocabulary the model needs: optional values (Java's null), results that
    carry an exception instead of throwing it, and the bounds of a Java `long`. */
module Platform {

  /** A reference that may be null. */
  datatype Option<+T> = None | Some(value: T)

  /** The outcome of a call that either returns a value or throws. */
  datatype Result<+T, +E> = Success(value: T) | Failure(error: E)

  /** The unchecked exceptions the modelled code can raise. */
  datatype Throwable =
    | IllegalArgumentException(message: string)
    | NullPointerException

  /** `Long.MIN_VALUE` and `Long.MAX_VALUE`. */
  const LongMinValue: int := -0x8000_0000_0000_0000
  const LongMaxValue: int := 0x7FFF_FFFF_FFFF_FFFF
}
