/** Shared vocabulary of the driver: the Java exceptions it raises, the
    optional values standing for Java's `null`, the fixed-width Java integer
    types and the JDBC constants the driver compares against. */
module Common {

  /** A value that Java may leave `null`. */
  datatype Option<+T> = None | Some(value: T)

  /** The outcome of a Java call that either returns a value or throws. */
  datatype Result<+T> = Success(value: T) | Failure(error: Error)

  /** The outcome of a `void` Java call: it returns normally or throws. */
  datatype Outcome = Pass | Fail(error: Error)

  /** The exceptions the driver throws, one constructor per Java exception class. */
  datatype Error =
    | SqlError(message: string)             // java.sql.SQLException
    | FeatureNotSupported(message: string)  // java.sql.SQLFeatureNotSupportedException
    | Unsupported(message: string)          // java.lang.UnsupportedOperationException
    | IllegalState(message: string)         // java.lang.IllegalStateException
    | NullPointer                           // java.lang.NullPointerException
    | IndexOutOfBounds                      // java.lang.ArrayIndexOutOfBoundsException
    | Arithmetic                            // java.lang.ArithmeticException (Math.toIntExact)

  /** The message every "Unsupported Operation" thrower uses. */
  const UnsupportedOperation: Error := Unsupported("Unsupported Operation")

  // Java's fixed-width integer types.
  newtype Int8 = x: int | -0x80 <= x < 0x80
  newtype Int16 = x: int | -0x8000 <= x < 0x8000
  newtype Int32 = x: int | -0x8000_0000 <= x < 0x8000_0000
  newtype Int64 = x: int | -0x8000_0000_0000_0000 <= x < 0x8000_0000_0000_0000

  predicate FitsInt32(x: int) {
    -0x8000_0000 <= x < 0x8000_0000
  }

  // java.sql.ResultSet constants
  const TYPE_FORWARD_ONLY: int := 1003
  const CONCUR_READ_ONLY: int := 1007
  const HOLD_CURSORS_OVER_COMMIT: int := 1
  const CLOSE_CURSORS_AT_COMMIT: int := 2
  const FETCH_FORWARD: int := 1000
  // java.sql.Connection constant
  const TRANSACTION_NONE: int := 0
  // java.sql.ResultSetMetaData constant
  const COLUMN_NULLABLE_UNKNOWN: int := 2
}
