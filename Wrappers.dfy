/** Option and Result: Java's null and the exceptions the modelled code throws. */
module Wrappers {

  /** A Java reference that may be null: `None` is null. */
  datatype Option<+T> = None | Some(value: T)

  /** The unchecked exceptions raised by the modelled code. */
  datatype JavaException =
    | IllegalArgument(message: string)
    | IllegalState(message: string)
    | IndexOutOfBounds
    | ArithmeticDivideByZero
    | NegativeArraySize
    | NullPointer

  /** A value, or the exception the Java code throws instead of returning. */
  datatype Result<+T> = Ok(value: T) | Err(error: JavaException)
}
