/** The exceptions the modelled code throws. Wrapping exceptions keep their
    cause, as TurbineException and InitializationException do. */
module Errors {
  import opened Wrappers

  datatype Error =
    | TurbineException(message: string, cause: Option<Error>)
    | InitializationException(message: string, cause: Option<Error>)
    | ClassNotFoundException(message: string)
    | IndexOutOfBounds(index: int)
    /** Thrown by Integer.parseInt and its kin on text that is not a
        number in range. */
    | NumberFormatException
    /** An exception raised by code outside the model (a factory, a
        constructor called by reflection, an action, a JDBC statement). */
    | Raised(description: string)
}
