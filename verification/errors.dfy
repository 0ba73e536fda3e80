/** The .NET exceptions the modelled code can raise, as values. */
module Errors {

  datatype Failure =
      /** `ArgumentNullException`, carrying the parameter name. */
    | ArgumentNull(paramName: string)
      /** `ArgumentException`, carrying its message. */
    | Argument(message: string)
      /** `InvalidOperationException`, carrying its message. */
    | InvalidOperation(message: string)
      /** `NullReferenceException`: a member access on a null reference. */
    | NullReference
      /** `SerializationException` raised by `SerializationInfo` for the named entry. */
    | SerializationFailure(name: string)
      /** `InvalidCastException` raised while reading the named entry. */
    | InvalidCast(name: string)
}
