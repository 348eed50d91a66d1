/** Optional values and the outcome of a Java call that may throw. */
module Wrappers {

  /** Stands in for a Java reference that may be null, or for java.util.Optional. */
  datatype Option<+T> = None | Some(value: T)

  /** The unchecked exceptions the modelled services can raise. */
  datatype Fault =
    | ArithmeticDivideByZero   // BigDecimal.divide by a zero divisor
    | NullPointer              // a null reading value or timestamp reaches arithmetic
    | IllegalStateDuplicateKey // Collectors.toMap meets a plan name twice
    | IllegalArgumentSubList   // List.subList(0, limit) with a negative limit

  /** Either the value a Java method returned, or the exception it threw. */
  datatype Result<+T> = Ok(value: T) | Throws(fault: Fault)
}
