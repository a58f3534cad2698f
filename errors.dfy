/** The exceptions the Complex class can raise, and a result type that carries
    either a value or the exception that ended the operation. */
module PyErrors {

  /** Exception classes raised by the operators (directly or by Python itself). */
  datatype Error =
    | TypeError            // add/sub: operand is neither a number nor has real and imag
    | AttributeError       // other.real / other.imag looked up on an object without them
    | ZeroDivisionError    // float division by a zero squared magnitude
    | NotImplementedError  // exponentiation

  /** Either the value an operator returns or the exception it raises. */
  datatype Result<+T> = Ok(value: T) | Err(error: Error) {

    predicate IsFailure() {
      Err?
    }

    function PropagateFailure<U>(): Result<U>
      requires Err?
    {
      Err(error)
    }

    function Extract(): T
      requires Ok?
    {
      value
    }
  }
}
