/**
 * The types the calculator engine is built from: its operator and result
 * enumerations and the fixed-size display buffer.
 */
module CalculatorTypes {

  /** The operator a button commits; NoOperator is CALC_OPERATOR_NONE. */
  datatype Operator = NoOperator | Add | Subtract | Multiply | Divide

  /** The status ApplyOperator and ApplyEquals report. */
  datatype CalculatorResult = Ok | ErrorDivideByZero

  /** Number of wide characters in the display buffer, terminator included. */
  const DisplaySize: nat := 64

  /** The longest text the display can hold. */
  const DisplayCapacity: nat := DisplaySize - 1

  /**
   * The C runtime's "%.15g" conversion of a double into the display buffer.
   * Its digits are not modelled; what is kept is what the engine relies on:
   * the text is never empty, fits the buffer and holds no terminator.
   */
  type Formatter = f: real -> string | forall v :: 0 < |f(v)| < DisplaySize && '\0' !in f(v)
    witness (v: real) => "0"
}
