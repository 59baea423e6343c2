/**
  What evaluating one of the image's Python properties yields: it either
  returns a value or raises an exception. A property that "returns None"
  returns `None` of the `Option` type.
 */
module Outcomes {

  datatype Option<+T> = None | Some(value: T)

  /** The Python exceptions the modelled properties can raise. */
  datatype Fault =
    | AttributeError     // attribute lookup on the wrong kind of value, or on None
    | TypeError          // int() applied to a list
    | ValueError         // a string the integer or date parser rejects
    | OverflowError      // a date the date parser cannot represent
    | ZeroDivisionError  // a rational with denominator 0

  datatype Outcome<+T> = Returns(value: T) | Raises(fault: Fault)
}
