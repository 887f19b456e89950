/** The Python exceptions the driver's code can raise on the paths the
    model covers. */
module Errors {

  datatype PyError =
    | IndexError         // a character or list position that does not exist
    | ValueError         // `int()`/`float()` of a malformed text, or `np.zeros` of a negative size
    | OverflowError      // a data word outside the 64-bit integer range
    | RuntimeError       // a rejected token or a missing field-zero
    | NameError          // a reference to an undefined name
    | AssertionError     // a data burst with the wrong number of words
    | ZeroDivisionError  // a time step over an empty burst
}
