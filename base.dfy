/** Option and Result values, and the exceptions of the CPT library as error values. */
module Wrappers {

  datatype Option<+T> = None | Some(value: T)

  datatype Result<+T> = Ok(value: T) | Err(error: Error)

  /** The exceptions the library raises, one constructor per cause. */
  datatype Error =
    | InvalidSegment    // ValueError from Layer.__init__: top < 0 or bottom < top
    | MissingData       // TypeError: arithmetic on a qc or fs that is None
    | ZeroDivision      // ZeroDivisionError: friction ratio with qc == 0
    | MathDomain        // ValueError from log10 of a non-positive number
    | UnknownZone       // KeyError: SBT label lookup outside 0..9
    | IndexOutOfRange   // IndexError: sequence index outside its bounds
    | DuplicateProbe    // ValueError from ProbeList.append
    | NoCursor          // AttributeError: __next__ before __iter__ set the cursor
    | Exhausted         // StopIteration: __next__ past the last probe
    | MissingKey        // KeyError: a record without the filtered field
}
