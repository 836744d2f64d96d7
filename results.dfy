/** Failure-compatible wrappers and the error taxonomy of the configuration reader.
    Every exception or failed assertion of inpconf.py becomes one Error value. */
module Results {

  datatype Option<+T> = None | Some(value: T)

  datatype Result<+T> = Ok(value: T) | Err(error: Error)

  /** The outcome of a step that changes the reader's state and returns nothing. */
  datatype Outcome = Pass | Fail(error: Error)

  datatype Error =
    // value parsers
    | RangeOrder(first: int, last: int)          // ion range i1..i2 with i1 > i2
    | IonIndexBelowOne(raw: string)              // an ion index converts to a negative position
    | IonListNotImplemented(raw: string)         // neither a range nor a list of integers
    | EmptyLogical                               // par_str[0] of an empty string
    | InvalidLogical(raw: string)                // first character is neither t nor f
    | MatrixNotNumeric(raw: string)              // float() fails on a matrix token
    | RaggedMatrix(raw: string)                  // rows of different lengths
    | OddComplexColumns(raw: string)             // complex matrix with an odd column count
    | NotAnInteger(raw: string)                  // int() fails
    | NotAReal(raw: string)                      // float() fails
    // schema-driven extraction
    | MissingParameter(par: string, section: string)
    | NoShells
    | ShellIndexUnreadable(sections: seq<string>)
    | DuplicateShellIndex
    | GroupIndexUnreadable(section: string)
    // consistency engine
    | AmbiguousGrouping
    | IncompleteImplicitGroup
    | UnknownShellReference(userIndex: int, group: Option<int>)
    | UnreferencedShells
    // Python's own errors, for code modelled as written
    | UnboundLocal(name: string)                 // UnboundLocalError
    | UnpackMismatch(size: nat)                  // ValueError: unpacking size values into two names
    | NoAttribute(name: string)                  // AttributeError
}
