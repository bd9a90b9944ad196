/** Failure-carrying results and the exception kinds the Python code raises. */
module Base {

  datatype Option<+T> = None | Some(value: T)

  datatype Result<+T> = Ok(value: T) | Err(error: Error)

  /** Why a `ValueError` was raised. */
  datatype ValueFault =
    | MathDomain          // math.log(0, 2)
    | NotPowerOfTwo       // row count is not a power of two
    | InputLabelCount     // explicit input labels of the wrong length
    | OutputLabelCount    // explicit output labels of the wrong length
    | UnknownLabel        // list.index on a label that is not there
    | NotAnInteger        // int() of a token that is not a decimal integer
    | DontCare            // to_int on a cube holding a don't-care
    | EmptyBinary         // int('', 2)
    | NegativeDimension   // np.empty with a negative dimension
    | UnknownSuffix       // to_file cannot infer a format from the file name
    | UnknownMode         // to_file with a Verilog mode other than case/sop
    | UnknownFormat       // to_file with a format other than verilog/pla
    | BadSymbol           // _line_to_list on a character other than 0, 1, - or ~

  /** Why a `PLAParsingError` was raised. */
  datatype ParseFault =
    | Sections(count: nat)  // a body line that does not split into two sections
    | InputWidth            // input section of the wrong width
    | OutputWidth           // output section of the wrong width
    | UnexpectedChar        // a symbol other than 0, 1, - or ~
    | ProductCount          // body line count differs from `.p`
    | NoInputs              // `.i 0`
    | NoOutputs             // `.o 0`
    | NoProducts            // `.p 0`

  datatype Error =
    | ValueError(why: ValueFault)
    | IndexError
    | OverflowError          // a value too wide for a numpy int64 cell
    | UnboundLocal           // a header variable read before any assignment
    | AttributeError         // an attribute the object does not have
    | NotImplemented
    | PlaParsing(fault: ParseFault, line: Option<nat>)
}
