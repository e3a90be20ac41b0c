/** The exceptions the JPEG 2000 codec adapter raises, each with the Python exception class it raises. */
module Errors {

  /** The Python exception classes that the adapter's failures belong to. */
  datatype ExceptionKind = TypeError | ValueError | IndexError | KeyError | AssertionError

  datatype Error =
    // decoding: the buffer starts with no known JPEG 2000 signature
    | InvalidHeader
    // codec construction
    | SnrAndRateBoth
    | NegativeSnr
    | NegativeRate
    | NotComparable          // a configured value that cannot be compared with 0
    | MissingKey(key: string)
    // encode input validation
    | NotContiguous
    | NotInteger
    | ItemTooWide
    // shape handling
    | ShapeIndexOutOfRange   // `shape[-1]` or `shape[-2]` of an array of rank < 2
    | RankTooLow             // reshape_buf of a rank-1 array
    | ReshapeSizeMismatch    // numpy cannot infer the -1 dimension of a reshape
    // quality layers: `rates[-1]` of an empty layer list
    | EmptyLayerList
    // the assertions of the component record
    | ComponentNot2D
    | ComponentNotInteger

  /** The Python exception class raised for `e`. */
  function Kind(e: Error): (k: ExceptionKind)
    ensures k == TypeError <==> e in {NotComparable, NotContiguous, NotInteger, ItemTooWide}
    ensures k == KeyError <==> e.MissingKey?
    ensures k == IndexError <==> e in {ShapeIndexOutOfRange, EmptyLayerList}
    ensures k == AssertionError <==> e in {ComponentNot2D, ComponentNotInteger}
  {
    match e
    case InvalidHeader | SnrAndRateBoth | NegativeSnr | NegativeRate => ValueError
    case RankTooLow | ReshapeSizeMismatch => ValueError
    case NotComparable | NotContiguous | NotInteger | ItemTooWide => TypeError
    case MissingKey(_) => KeyError
    case ShapeIndexOutOfRange | EmptyLayerList => IndexError
    case ComponentNot2D | ComponentNotInteger => AssertionError
  }
}
