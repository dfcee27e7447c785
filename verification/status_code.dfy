/** The closed set of LDP status codes and their one-byte wire values. */
module StatusCodes {
  import opened Base

  datatype StatusCode =
    | Ok
    | NotAvailableError
    | TimeoutError
    | ProtocolError
    | NotOpenError
    | ParameterError
    | NotSupportedError
    | GeneralError

  /** Every status code, once. */
  const AllCodes: set<StatusCode> :=
    {Ok, NotAvailableError, TimeoutError, ProtocolError,
     NotOpenError, ParameterError, NotSupportedError, GeneralError}

  /** The enumerator value of each code, which is also its wire value. */
  function Value(c: StatusCode): byte
  {
    match c
    case Ok => 0x00
    case NotAvailableError => 0x01
    case TimeoutError => 0x02
    case ProtocolError => 0x03
    case NotOpenError => 0x04
    case ParameterError => 0x05
    case NotSupportedError => 0xFE
    case GeneralError => 0xFF
  }

  /** Reading a status byte back: `None` for a byte that names no code. */
  function FromValue(v: byte): (r: Option<StatusCode>)
    ensures r.Some? <==> v in {0x00, 0x01, 0x02, 0x03, 0x04, 0x05, 0xFE, 0xFF}
  {
    if v == 0x00 then Some(Ok)
    else if v == 0x01 then Some(NotAvailableError)
    else if v == 0x02 then Some(TimeoutError)
    else if v == 0x03 then Some(ProtocolError)
    else if v == 0x04 then Some(NotOpenError)
    else if v == 0x05 then Some(ParameterError)
    else if v == 0xFE then Some(NotSupportedError)
    else if v == 0xFF then Some(GeneralError)
    else None
  }

  /** Encoding a code and reading it back yields the same code, and a byte
      that reads as a code is exactly that code's value. */
  lemma ValueRoundTrip(c: StatusCode, v: byte)
    ensures FromValue(Value(c)) == Some(c)
    ensures FromValue(v) == Some(c) ==> Value(c) == v
  {
  }

  /** There are exactly eight codes, and no two share a wire value. */
  lemma ExactlyEightDistinct()
    ensures forall c: StatusCode :: c in AllCodes
    ensures |AllCodes| == 8
    ensures forall c, d :: Value(c) == Value(d) ==> c == d
  {
    forall c: StatusCode
      ensures c in AllCodes
    {
      match c
      case Ok =>
      case NotAvailableError =>
      case TimeoutError =>
      case ProtocolError =>
      case NotOpenError =>
      case ParameterError =>
      case NotSupportedError =>
      case GeneralError =>
    }
    forall c, d | Value(c) == Value(d)
      ensures c == d
    {
      ValueRoundTrip(c, Value(c));
      ValueRoundTrip(d, Value(d));
    }
  }

  /** The table printed in the header's documentation, row by row. */
  const DocumentedTable: seq<(string, nat)> := [
    ("OK", 0x00),
    ("Not Available Error", 0x01),
    ("Timeout Error", 0x02),
    ("Protocol Error", 0x03),
    ("Not Open Error", 0x04),
    ("Parameter Error", 0x05),
    ("Not Supported Error", 0xFE),
    ("General Error", 0xFF)
  ]

  /** The code each documented row describes. */
  const DocumentedCodes: seq<StatusCode> :=
    [Ok, NotAvailableError, TimeoutError, ProtocolError,
     NotOpenError, ParameterError, NotSupportedError, GeneralError]

  /** The documentation agrees with the enumeration: row `i` gives the value
      of the `i`-th code, and the rows cover every code exactly once. */
  lemma DocumentedTableAgrees()
    ensures |DocumentedTable| == |DocumentedCodes| == |AllCodes|
    ensures forall i :: 0 <= i < |DocumentedTable| ==>
      DocumentedTable[i].1 == Value(DocumentedCodes[i])
    ensures forall c :: c in DocumentedCodes
    ensures forall i, j :: 0 <= i < j < |DocumentedCodes| ==> DocumentedCodes[i] != DocumentedCodes[j]
  {
    ExactlyEightDistinct();
    forall c: StatusCode
      ensures c in DocumentedCodes
    {
      assert c in AllCodes;
    }
  }
}
