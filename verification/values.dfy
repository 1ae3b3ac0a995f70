/** The column values that flow between the driver, rows and field defaults. */
module Values {

  /** A Python value as stored in a row or used as a field default. */
  datatype Value =
    | Null              // None
    | Bool(b: bool)
    | Int(i: int)
    | Real(r: real)     // a float; only its identity matters here
    | Str(s: string)
}
