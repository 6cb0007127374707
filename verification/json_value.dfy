/** The JSON scalars that flow between the value synthesizer and the reader:
    strings, integers and `null` (Python's `None`). */
module JsonValue {
  import Decimal

  datatype Value = Str(s: string) | Int(i: int) | Null

  /** Python's `"%s" % v`. */
  function Show(v: Value): (r: string)
    ensures v.Str? ==> r == v.s
    ensures v.Null? ==> r == "None"
    ensures v.Int? ==> r == Decimal.FromInt(v.i)
  {
    match v
    case Str(s) => s
    case Int(i) => Decimal.FromInt(i)
    case Null => "None"
  }
}
