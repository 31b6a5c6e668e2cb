/** The Python values the validation engine sees: decoded JSON payload values,
    field defaults and the results of coercion. */
module Values {

  datatype Option<+T> = None | Some(value: T)

  /** An operation that either yields a value or fails with a message
      (a raised `ValueError` in the source). */
  datatype Result<+T> = Ok(value: T) | Err(msg: string)

  /** A Python float. Finite values are kept exact; rounding to binary64 is not modelled. */
  datatype PyFloat = Finite(r: real) | Inf(negative: bool) | NaN {
    /** `float.is_integer()` */
    predicate IsInteger() {
      Finite? && r.Floor as real == r
    }
  }

  /** A `datetime.date`. */
  datatype Date = Date(year: int, month: int, day: int)

  /** A naive `datetime.datetime`. */
  datatype DateTime = DateTime(date: Date, hour: int, minute: int, second: int, microsecond: int)

  /** `datetime.combine(d, datetime.min.time())` */
  function Midnight(d: Date): DateTime
  {
    DateTime(d, 0, 0, 0, 0)
  }

  /** A Python value. `Bool` is kept apart from `Int`, but Python treats a bool as an int,
      which `IsPyInt` below makes explicit. */
  datatype Value =
    | Null
    | Bool(b: bool)
    | Int(i: int)
    | Float(f: PyFloat)
    | Str(s: string)
    | List(items: seq<Value>)
    | Tuple(items: seq<Value>)
    | Dict(entries: map<string, Value>)
    | DateObj(date: Date)
    | DateTimeObj(dateTime: DateTime)

  /** `isinstance(v, int)`: true for bools as well. */
  predicate IsPyInt(v: Value) {
    v.Int? || v.Bool?
  }

  /** `isinstance(v, (int, float))` */
  predicate IsNumber(v: Value) {
    IsPyInt(v) || v.Float?
  }

  /** `isinstance(v, date)`: a `datetime` is a `date` too. */
  predicate IsPyDate(v: Value) {
    v.DateObj? || v.DateTimeObj?
  }

  /** Python truthiness (`bool(v)`). */
  predicate Truthy(v: Value) {
    match v
    case Null => false
    case Bool(b) => b
    case Int(i) => i != 0
    case Float(f) => !(f.Finite? && f.r == 0.0)
    case Str(s) => |s| > 0
    case List(items) => |items| > 0
    case Tuple(items) => |items| > 0
    case Dict(entries) => |entries| > 0
    case DateObj(_) => true
    case DateTimeObj(_) => true
  }

  /** The library calls the engine makes and does not define: `str()` of a value that is not
      a string, and `datetime.strptime(text, format)`, whose failure message is carried in `Err`. */
  datatype Runtime = Runtime(
    toStr: Value -> string,
    strptime: (string, string) -> Result<DateTime>)

  /** `", ".join(parts)` and the like. */
  function Join(parts: seq<string>, sep: string): string
  {
    if |parts| == 0 then ""
    else if |parts| == 1 then parts[0]
    else parts[0] + sep + Join(parts[1..], sep)
  }
}
