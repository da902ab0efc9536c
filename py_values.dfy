/**
  Python values as a decoded JSON request body holds them, the exceptions the
  request handlers can raise, and the built-ins the handlers apply to values:
  truthiness, `dict.get` and `float()`.
 */
module PyValues {
  import opened Wrappers

  datatype Value =
    | NoneValue
    | Bool(b: bool)
    | Int(i: int)
    | Float(f: real)
    | Str(s: string)
    | List(items: seq<Value>)
    | Dict(entries: map<string, Value>)

  /** Python's truth value: `None`, `False`, zero and empty containers are false. */
  predicate Truthy(v: Value) {
    match v
    case NoneValue => false
    case Bool(b) => b
    case Int(i) => i != 0
    case Float(f) => f != 0.0
    case Str(s) => s != ""
    case List(items) => items != []
    case Dict(entries) => entries != map[]
  }

  /** `type(v).__name__` */
  function TypeName(v: Value): string {
    match v
    case NoneValue => "NoneType"
    case Bool(_) => "bool"
    case Int(_) => "int"
    case Float(_) => "float"
    case Str(_) => "str"
    case List(_) => "list"
    case Dict(_) => "dict"
  }

  /** The exceptions a handler can meet. `ValueError(s)` is what `float(s)`
      raises for a string it cannot read. `NonFiniteInput` is the `ValueError`
      scikit-learn raises when a row fed to a fitted forest has an entry that is
      infinite once cast to `float32`. `HttpError` is what Flask raises when
      the request body cannot be read as JSON, carrying Flask's own text. */
  datatype Exception =
    | AttributeError(typeName: string, attribute: string)
    | TypeError(typeName: string)
    | ValueError(text: string)
    | NonFiniteInput
    | OverflowError
    | HttpError(description: string)

  const NonFiniteInputMessage: string := "Input X contains infinity or a value too large for dtype('float32')."

  /** `str(e)`, the text a handler puts under "error". */
  function Message(e: Exception): (m: string)
    ensures m != ""
  {
    match e
    case AttributeError(t, a) => "'" + t + "' object has no attribute '" + a + "'"
    case TypeError(t) => "float() argument must be a string or a real number, not '" + t + "'"
    case ValueError(s) => "could not convert string to float: '" + s + "'"
    case NonFiniteInput => NonFiniteInputMessage
    case OverflowError => "int too large to convert to float"
    case HttpError(d) => if d == "" then "400 Bad Request" else d
  }

  /** `d.get(key, default)` */
  function Get(d: map<string, Value>, key: string, default: Value): (v: Value)
    ensures key in d ==> v == d[key]
    ensures key !in d ==> v == default
  {
    if key in d then d[key] else default
  }

  /** The least magnitude of an `int` that `float()` rounds up to 2^1024 and
      so refuses: halfway between the largest double, 2^1024 - 2^971, and 2^1024. */
  const FloatOverflow: int :=
    179_769_313_486_231_580_793_728_971_405_303_415_079_934_132_710_037_826_936_173_778_980_444_968_292_764_750_946_649_017_977_587_207_096_330_286_416_692_887_910_946_555_547_851_940_402_630_657_488_671_505_820_681_908_902_000_708_383_676_273_854_845_817_711_531_764_475_730_270_069_855_571_366_959_622_842_914_819_860_834_936_475_292_719_074_168_444_365_510_704_342_711_559_699_508_093_042_880_177_904_174_497_792

  /** `float(v)`. Parsing a numeric string is Python's own routine and is a
      parameter: `parse(s)` is the number `s` denotes, or `None` when `float(s)`
      raises. */
  function ToFloat(v: Value, parse: string -> Option<real>): (r: Result<real, Exception>)
    ensures v.Int? && -FloatOverflow < v.i < FloatOverflow ==> r == Ok(v.i as real)
    ensures v.Int? && (v.i <= -FloatOverflow || v.i >= FloatOverflow) ==> r == Err(OverflowError)
    ensures v.Float? ==> r == Ok(v.f)
    ensures v.Bool? ==> r == Ok(if v.b then 1.0 else 0.0)
    ensures v.Str? ==> r == (if parse(v.s).Some? then Ok(parse(v.s).value) else Err(ValueError(v.s)))
    ensures (v.NoneValue? || v.List? || v.Dict?) ==> r == Err(TypeError(TypeName(v)))
  {
    match v
    case Int(i) => if -FloatOverflow < i < FloatOverflow then Ok(i as real) else Err(OverflowError)
    case Float(f) => Ok(f)
    case Bool(b) => Ok(if b then 1.0 else 0.0)
    case Str(s) =>
      (match parse(s)
       case Some(x) => Ok(x)
       case None => Err(ValueError(s)))
    case _ => Err(TypeError(TypeName(v)))
  }
}
