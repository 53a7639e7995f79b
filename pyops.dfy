/** Python operators and conversions on stored values, as the table and
    panel code applies them. */
module PyOps {
  import opened Values
  import opened Text

  /** `a * b` on values: numbers multiply (bools count 0 or 1), a string
      or list times a number repeats it, anything else raises TypeError. */
  function Mul(a: Value, b: Value): (r: Result<Value>)
    ensures AsNumber(a).Ok? && AsNumber(b).Ok? ==> r == Ok(Int(AsNumber(a).value * AsNumber(b).value))
    ensures r.Err? ==> r.error == TypeError
  {
    match (AsNumber(a), AsNumber(b))
    case (Ok(x), Ok(y)) => Ok(Int(x * y))
    case (Ok(x), Err(_)) =>
      if b.Str? then Ok(Str(Repeat(b.s, x)))
      else if b.List? then Ok(List(Repeat(b.items, x)))
      else Err(TypeError)
    case (Err(_), Ok(y)) =>
      if a.Str? then Ok(Str(Repeat(a.s, y)))
      else if a.List? then Ok(List(Repeat(a.items, y)))
      else Err(TypeError)
    case (Err(_), Err(_)) => Err(TypeError)
  }

  /** `len(v)`. */
  function Len(v: Value): Result<int>
  {
    match v
    case Str(s) => Ok(|s|)
    case List(items) => Ok(|items|)
    case Dict(m) => Ok(|m.Keys|)
    case _ => Err(TypeError)
  }

  /** `int(v)`: numbers as they are (bools as 0 or 1), strings parsed. */
  function IntOf(v: Value): (r: Result<int>)
    ensures v.Int? ==> r == Ok(v.i)
    ensures v.Str? ==> r == ParseInt(v.s)
  {
    match v
    case Str(s) => ParseInt(s)
    case _ => AsNumber(v)
  }

  /** `str(v)`; the `repr` of lists and dicts is not modelled. */
  function PyStr(v: Value): (r: Result<string>)
    ensures v.Str? ==> r == Ok(v.s)
    ensures v.Int? ==> r.Ok? && ParseInt(r.value) == Ok(v.i)
  {
    match v
    case Str(s) => Ok(s)
    case Int(i) => ParseIntRoundTrip(i); Ok(IntToString(i))
    case Bool(b) => Ok(if b then "True" else "False")
    case NoneValue => Ok("None")
    case _ => Err(Unmodelled)
  }

  /** `"{:.n}".format(v)`: a string cut to its first `n` characters; an
      int or bool refuses a precision (ValueError), other objects refuse
      any format specification (TypeError). */
  function Precision(v: Value, n: nat): (r: Result<string>)
    ensures r.Ok? <==> v.Str?
    ensures r.Ok? ==> |r.value| <= n && r.value <= v.s && (|v.s| <= n ==> r.value == v.s)
  {
    match v
    case Str(s) => Ok(Take(s, n))
    case Int(_) => Err(ValueError)
    case Bool(_) => Err(ValueError)
    case _ => Err(TypeError)
  }

  /** `v[:n]` for a non-negative `n`. */
  function Slice(v: Value, n: nat): (r: Result<Value>)
    ensures r.Ok? <==> v.Str? || v.List?
    ensures v.Str? ==> r.Ok? && r.value.Str? && |r.value.s| <= n && r.value.s <= v.s
                       && (|v.s| <= n ==> r.value == v)
  {
    match v
    case Str(s) => Ok(Str(Take(s, n)))
    case List(items) => Ok(List(if |items| <= n then items else items[..n]))
    case _ => Err(TypeError)
  }
}
