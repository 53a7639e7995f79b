/** Dynamic values as the protocol database stores them, and the Python
    errors that the modelled operations raise. */
module Values {

  datatype Option<+T> = None | Some(value: T)

  /** The exception classes the modelled code can raise.  `Unmodelled`
      marks the few places where the source would go on with behaviour this
      model does not cover (floating point, writing record fields into the
      summary entry); README lists them. */
  datatype Error =
    | KeyError
    | IndexError
    | ValueError
    | TypeError
    | AttributeError
    | AssertionError
    | ZeroDivisionError
    | ImportError
    | UnboundLocalError
    | OSError
    | Unmodelled

  datatype Result<+T> = Ok(value: T) | Err(error: Error) {
    predicate IsFailure() { Err? }
    function PropagateFailure<U>(): Result<U>
      requires Err?
    {
      Err(error)
    }
    function Extract(): T
      requires Ok?
    {
      value
    }
  }

  /** A JSON-like value held in a record field. */
  datatype Value =
    | Str(s: string)
    | Int(i: int)
    | Bool(b: bool)
    | List(items: seq<Value>)
    | Dict(fields: map<string, Value>)
    | NoneValue

  /** One experiment record: field name to value. */
  type Record = map<string, Value>

  /** `v[key]` for a string key: a dict lookup, KeyError when the key is
      absent, TypeError on anything that is not a dict. */
  function Lookup(v: Value, key: string): Result<Value>
  {
    match v
    case Dict(m) => if key in m then Ok(m[key]) else Err(KeyError)
    case _ => Err(TypeError)
  }

  /** `rec[key]` on a record. */
  function Field(rec: Record, key: string): Result<Value>
  {
    if key in rec then Ok(rec[key]) else Err(KeyError)
  }

  /** The integer a value contributes to `n += v`: bools count 0 or 1. */
  function AsNumber(v: Value): Result<int>
  {
    match v
    case Int(i) => Ok(i)
    case Bool(b) => Ok(if b then 1 else 0)
    case _ => Err(TypeError)
  }

  /** `v == "text"` for a Python value. */
  predicate IsStr(v: Value, text: string)
  {
    v == Str(text)
  }
}
