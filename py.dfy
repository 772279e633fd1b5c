/** The slice of Python's runtime that the harvesters rely on: decoded JSON
    values, truthiness, `dict.get`, `float(...)`, true division, and the
    exceptions these can raise. */
module Py {

  /** A decoded JSON value. A JSON null and a key missing from `dict.get`
      without a default are both Python's `None`, written `JNull` here. */
  datatype Json =
    | JNull
    | JBool(b: bool)
    | JNum(n: real)
    | JStr(s: string)
    | JArr(elems: seq<Json>)
    | JObj(fields: map<string, Json>)

  /** A JSON object as `requests` decodes it: a Python dict. */
  type Dict = map<string, Json>

  /** The exceptions the modelled code can raise. */
  datatype Exc = TypeError | ValueError | AttributeError | NameError | KeyError | OverflowError

  datatype Option<T> = None | Some(value: T)

  /** The outcome of evaluating a Python expression: a value, or an exception. */
  datatype Result<T> = Ok(value: T) | Raise(exc: Exc) {
    predicate IsFailure() { Raise? }
    function PropagateFailure<U>(): Result<U>
      requires Raise?
    {
      Raise(exc)
    }
    function Extract(): T
      requires Ok?
    {
      value
    }
  }

  /** `bool(v)`: None, False, zero and empty containers are falsy. */
  predicate Truthy(v: Json) {
    match v
    case JNull => false
    case JBool(b) => b
    case JNum(n) => n != 0.0
    case JStr(s) => s != []
    case JArr(e) => e != []
    case JObj(f) => f != map[]
  }

  /** `d.get(k, default)` */
  function Get(d: Dict, k: string, default: Json): Json {
    if k in d then d[k] else default
  }

  /** CPython's conversion of a string to float (whitespace, signs, exponents,
      underscores): foreign to the model, so a parameter. Its finite results
      only: a real has no infinity or NaN. */
  type FloatOfStr = string -> Option<real>

  /** `float(v)` on a decoded JSON value. */
  function ToFloat(v: Json, floatOfStr: FloatOfStr): (r: Result<real>)
    ensures v.JNum? ==> r == Ok(v.n)
    ensures v.JBool? ==> r == Ok(if v.b then 1.0 else 0.0)
    ensures v.JStr? ==> (r.Ok? <==> floatOfStr(v.s).Some?) && (r.Ok? ==> r.value == floatOfStr(v.s).value)
    ensures v.JStr? && r.Raise? ==> r.exc == ValueError
    ensures v.JNull? || v.JArr? || v.JObj? ==> r == Raise(TypeError)
  {
    match v
    case JNum(n) => Ok(n)
    case JBool(b) => Ok(if b then 1.0 else 0.0)
    case JStr(s) =>
      (match floatOfStr(s)
       case Some(x) => Ok(x)
       case None => Raise(ValueError))
    case _ => Raise(TypeError)
  }

  /** `v / k` for a positive int `k`: true division, defined for numbers
      and booleans only. */
  function TrueDiv(v: Json, k: nat): (r: Result<real>)
    requires k > 0
    ensures r.Ok? <==> v.JNum? || v.JBool?
    ensures v.JNum? ==> r == Ok(v.n / k as real)
    ensures v.JBool? ==> r == Ok((if v.b then 1.0 else 0.0) / k as real)
  {
    match v
    case JNum(n) => Ok(n / k as real)
    case JBool(b) => Ok((if b then 1.0 else 0.0) / k as real)
    case _ => Raise(TypeError)
  }
}
