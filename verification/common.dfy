/** Shared value types: optional values, handler outcomes and JavaScript numbers. */
module Common {

  /** A value that may be absent (`null`/`undefined` in the components). */
  datatype Option<+T> = None | Some(value: T)

  /** Outcome of a validating submit handler: `Err` is the toast.error path,
      on which the handler returns before touching any state. */
  datatype Result<+T, +E> = Ok(value: T) | Err(error: E)

  /** A JavaScript number as produced by `parseInt`: either NaN or an integer.
      Fractions never arise because every number in the modelled handlers
      comes from `parseInt` or from integer literals. */
  datatype JsNum = NaN | Num(n: int)

  /** JavaScript `a + b` on such numbers: NaN is absorbing. */
  function Plus(a: JsNum, b: JsNum): (r: JsNum)
    ensures r.Num? <==> a.Num? && b.Num?
    ensures r.Num? ==> r.n - b.n == a.n
  {
    match (a, b)
    case (Num(x), Num(y)) => Num(x + y)
    case _ => NaN
  }

  /** JavaScript `Math.max(0, a)`: NaN stays NaN, everything else is clamped at zero. */
  function ClampAtZero(a: JsNum): (r: JsNum)
    ensures r.Num? <==> a.Num?
    ensures r.Num? ==> r.n >= 0 && r.n >= a.n && (r.n == a.n || r.n == 0)
  {
    match a
    case Num(x) => if x < 0 then Num(0) else Num(x)
    case NaN => NaN
  }

  /** JavaScript `x || 0` on a number: the falsy values NaN and 0 both give 0. */
  function OrZero(a: JsNum): (r: int)
    ensures a.NaN? ==> r == 0
    ensures a.Num? ==> r == a.n
  {
    match a
    case Num(x) => x
    case NaN => 0
  }
}
