/** Floating-point samples as numpy sees them, without rounding: an exact real,
    a NaN or a signed infinity. The operations follow IEEE 754 for the special
    values (NaN propagates, opposite infinities cancel to NaN, zero times an
    infinity is NaN, division by zero gives an infinity or NaN) and exact real
    arithmetic otherwise. */
module Samples {

  datatype Sample = Num(v: real) | NaN | Inf(positive: bool)

  /** The largest finite double, (2^53 - 1) * 2^971: what `np.nan_to_num`
      puts in place of +inf. */
  const MaxDouble: real := 179769313486231570814527423731704356798070567525844996598917476803157260780028538760589558632766878171540458953514382464234321326889464182768467546703537516986049910576551282076245490090389328944075868508455133942304583236903222948165808559332123348274797826204144723168738177180919299881250404026184124858368.0

  function Abs(s: Sample): (r: Sample)
    ensures r.Num? ==> r.v >= 0.0
    ensures r.NaN? <==> s.NaN?
  {
    match s
    case Num(x) => Num(if x < 0.0 then -x else x)
    case NaN => NaN
    case Inf(_) => Inf(true)
  }

  /** `np.greater(s, c)`: false whenever `s` is NaN. */
  predicate Greater(s: Sample, c: real)
  {
    match s
    case Num(x) => x > c
    case NaN => false
    case Inf(p) => p
  }

  function Neg(a: Sample): Sample
  {
    match a
    case Num(x) => Num(-x)
    case NaN => NaN
    case Inf(p) => Inf(!p)
  }

  function Add(a: Sample, b: Sample): Sample
  {
    match (a, b)
    case (NaN, _) => NaN
    case (_, NaN) => NaN
    case (Num(x), Num(y)) => Num(x + y)
    case (Num(_), Inf(q)) => Inf(q)
    case (Inf(p), Num(_)) => Inf(p)
    case (Inf(p), Inf(q)) => if p == q then Inf(p) else NaN
  }

  function Sub(a: Sample, b: Sample): Sample
  {
    Add(a, Neg(b))
  }

  function Mul(a: Sample, b: Sample): Sample
  {
    match (a, b)
    case (NaN, _) => NaN
    case (_, NaN) => NaN
    case (Num(x), Num(y)) => Num(x * y)
    case (Num(x), Inf(q)) => if x == 0.0 then NaN else Inf(q == (x > 0.0))
    case (Inf(p), Num(y)) => if y == 0.0 then NaN else Inf(p == (y > 0.0))
    case (Inf(p), Inf(q)) => Inf(p == q)
  }

  /** Division by a tolerance read from the configuration (a positive zero
      when it is zero). */
  function Div(a: Sample, d: real): Sample
  {
    match a
    case NaN => NaN
    case Num(x) =>
      if d != 0.0 then Num(x / d)
      else if x > 0.0 then Inf(true)
      else if x < 0.0 then Inf(false)
      else NaN
    case Inf(p) => if d < 0.0 then Inf(!p) else Inf(p)
  }

  /** `np.nan_to_num`: NaN becomes 0 and the infinities the largest finite
      doubles of their sign. */
  function NanToNum(s: Sample): (r: Sample)
    ensures r.Num?
    ensures s.Num? ==> r == s
  {
    match s
    case Num(x) => s
    case NaN => Num(0.0)
    case Inf(p) => Num(if p then MaxDouble else -MaxDouble)
  }

  /** A sample minus itself is never greater than anything after division:
      it is 0 (or NaN, for NaN, an infinity or a zero divisor). */
  lemma SelfDifferenceNeverGreater(s: Sample, d: real, c: real)
    requires c >= 0.0
    ensures !Greater(Div(Sub(s, s), d), c)
  {
  }
}
