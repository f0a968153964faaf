/** The JavaScript numbers that the percentage and rate computations produce
    from integers with `/`, `* 100`, `Math.min` and `Math.round`, kept exactly:
    a fraction with a positive denominator, or one of the IEEE special values
    that a zero denominator yields. */
module JsNumber {

  datatype Num = Frac(num: int, den: int) | PosInf | NegInf | NaN

  predicate Valid(x: Num) {
    x.Frac? ==> x.den > 0
  }

  /** `a / b`: a fraction for a non-zero divisor; `Infinity`, `-Infinity`
      or `NaN` for a zero one, following the sign of `a`. */
  function Quotient(a: int, b: int): (q: Num)
    ensures Valid(q)
    ensures b != 0 ==> q.Frac? && q.num * b == a * q.den
    ensures b == 0 ==> (q == PosInf <==> a > 0) && (q == NegInf <==> a < 0) && (q == NaN <==> a == 0)
  {
    if b > 0 then Frac(a, b)
    else if b < 0 then Frac(-a, -b)
    else if a > 0 then PosInf
    else if a < 0 then NegInf
    else NaN
  }

  /** `x * k` for a positive integer `k`. */
  function Times(x: Num, k: nat): (r: Num)
    requires Valid(x) && k > 0
    ensures Valid(r)
  {
    match x
    case Frac(n, d) => Frac(n * k, d)
    case _ => x
  }

  /** `(a / b) * 100` */
  function Percent(a: int, b: int): (p: Num)
    ensures Valid(p)
  {
    Times(Quotient(a, b), 100)
  }

  /** `x >= t`; every comparison with `NaN` is false. */
  predicate AtLeast(x: Num, t: int) {
    match x
    case Frac(n, d) => n >= t * d
    case PosInf => true
    case NegInf => false
    case NaN => false
  }

  /** `x === t` */
  predicate Is(x: Num, t: int) {
    x.Frac? && x.num == t * x.den
  }

  /** `Math.min(x, t)`: `NaN` stays `NaN`. */
  function MinWith(x: Num, t: int): (r: Num)
    requires Valid(x)
    ensures Valid(r)
    ensures r != NaN ==> !AtLeast(r, t) || Is(r, t)
  {
    match x
    case Frac(n, d) => if n <= t * d then x else Frac(t, 1)
    case PosInf => Frac(t, 1)
    case NegInf => NegInf
    case NaN => NaN
  }

  /** `Math.round(x)`: the integer nearest to `x`, halves rounded up. */
  function Round(x: Num): (r: Num)
    requires Valid(x)
    ensures Valid(r)
    ensures x.Frac? ==> r.Frac? && r.den == 1
    ensures x.Frac? ==> (2 * r.num - 1) * x.den <= 2 * x.num < (2 * r.num + 1) * x.den
    ensures !x.Frac? ==> r == x
  {
    match x
    case Frac(n, d) =>
      var q := (2 * n + d) / (2 * d);
      assert 2 * d * q <= 2 * n + d < 2 * d * q + 2 * d;
      Frac(q, 1)
    case _ => x
  }

  /** `x / k` for a positive integer `k`. */
  function Over(x: Num, k: nat): (r: Num)
    requires Valid(x) && k > 0
    ensures Valid(r)
  {
    match x
    case Frac(n, d) => Frac(n, d * k)
    case _ => x
  }

  /** For a positive divisor, `(a / b) * 100 >= t` is the integer comparison
      `100 * a >= t * b`. */
  lemma PercentAtLeast(a: int, b: int, t: int)
    requires b > 0
    ensures AtLeast(Percent(a, b), t) <==> 100 * a >= t * b
  {
  }

  /** For a positive divisor, `(a / b) * 100 === t` is `100 * a == t * b`. */
  lemma PercentIs(a: int, b: int, t: int)
    requires b > 0
    ensures Is(Percent(a, b), t) <==> 100 * a == t * b
  {
  }

  /** A value rounded to the nearest integer stays within [0, m] when the
      rounded quotient `x / t` does. */
  lemma RoundedWithin(k: int, x: int, t: int, m: int)
    requires t > 0 && 0 <= x <= m * t
    requires (2 * k - 1) * t <= 2 * x < (2 * k + 1) * t
    ensures 0 <= k <= m
  {
    if k < 0 {
      MulAtMost(2 * k + 1, -1, t);
    }
    if k > m {
      MulAtMost(2 * m + 1, 2 * k - 1, t);
    }
  }

  lemma MulAtMost(a: int, b: int, t: int)
    requires a <= b && t >= 0
    ensures a * t <= b * t
  {
    assert b * t - a * t == (b - a) * t;
  }
}
