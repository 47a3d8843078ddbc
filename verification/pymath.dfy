/** Python's numeric conversions, on exact reals. */
module PyMath {
  /** Python `int(x)`: truncation toward zero. */
  function Trunc(x: real): (n: int)
    ensures x >= 0.0 ==> 0 <= n && n as real <= x < n as real + 1.0
    ensures x < 0.0 ==> n <= 0 && n as real - 1.0 < x <= n as real
  {
    if x >= 0.0 then x.Floor else -((-x).Floor)
  }

  lemma TruncMonotone(a: real, b: real)
    requires a <= b
    ensures Trunc(a) <= Trunc(b)
  {
    if a >= 0.0 {
      assert a.Floor <= b.Floor;
    } else if b < 0.0 {
      assert (-b).Floor <= (-a).Floor;
    }
  }

  lemma MulBounds(a: real, q: real)
    requires 0.0 <= a && 0.0 <= q <= 1.0
    ensures 0.0 <= a * q <= a
  {
    assert a - a * q == a * (1.0 - q);
  }

  /** Python `round(x)`: the nearest integer, halves going to the even one. */
  function RoundHalfEven(x: real): (n: int)
    ensures x - 0.5 <= n as real <= x + 0.5
    ensures (n as real == x - 0.5 || n as real == x + 0.5) ==> n % 2 == 0
    ensures x == x.Floor as real ==> n == x.Floor
  {
    var f := x.Floor;
    var d := x - f as real;
    if d < 0.5 then f
    else if d > 0.5 then f + 1
    else if f % 2 == 0 then f
    else f + 1
  }

  function MinI(a: int, b: int): int { if a <= b then a else b }
  function MaxI(a: int, b: int): int { if a >= b then a else b }
  function MinR(a: real, b: real): real { if a <= b then a else b }
  function MaxR(a: real, b: real): real { if a >= b then a else b }

  /** `round(x, digits)` as numpy does it: round half to even at the given
      number of decimal places. */
  function RoundTo(x: real, digits: nat): (r: real)
    ensures x - 0.5 / Scale(digits) as real <= r <= x + 0.5 / Scale(digits) as real
  {
    var p := Scale(digits) as real;
    var n := RoundHalfEven(x * p);
    assert x * p - 0.5 <= n as real <= x * p + 0.5;
    DivideBounds(x * p - 0.5, n as real, x * p + 0.5, p);
    n as real / p
  }

  function Scale(digits: nat): (p: nat)
    ensures p >= 1
  {
    if digits == 0 then 1 else 10 * Scale(digits - 1)
  }

  lemma DivideBounds(lo: real, m: real, hi: real, p: real)
    requires lo <= m <= hi && p > 0.0
    ensures lo / p <= m / p <= hi / p
  {
  }

  /** Dividing by a positive number keeps a strict inequality. */
  lemma DivideStrict(a: real, b: real, d: real)
    requires a < b && d > 0.0
    ensures a / d < b / d
  {
  }

  /** Multiplying by a non-negative number keeps an inequality. */
  lemma MulMonotone(a: real, b: real, c: real)
    requires a <= b && c >= 0.0
    ensures a * c <= b * c
  {
  }

  /** A quotient by a positive number is bounded as its numerator is. */
  lemma QuotientWithin(w: real, v: real, lo: real, hi: real)
    requires v > 0.0 && lo * v <= w <= hi * v
    ensures lo <= w / v <= hi
  {
  }

  /** Weighting by a non-negative number keeps an inequality, strictly
      when the inequality and the weight are strict. */
  lemma WeighMonotone(c: real, a: real, b: real)
    requires a <= b && c >= 0.0
    ensures c * a <= c * b
    ensures a < b && c > 0.0 ==> c * a < c * b
  {
    MulMonotone(a, b, c);
  }

  /** Two sums bounded term by term. */
  lemma SumBounds(p: real, q: real, a: real, b: real)
    requires p <= a && q <= b
    ensures p + q <= a + b
  {
  }

  /** A running weighted sum stays between `lo` and `hi` times the running
      weight when a term between `lo` and `hi` is added with weight `c`:
      `v` is the new sum and `n` the new weight. */
  lemma AccumulateWithin(w: real, s: real, p: real, c: real, lo: real, hi: real, v: real, n: real)
    requires lo * s <= w <= hi * s && lo <= p <= hi && c >= 0.0
    requires v == w + p * c && n == s + c
    ensures lo * n <= v <= hi * n
  {
    MulMonotone(lo, p, c);
    MulMonotone(p, hi, c);
    assert lo * (s + c) == lo * s + lo * c;
    assert hi * (s + c) == hi * s + hi * c;
  }

  /** An empty sum over an empty weight is within any bounds. */
  lemma EmptyWithin(lo: real, hi: real, v: real, n: real)
    requires v == 0.0 && n == 0.0
    ensures lo * n <= v <= hi * n
  {
  }

  /** A weight times a fraction is at most the weight. */
  lemma WeighFraction(c: real, a: real)
    requires 0.0 <= a <= 1.0 && c >= 0.0
    ensures 0.0 <= c * a <= c
  {
    MulMonotone(a, 1.0, c);
    MulMonotone(0.0, a, c);
  }
}
