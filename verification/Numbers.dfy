/** Real arithmetic shared by the trading modules. */
module Numbers {
  function Abs(x: real): real {
    if x < 0.0 then -x else x
  }

  function MaxReal(x: real, y: real): real {
    if x < y then y else x
  }

  function MinReal(x: real, y: real): real {
    if y < x then y else x
  }

  function MaxInt(x: int, y: int): int {
    if x < y then y else x
  }

  function MinInt(x: int, y: int): int {
    if y < x then y else x
  }

  /** `round(x, 2)` as a whole number of hundredths: nearest, ties to even. */
  function Round2(x: real): (r: int)
    ensures -0.5 <= r as real - x * 100.0 <= 0.5
    ensures Abs(r as real - x * 100.0) == 0.5 ==> r % 2 == 0
  {
    var y := x * 100.0;
    var f := y.Floor;
    var d := y - f as real;
    if d < 0.5 || (d == 0.5 && f % 2 == 0) then f else f + 1
  }

  lemma MulMono(a: real, b: real, c: real)
    requires a <= b && 0.0 <= c
    ensures a * c <= b * c
  {
  }

  lemma MulPositive(a: real, b: real)
    requires a > 0.0 && b > 0.0
    ensures a * b > 0.0
  {
  }

  lemma MulStrict(a: real, b: real, c: real)
    requires a < b && 0.0 < c
    ensures a * c < b * c
  {
    MulPositive(b - a, c);
  }

  /** Dividing by a positive number and comparing is multiplying out. */
  lemma QuotientAtLeast(a: real, b: real, t: real)
    requires b > 0.0
    ensures a / b >= t <==> a >= t * b
    ensures a / b == t <==> a == t * b
  {
    var q := a / b;
    assert q * b == a;
    if q > t {
      MulStrict(t, q, b);
    } else if q < t {
      MulStrict(q, t, b);
    }
  }

  /** Being close to one factor of a product, multiplied out. */
  lemma TimesClose(a: real, b: real, c: real, product: real)
    requires c > 0.0 && Abs(a - b) <= 0.005 && b * c == product
    ensures Abs(a * c - product) <= 0.005 * c
  {
    var e := a - b;
    assert a * c - product == e * c;
    MulMono(e, 0.005, c);
    MulMono(-0.005, e, c);
  }

  lemma MulInt(a: int, b: int, d: int)
    requires d > 0 && a <= b
    ensures a * d <= b * d
  {
  }

  lemma MulCancel(a: int, b: int, d: int)
    requires d > 0 && a * d < b * d
    ensures a < b
  {
    if b <= a {
      MulInt(b, a, d);
    }
  }

  /** The quotient is the one multiplier whose multiple is within one divisor below. */
  lemma QuotientIs(x: int, d: int, q: int)
    requires d > 0 && q * d <= x < q * d + d
    ensures x / d == q && x % d == x - q * d
  {
    var p := x / d;
    assert p * d <= x < p * d + d;
    assert (p + 1) * d == p * d + d && (q + 1) * d == q * d + d;
    MulCancel(q, p + 1, d);
    MulCancel(p, q + 1, d);
  }
}
