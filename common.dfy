/** Shared value types and the integer/real helpers that Python's built-ins
    provide to both source files: min/max, clamping, `int()` (truncation
    toward zero) and `round()` (round half to even). */
module Common {

  datatype Option<+T> = None | Some(value: T)

  /** A value or the error the source raises instead of returning one. */
  datatype Result<+T, +E> = Ok(value: T) | Err(error: E)

  function Max(a: int, b: int): int { if a >= b then a else b }

  function Min(a: int, b: int): int { if a <= b then a else b }

  function MaxR(a: real, b: real): real { if a >= b then a else b }

  function MinR(a: real, b: real): real { if a <= b then a else b }

  /** The source's `max(lo, min(hi, v))`. */
  function ClampR(v: real, lo: real, hi: real): (r: real)
    requires lo <= hi
    ensures lo <= r <= hi
    ensures lo <= v <= hi ==> r == v
  {
    MaxR(lo, MinR(hi, v))
  }

  /** Python's `int(x)` for a float: truncation toward zero. */
  function Trunc(x: real): (n: int)
    ensures x >= 0.0 ==> n >= 0 && n as real <= x < n as real + 1.0
    ensures x < 0.0 ==> n <= 0 && n as real - 1.0 < x <= n as real
  {
    if x >= 0.0 then x.Floor else -((-x).Floor)
  }

  /** Python's `round(x)` to an int: to nearest, ties to the even neighbour. */
  function RoundHalfEven(x: real): (n: int)
    ensures n as real - 0.5 <= x <= n as real + 0.5
  {
    var f := x.Floor;
    var d := x - f as real;
    if d > 0.5 then f + 1
    else if d < 0.5 then f
    else if f % 2 == 0 then f else f + 1
  }

  /** Rounding never leaves an interval whose ends are integers. */
  lemma RoundHalfEvenWithin(x: real, lo: int, hi: int)
    requires lo as real <= x <= hi as real
    ensures lo <= RoundHalfEven(x) <= hi
  {
    var f := x.Floor;
    assert lo <= f;
  }

  /** `round(p / q)` for integers, as exact rational arithmetic. */
  function RoundDiv(p: int, q: int): (n: int)
    requires q > 0
    ensures 2 * q * n - q <= 2 * p <= 2 * q * n + q
  {
    var f := p / q;
    var rem := p % q;
    if 2 * rem > q then f + 1
    else if 2 * rem < q then f
    else if f % 2 == 0 then f else f + 1
  }

  /** Euclidean division is determined by quotient and remainder. */
  lemma DivUnique(p: int, q: int, a: int, b: int)
    requires q > 0 && 0 <= b < q && p == q * a + b
    ensures p / q == a && p % q == b
  {
    var d := p / q;
    assert q * d + p % q == p;
    if d < a {
      MulAtLeast(q, a - d);
    } else if d > a {
      MulAtLeast(q, d - a);
    }
  }

  lemma MulAtLeast(q: int, k: int)
    requires q > 0 && k >= 1
    ensures q * k >= q
  {
  }

  /** Rounding an exact quotient gives the quotient. */
  lemma RoundDivExact(m: int, q: int)
    requires q > 0
    ensures RoundDiv(m * q, q) == m
  {
    DivUnique(m * q, q, m, 0);
  }

  /** Rounding a quotient is monotonic in the dividend. */
  lemma RoundDivMonotonic(p: int, p2: int, q: int)
    requires q > 0 && p <= p2
    ensures RoundDiv(p, q) <= RoundDiv(p2, q)
  {
    var n, n2 := RoundDiv(p, q), RoundDiv(p2, q);
    if p < p2 && n > n2 {
      assert 2 * q * n - q < 2 * q * n2 + q;
      MulAtLeast(2 * q, n - n2);
    }
  }
}
