/** Python's integer `%` and `int()` conversion, which differ from Dafny's `%` and `.Floor`. */
module PyInt {

  lemma MulAtLeast(b: int, m: int)
    requires b > 0 && m >= 1
    ensures b * m >= b
  {
    if m > 1 {
      MulAtLeast(b, m - 1);
      assert b * m == b * (m - 1) + b;
    }
  }

  /** Euclidean division is unique: any quotient/remainder pair with `0 <= r < |b|` is Dafny's. */
  lemma {:induction false} DivModUnique(x: int, b: int, k: int, r: int)
    requires b != 0 && 0 <= r < (if b > 0 then b else -b) && x == b * k + r
    ensures x % b == r
    decreases if b > 0 then 0 else 1
  {
    if b > 0 {
      var q, r0 := x / b, x % b;
      assert x == b * q + r0;
      if q > k { MulAtLeast(b, q - k); }
      if k > q { MulAtLeast(b, k - q); }
    } else {
      DivModUnique(x, -b, -k, r);
      var q, r0 := x / b, x % b;
      assert x == (-b) * (-q) + r0;
      DivModUnique(x, -b, -q, r0);
    }
  }

  /** Python's `a % b`, whose result takes the sign of the divisor `b`. */
  function PyMod(a: int, b: int): (r: int)
    requires b != 0
    ensures b > 0 ==> 0 <= r < b
    ensures b < 0 ==> b < r <= 0
    ensures 0 <= a < b ==> r == a
    ensures b < a <= 0 ==> r == a
  {
    if b > 0 then
      (if 0 <= a < b then DivModUnique(a, b, 0, a); a % b else a % b)
    else if a % b == 0 then 0
    else
      (if b < a < 0 then DivModUnique(a, b, 1, a - b); a % b + b else a % b + b)
  }

  /** Python's `%` gives the same result for `a` and `a + b`. */
  lemma PyModPeriodic(a: int, b: int)
    requires b != 0
    ensures PyMod(a + b, b) == PyMod(a, b)
  {
    var q := a / b;
    assert a == b * q + a % b;
    assert a + b == b * (q + 1) + a % b;
    DivModUnique(a + b, b, q + 1, a % b);
  }

  /** Python's `int(x)` on a real: truncation toward zero. */
  function Trunc(x: real): (n: int)
    ensures x >= 0.0 ==> n as real <= x < n as real + 1.0
    ensures x < 0.0 ==> n as real - 1.0 < x <= n as real
  {
    if x >= 0.0 then x.Floor else -((-x).Floor)
  }
}
