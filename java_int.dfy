/** The pieces of Java integer arithmetic the core relies on. */
module JavaInt {
  import opened Outcomes

  const INT_MIN: int := -0x8000_0000
  const INT_MAX: int := 0x7FFF_FFFF

  /** Whether `x` fits in a Java `int`. */
  predicate IsInt32(x: int) {
    INT_MIN <= x <= INT_MAX
  }

  /** `Math.max(a, b)`. */
  function Max(a: int, b: int): (r: int)
    ensures r >= a && r >= b && (r == a || r == b)
  {
    if a >= b then a else b
  }

  function Abs(x: int): (r: nat)
    ensures r == x || r == -x
  {
    if x < 0 then -x else x
  }

  /** `Integer.compare(x, y)`: exactly -1, 0 or 1. */
  function IntegerCompare(x: int, y: int): (r: int)
    ensures r == -1 <==> x < y
    ensures r == 0 <==> x == y
    ensures r == 1 <==> x > y
  {
    if x < y then -1 else if x == y then 0 else 1
  }

  const TWO_TO_THE_32: int := 0x1_0000_0000

  /**
   * The `int` that Java's 32-bit two's-complement arithmetic yields for an
   * operation whose exact value is `x`: `x` itself when it fits, otherwise
   * `x` wrapped around modulo 2^32.
   */
  function Wrap(x: int): (r: int)
    ensures IsInt32(r)
    ensures IsInt32(x) ==> r == x
    ensures (x - r) % TWO_TO_THE_32 == 0
  {
    (x - INT_MIN) % TWO_TO_THE_32 + INT_MIN
  }

  /**
   * Java's integer quotient by a non-zero divisor: truncated toward zero,
   * so the remainder `a - q * b` has the sign of the dividend and is less
   * than the divisor in magnitude (section 15.17.2 of the Java Language
   * Specification). Dafny's own `/` is Euclidean, which differs for a
   * negative operand.
   */
  function Div(a: int, b: int): (q: int)
    requires b != 0
    ensures a >= 0 ==> 0 <= a - q * b < Abs(b)
    ensures a < 0 ==> 0 < Abs(b) + (a - q * b) && a - q * b <= 0
  {
    var m := Abs(a) / Abs(b);
    var q := if (a >= 0) == (b > 0) then m else -m;
    DivRemainder(a, b, m, q);
    q
  }

  lemma DivRemainder(a: int, b: int, m: int, q: int)
    requires b != 0 && m == Abs(a) / Abs(b) && q == (if (a >= 0) == (b > 0) then m else -m)
    ensures a - q * b == (if a >= 0 then Abs(a) % Abs(b) else -(Abs(a) % Abs(b)))
  {
    var n := Abs(b);
    assert Abs(a) == m * n + Abs(a) % n;
    if b > 0 {
      assert n == b;
      if a < 0 {
        assert q * b == -(m * n);
      }
    } else {
      assert n == -b;
      if a >= 0 {
        assert q * b == m * n;
      } else {
        assert q * b == -(m * n);
      }
    }
  }

  /**
   * The `/` operator on two `int`s: an `ArithmeticException` for a zero
   * divisor, otherwise the truncated quotient, wrapped (only
   * `INT_MIN / -1` wraps).
   */
  function Divide(a: int, b: int): (r: Result<int>)
    ensures r.Err? <==> b == 0
    ensures r.Err? ==> r.error == Arithmetic
  {
    if b == 0 then Err(Arithmetic) else Ok(Wrap(Div(a, b)))
  }

  /** Truncating division by a positive divisor is monotone in the dividend. */
  lemma DivMonotone(a1: int, a2: int, b: int)
    requires b > 0 && a1 <= a2
    ensures Div(a1, b) <= Div(a2, b)
  {
    var q1, q2 := Div(a1, b), Div(a2, b);
    if q1 > q2 {
      var p1, p2 := q1 * b, q2 * b;
      // p1 - p2 >= b, so the remainders a1 - p1 and a2 - p2 are at least b apart
      assert p1 - p2 >= b by {
        MulAtLeast(q1 - q2, b);
        assert (q1 - q2) * b == p1 - p2;
      }
      if a1 < 0 && a2 >= 0 {
        // both remainders lie in (-b, b), but with opposite signs q1 <= 0 <= q2
        if q1 >= 1 {
          MulAtLeast(q1, b);
        }
      }
    }
  }

  lemma MulAtLeast(k: int, b: int)
    requires k >= 1 && b > 0
    ensures k * b >= b
  {
  }

  /** Truncating and Euclidean division agree on a non-negative dividend. */
  lemma DivOfNonNegative(a: int, b: int)
    requires a >= 0 && b > 0
    ensures Div(a, b) == a / b
  {
  }
}
