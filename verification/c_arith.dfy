/**
  The C integer operators the search relies on. Dafny's `/` and `%` are
  Euclidean; C's `/` truncates toward zero and its `%` takes the sign of the
  dividend, so both are written out here.
*/
module CArith {

  const INT32_MIN: int := -0x8000_0000
  const INT32_MAX: int := 0x7fff_ffff

  /** Whether `v` fits an `int32_t`. */
  predicate IsInt32(v: int) {
    INT32_MIN <= v <= INT32_MAX
  }

  function Abs(a: int): int {
    if a < 0 then -a else a
  }

  /** C's `a / b`: the quotient rounded toward zero. The two ensures pin the
      quotient down uniquely: the remainder is smaller than the divisor and
      has the sign of the dividend. */
  function Div(a: int, b: int): (q: int)
    requires b != 0
    ensures a >= 0 ==> 0 <= a - q * b < Abs(b)
    ensures a < 0 ==> -Abs(b) < a - q * b <= 0
  {
    var q0 := Abs(a) / Abs(b);
    var r0 := Abs(a) - q0 * Abs(b);
    EuclideanParts(Abs(a), Abs(b));
    if (a < 0) == (b < 0) then
      SignedRemainder(a, b, q0, q0, r0);
      q0
    else
      SignedRemainder(a, b, q0, -q0, r0);
      -q0
  }

  lemma EuclideanParts(n: int, d: int)
    requires n >= 0 && d > 0
    ensures 0 <= n - (n / d) * d < d
  {
  }

  /** `q` is `q0` with the sign of `a / b`; then `a - q * b` is `r0` with the sign of `a`. */
  lemma SignedRemainder(a: int, b: int, q0: int, q: int, r0: int)
    requires b != 0
    requires r0 == Abs(a) - q0 * Abs(b)
    requires q == if (a < 0) == (b < 0) then q0 else -q0
    ensures a - q * b == if a < 0 then -r0 else r0
  {
    if b > 0 {
      assert Abs(b) == b;
    } else {
      assert Abs(b) == -b;
      assert q0 * Abs(b) == -(q0 * b);
    }
  }

  /** C's `a % b`, the remainder that goes with `Div`. */
  function Rem(a: int, b: int): (r: int)
    requires b != 0
    ensures Abs(r) < Abs(b)
    ensures r != 0 ==> (r < 0 <==> a < 0)
    ensures (a - r) % b == 0
  {
    var q := Div(a, b);
    assert (q * b) % b == 0 by { MultipleHasZeroMod(q, b); }
    a - q * b
  }

  /** Truncating division is odd in its dividend, which Euclidean division is not. */
  lemma DivNegate(a: int, b: int)
    requires b != 0
    ensures Div(-a, b) == -Div(a, b)
  {
  }

  /** On a non-negative dividend and a positive divisor C's `/` is Dafny's `/`. */
  lemma DivNonNegative(a: int, b: int)
    requires a >= 0 && b > 0
    ensures Div(a, b) == a / b
  {
  }

  /** A C test `a % b == 0` means what Dafny's `a % b == 0` means: `b` divides `a`. */
  lemma RemZeroIff(a: int, b: int)
    requires b != 0
    ensures Rem(a, b) == 0 <==> a % b == 0
  {
    var q := Div(a, b);
    if Rem(a, b) == 0 {
      assert a == q * b;
      MultipleHasZeroMod(q, b);
    } else {
      if a % b == 0 {
        var k := a / b;
        assert a == k * b;
        MultipleHasZeroRem(k, b);
      }
    }
  }

  lemma MultipleHasZeroMod(k: int, b: int)
    requires b != 0
    ensures (k * b) % b == 0
  {
    var a := k * b;
    var r := a % b;
    var q := a / b;
    assert a == q * b + r;
    assert (k - q) * b == r;
    if k - q != 0 {
      AbsProductAtLeast(k - q, b);
      assert false;
    }
  }

  lemma MultipleHasZeroRem(k: int, b: int)
    requires b != 0
    ensures Rem(k * b, b) == 0
  {
    var a := k * b;
    var q := Div(a, b);
    assert (k - q) * b == a - q * b;
    if k - q != 0 {
      AbsProductAtLeast(k - q, b);
      assert false;
    }
  }

  /** A non-zero multiple of `b` is at least `b` in magnitude. */
  lemma AbsProductAtLeast(m: int, b: int)
    requires m != 0 && b != 0
    ensures Abs(m * b) >= Abs(b)
  {
    AbsProduct(m, b);
    var am, ab := Abs(m), Abs(b);
    assert am * ab == (am - 1) * ab + ab;
    NonNegativeProduct(am - 1, ab);
  }

  lemma AbsProduct(m: int, b: int)
    ensures Abs(m * b) == Abs(m) * Abs(b)
  {
    if m < 0 {
      assert m * b == -((-m) * b);
    }
    if b < 0 {
      assert Abs(m) * b == -(Abs(m) * (-b));
    }
  }

  lemma NonNegativeProduct(x: int, y: int)
    requires x >= 0 && y >= 0
    ensures x * y >= 0
  {
  }

  /** Multiplying by a non-negative factor keeps order. */
  lemma ProductMonotone(a: int, b: int, w: int)
    requires a <= b && w >= 0
    ensures a * w <= b * w
  {
    assert b * w - a * w == (b - a) * w;
    NonNegativeProduct(b - a, w);
  }

  /** Division by `w` undoes `q * w + r` for a remainder in range. */
  lemma DivModOf(q: int, r: int, w: int)
    requires w > 0 && 0 <= r < w
    ensures (q * w + r) / w == q && (q * w + r) % w == r
  {
    var i := q * w + r;
    var q', r' := i / w, i % w;
    assert q' * w + r' == q * w + r;
    if q' < q {
      ProductMonotone(q' + 1, q, w);
    } else if q' > q {
      ProductMonotone(q + 1, q', w);
    }
  }
}
