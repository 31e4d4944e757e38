/** Integer powers of reals, `x ** n` for a natural exponent `n`, and the
    field facts the solver needs spelled out for the formulas built on them. */
module Powers {

  lemma MulDivCancel(a: real, b: real)
    requires a != 0.0
    ensures (a * b) / a == b
  {
  }

  predicate IsQuotient(q: real, x: real, y: real)
  {
    q * y == x
  }

  /** Real division `x / y`, handed to the verifier through its defining
      property `q * y == x` alone. */
  function Quotient(x: real, y: real): (q: real)
    requires y != 0.0
    ensures q * y == x
  {
    assert IsQuotient(x / y, x, y);
    var q :| IsQuotient(q, x, y); q
  }

  /** A scaled quotient times its divisor. */
  lemma ScaledQuotient(x: real, y: real, f: real)
    requires y != 0.0
    ensures (Quotient(x, y) * f) * y == x * f
  {
    assert (Quotient(x, y) * f) * y == (Quotient(x, y) * y) * f;
  }

  /** A nonzero number has one reciprocal. */
  lemma ReciprocalUnique(q: real, r: real, a: real)
    requires a != 0.0 && q * a == 1.0 && r * a == 1.0
    ensures q == r
  {
    assert (q - r) * a == 0.0;
  }

  lemma QuotientOfProduct(c: real, x: real, y: real)
    requires c != 0.0 && c * x == y
    ensures y / c == x
  {
  }

  lemma ZeroProduct(a: real, b: real)
    requires a * b == 0.0 && b != 0.0
    ensures a == 0.0
  {
  }

  function Pow(x: real, n: nat): real
  {
    if n == 0 then 1.0 else x * Pow(x, n - 1)
  }

  lemma {:induction false} PowNonzero(x: real, n: nat)
    requires x != 0.0
    ensures Pow(x, n) != 0.0
  {
    if n > 0 {
      PowNonzero(x, n - 1);
    }
  }

  lemma {:induction false} PowOfOne(n: nat)
    ensures Pow(1.0, n) == 1.0
  {
    if n > 0 {
      PowOfOne(n - 1);
    }
  }

  lemma {:induction false} PowGreaterThanOne(x: real, n: nat)
    requires x > 1.0 && n >= 1
    ensures Pow(x, n) > 1.0
  {
    if n > 1 {
      PowGreaterThanOne(x, n - 1);
      assert x * Pow(x, n - 1) > 1.0 * Pow(x, n - 1);
    }
  }

  /** `x ** (m + n) == x ** m * x ** n` */
  lemma {:induction false} PowAdd(x: real, m: nat, n: nat)
    ensures Pow(x, m + n) == Pow(x, m) * Pow(x, n)
  {
    if m > 0 {
      PowAdd(x, m - 1, n);
      assert Pow(x, m + n) == x * Pow(x, m - 1 + n);
    }
  }

  /** Powers of mutually inverse numbers are mutually inverse. */
  lemma {:induction false} PowOfInverse(x: real, y: real, n: nat)
    requires x * y == 1.0
    ensures Pow(x, n) * Pow(y, n) == 1.0
  {
    if n > 0 {
      PowOfInverse(x, y, n - 1);
      var px, py := Pow(x, n - 1), Pow(y, n - 1);
      assert Pow(x, n) * Pow(y, n) == (x * y) * (px * py);
    }
  }
}
