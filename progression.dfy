/** Arithmetic and geometric progressions (progression.py).

    A progression is given by its first term and its ratio (the common
    difference of an arithmetic progression, the common quotient of a
    geometric one) and is indexed from 1. The Python subclasses
    `ArithmeticProgression` and `GeometricProgression` differ only in their
    formulas, so here they are one class whose `kind` selects the formula. */
module Progressions {
  import opened Results
  import opened Powers

  datatype Kind = Arithmetic | Geometric

  /** `_check_index`: an index below 1 raises `IndexError`. */
  predicate ValidIndex(n: int)
  {
    n >= 1
  }

  /** The closed form of the `n`-th term, as `_nth_term` computes it from
      the first term `terms[1]`. */
  function Term(kind: Kind, initialTerm: real, ratio: real, n: int): real
    requires ValidIndex(n)
  {
    match kind
    case Arithmetic => initialTerm + (n - 1) as real * ratio
    case Geometric => initialTerm * Pow(ratio, n - 1)
  }

  /** Each term is the previous one advanced by the ratio: plus it for an
      arithmetic progression, times it for a geometric one. */
  lemma TermStep(kind: Kind, initialTerm: real, ratio: real, n: int)
    requires ValidIndex(n)
    ensures Term(kind, initialTerm, ratio, 1) == initialTerm
    ensures kind == Arithmetic ==> Term(kind, initialTerm, ratio, n + 1) == Term(kind, initialTerm, ratio, n) + ratio
    ensures kind == Geometric ==> Term(kind, initialTerm, ratio, n + 1) == Term(kind, initialTerm, ratio, n) * ratio
  {
    if kind == Geometric {
      var p := Pow(ratio, n - 1);
      assert Pow(ratio, n) == ratio * p;
      assert Term(kind, initialTerm, ratio, n + 1) == initialTerm * (ratio * p);
    }
  }

  /** The first `n` terms, in index order. */
  function Terms(kind: Kind, initialTerm: real, ratio: real, n: nat): (s: seq<real>)
    ensures |s| == n
  {
    if n == 0 then [] else Terms(kind, initialTerm, ratio, n - 1) + [Term(kind, initialTerm, ratio, n)]
  }

  /** Position `j` of the first `n` terms holds the term of index `j + 1`. */
  lemma {:induction false} TermsAt(kind: Kind, initialTerm: real, ratio: real, n: nat, j: int)
    requires 0 <= j < n
    ensures Terms(kind, initialTerm, ratio, n)[j] == Term(kind, initialTerm, ratio, j + 1)
  {
    if j < n - 1 {
      TermsAt(kind, initialTerm, ratio, n - 1, j);
    }
  }

  function Sum(s: seq<real>): real
  {
    if |s| == 0 then 0.0 else Sum(s[..|s| - 1]) + s[|s| - 1]
  }

  /** The term cache holding exactly the indices `1..n`. */
  function CachedPrefix(kind: Kind, initialTerm: real, ratio: real, n: int): map<int, real>
  {
    map j | 1 <= j <= n :: Term(kind, initialTerm, ratio, j)
  }

  lemma SumOfTermsStep(kind: Kind, initialTerm: real, ratio: real, n: int)
    requires ValidIndex(n)
    ensures Sum(Terms(kind, initialTerm, ratio, n))
         == Sum(Terms(kind, initialTerm, ratio, n - 1)) + Term(kind, initialTerm, ratio, n)
  {
    var s := Terms(kind, initialTerm, ratio, n);
    assert s[..n - 1] == Terms(kind, initialTerm, ratio, n - 1);
  }

  /** The sum of the terms of indices `1..n`, added one term at a time. */
  function PartialSum(kind: Kind, initialTerm: real, ratio: real, n: nat): real
  {
    if n == 0 then 0.0 else PartialSum(kind, initialTerm, ratio, n - 1) + Term(kind, initialTerm, ratio, n)
  }

  /** Adding up the list of the first `n` terms gives the partial sum. */
  lemma {:induction false} PartialSumIsSumOfTerms(kind: Kind, initialTerm: real, ratio: real, n: nat)
    ensures Sum(Terms(kind, initialTerm, ratio, n)) == PartialSum(kind, initialTerm, ratio, n)
  {
    if n > 0 {
      PartialSumIsSumOfTerms(kind, initialTerm, ratio, n - 1);
      SumOfTermsStep(kind, initialTerm, ratio, n);
    }
  }

  /** The closed-form partial sum `sum_first_terms(n)`: `n * (a1 + an) / 2`
      for an arithmetic progression; `n * a1` for a geometric progression of
      ratio 1 and `a1 * (1 - r ** n) / (1 - r)` for any other ratio. */
  function ClosedSum(kind: Kind, initialTerm: real, ratio: real, n: int): real
    requires ValidIndex(n)
  {
    match kind
    case Arithmetic => n as real * (initialTerm + Term(kind, initialTerm, ratio, n)) / 2.0
    case Geometric =>
      if ratio == 1.0 then n as real * initialTerm
      else GeometricClosedSum(initialTerm, ratio, n)
  }

  /** `a1 * (1 - r ** n) / (1 - r)`, the geometric partial sum for a ratio other than 1. */
  function GeometricClosedSum(initialTerm: real, ratio: real, n: nat): real
    requires ratio != 1.0
  {
    initialTerm * (1.0 - Pow(ratio, n)) / (1.0 - ratio)
  }

  /** One step of the arithmetic sum on plain reals, with `x` the index and
      `y`, `z` the indices one and two before it. */
  lemma ArithmeticSumStep(a: real, d: real, x: real, y: real, z: real, before: real, sum: real)
    requires y == x - 1.0 && z == x - 2.0
    requires before == y * (a + (a + z * d)) / 2.0
    requires sum == before + (a + y * d)
    ensures sum == x * (a + (a + y * d)) / 2.0
  {
  }

  lemma {:induction false} ArithmeticClosedSumIsSum(initialTerm: real, ratio: real, n: int)
    requires ValidIndex(n)
    ensures ClosedSum(Arithmetic, initialTerm, ratio, n) == PartialSum(Arithmetic, initialTerm, ratio, n)
    decreases n
  {
    if n == 1 {
      assert Term(Arithmetic, initialTerm, ratio, 1) == initialTerm;
      assert Terms(Arithmetic, initialTerm, ratio, 1) == [initialTerm];
    } else {
      ArithmeticClosedSumIsSum(initialTerm, ratio, n - 1);
      ArithmeticSumStep(initialTerm, ratio, n as real, (n - 1) as real, (n - 2) as real,
                        PartialSum(Arithmetic, initialTerm, ratio, n - 1),
                        PartialSum(Arithmetic, initialTerm, ratio, n));
    }
  }

  lemma {:induction false} UnitRatioSumIsSum(initialTerm: real, n: nat)
    ensures n as real * initialTerm == PartialSum(Geometric, initialTerm, 1.0, n)
  {
    if n > 0 {
      UnitRatioSumIsSum(initialTerm, n - 1);
      PowOfOne(n - 1);
    }
  }

  /** One step of the telescoping identity on plain reals: if
      `(1 - r) * before == a * (1 - p)`, adding the next term `a * p` and
      advancing the power to `r * p` keeps it. */
  lemma TelescopeStep(a: real, r: real, p: real, before: real, sum: real, next: real)
    requires (1.0 - r) * before == a * (1.0 - p)
    requires sum == before + a * p
    requires next == r * p
    ensures (1.0 - r) * sum == a * (1.0 - next)
  {
  }

  /** The telescoping identity behind the geometric sum, free of division:
      `(1 - r) * (a1 + a1 r + ... + a1 r^(n-1)) == a1 * (1 - r^n)`. */
  lemma {:induction false} GeometricSumTelescopes(initialTerm: real, ratio: real, n: nat)
    ensures (1.0 - ratio) * PartialSum(Geometric, initialTerm, ratio, n) == initialTerm * (1.0 - Pow(ratio, n))
  {
    if n > 0 {
      GeometricSumTelescopes(initialTerm, ratio, n - 1);
      GeometricTelescopeStep(initialTerm, ratio, n);
    } else {
      var sum := PartialSum(Geometric, initialTerm, ratio, n);
      var next := Pow(ratio, n);
      assert sum == 0.0 && next == 1.0;
    }
  }

  /** The inductive step of `GeometricSumTelescopes`, from `n - 1` terms to `n`. */
  lemma GeometricTelescopeStep(initialTerm: real, ratio: real, n: nat)
    requires n > 0
    requires (1.0 - ratio) * PartialSum(Geometric, initialTerm, ratio, n - 1) == initialTerm * (1.0 - Pow(ratio, n - 1))
    ensures (1.0 - ratio) * PartialSum(Geometric, initialTerm, ratio, n) == initialTerm * (1.0 - Pow(ratio, n))
  {
    var p := Pow(ratio, n - 1);
    var next := Pow(ratio, n);
    var before := PartialSum(Geometric, initialTerm, ratio, n - 1);
    var sum := PartialSum(Geometric, initialTerm, ratio, n);
    assert sum == before + initialTerm * p;
    assert next == ratio * p;
    TelescopeStep(initialTerm, ratio, p, before, sum, next);
  }

  lemma GeometricClosedSumIsSum(initialTerm: real, ratio: real, n: nat)
    requires ratio != 1.0
    ensures GeometricClosedSum(initialTerm, ratio, n) == PartialSum(Geometric, initialTerm, ratio, n)
  {
    GeometricSumTelescopes(initialTerm, ratio, n);
    var p := Pow(ratio, n);
    var sum := PartialSum(Geometric, initialTerm, ratio, n);
    QuotientOfProduct(1.0 - ratio, sum, initialTerm * (1.0 - p));
  }

  /** Both closed forms equal the sum of the first `n` terms. */
  lemma ClosedSumIsSum(kind: Kind, initialTerm: real, ratio: real, n: int)
    requires ValidIndex(n)
    ensures ClosedSum(kind, initialTerm, ratio, n) == PartialSum(kind, initialTerm, ratio, n)
  {
    match kind
    case Arithmetic => ArithmeticClosedSumIsSum(initialTerm, ratio, n);
    case Geometric =>
      if ratio == 1.0 {
        UnitRatioSumIsSum(initialTerm, n);
      } else {
        GeometricClosedSumIsSum(initialTerm, ratio, n);
      }
  }

  /** `get_ratio(term_1, term_2)`: the difference of two terms for an
      arithmetic progression, their quotient (a division error when the
      first is zero) for a geometric one. */
  function GetRatio(kind: Kind, term1: real, term2: real): (r: Result<real>)
    ensures r.Failure? <==> kind == Geometric && term1 == 0.0
    ensures r.Failure? ==> r.error == ZeroDivisionError
    ensures r.Success? && kind == Arithmetic ==> term1 + r.value == term2
    ensures r.Success? && kind == Geometric ==> term1 * r.value == term2
  {
    match kind
    case Arithmetic => Success(term2 - term1)
    case Geometric => if term1 == 0.0 then Failure(ZeroDivisionError) else Success(term2 / term1)
  }

  /** A geometric progression with a nonzero first term and a nonzero ratio has no zero term. */
  lemma {:induction false} GeometricTermNonzero(initialTerm: real, ratio: real, n: int)
    requires ValidIndex(n)
    requires initialTerm != 0.0 && (n == 1 || ratio != 0.0)
    ensures Term(Geometric, initialTerm, ratio, n) != 0.0
  {
    if n > 1 {
      PowNonzero(ratio, n - 1);
    }
  }

  /** `get_ratio` on two consecutive terms recovers the ratio; for a
      geometric progression the earlier term must be nonzero, which a nonzero
      first term guarantees at index 1. */
  lemma GetRatioRecoversRatio(kind: Kind, initialTerm: real, ratio: real, n: int)
    requires ValidIndex(n)
    requires kind == Geometric ==> initialTerm != 0.0 && (n == 1 || ratio != 0.0)
    ensures GetRatio(kind, Term(kind, initialTerm, ratio, n), Term(kind, initialTerm, ratio, n + 1)) == Success(ratio)
  {
    TermStep(kind, initialTerm, ratio, n);
    if kind == Geometric {
      GeometricTermNonzero(initialTerm, ratio, n);
      var t := Term(kind, initialTerm, ratio, n);
      var u := Term(kind, initialTerm, ratio, n + 1);
      assert u == t * ratio;
      MulDivCancel(t, ratio);
      assert u / t == ratio;
    }
  }

  /** The `i`-th consecutive difference (for `2 <= i`) is within `tolerance` of the first one. */
  predicate DifferenceWithin(sequence: seq<real>, i: int, tolerance: real)
    requires 2 <= i < |sequence|
  {
    Abs((sequence[i] - sequence[i - 1]) - (sequence[1] - sequence[0])) <= tolerance
  }

  /** The `i`-th consecutive quotient is defined and within `tolerance` of the first one. */
  predicate QuotientWithin(sequence: seq<real>, i: int, tolerance: real)
    requires 2 <= i < |sequence| && sequence[0] != 0.0
  {
    sequence[i - 1] != 0.0 && Abs(sequence[i] / sequence[i - 1] - sequence[1] / sequence[0]) <= tolerance
  }

  /** `ArithmeticProgression.is_arithmetic`: a type error below three items,
      otherwise whether every consecutive difference is within `tolerance`
      of the first; the scan stops at the first one that is not. */
  method IsArithmetic(sequence: seq<real>, tolerance: real) returns (r: Result<bool>)
    ensures |sequence| < 3 ==> r == Failure(TypeError)
    ensures |sequence| >= 3 ==>
              r == Success(forall i :: 2 <= i < |sequence| ==> DifferenceWithin(sequence, i, tolerance))
  {
    if |sequence| < 3 {
      return Failure(TypeError);
    }
    var diff := sequence[1] - sequence[0];
    for i := 2 to |sequence|
      invariant forall j :: 2 <= j < i ==> DifferenceWithin(sequence, j, tolerance)
    {
      var currDiff := sequence[i] - sequence[i - 1];
      if Abs(currDiff - diff) > tolerance {
        assert !DifferenceWithin(sequence, i, tolerance);
        return Success(false);
      }
    }
    return Success(true);
  }

  /** The scan of `is_geometric` reaches a zero divisor at `i`: every
      earlier quotient passed and item `i - 1` is zero. */
  predicate ZeroDivisorAt(sequence: seq<real>, i: int, tolerance: real)
    requires 2 <= i < |sequence| && sequence[0] != 0.0
  {
    sequence[i - 1] == 0.0 && forall j :: 2 <= j < i ==> QuotientWithin(sequence, j, tolerance)
  }

  /** `GeometricProgression.is_geometric`: a type error below three items,
      a division error when the first item, or an item the scan reaches as a
      divisor, is zero; otherwise whether every consecutive quotient is within
      `tolerance` of the first. */
  method IsGeometric(sequence: seq<real>, tolerance: real) returns (r: Result<bool>)
    ensures |sequence| < 3 ==> r == Failure(TypeError)
    ensures |sequence| >= 3 && sequence[0] == 0.0 ==> r == Failure(ZeroDivisionError)
    ensures |sequence| >= 3 && sequence[0] != 0.0 ==>
              (r == Success(true) <==> forall i :: 2 <= i < |sequence| ==> QuotientWithin(sequence, i, tolerance))
    ensures |sequence| >= 3 && sequence[0] != 0.0 ==>
              (r == Failure(ZeroDivisionError) <==> exists i :: 2 <= i < |sequence| && ZeroDivisorAt(sequence, i, tolerance))
    ensures |sequence| >= 3 ==> r.Success? || r.error == ZeroDivisionError
  {
    if |sequence| < 3 {
      return Failure(TypeError);
    }
    if sequence[0] == 0.0 {
      return Failure(ZeroDivisionError);
    }
    var ratio := sequence[1] / sequence[0];
    for i := 2 to |sequence|
      invariant forall j :: 2 <= j < i ==> QuotientWithin(sequence, j, tolerance)
    {
      if sequence[i - 1] == 0.0 {
        assert ZeroDivisorAt(sequence, i, tolerance) && !QuotientWithin(sequence, i, tolerance);
        return Failure(ZeroDivisionError);
      }
      var currRatio := sequence[i] / sequence[i - 1];
      if Abs(currRatio - ratio) > tolerance {
        assert !QuotientWithin(sequence, i, tolerance);
        forall k | 2 <= k < |sequence|
          ensures !ZeroDivisorAt(sequence, k, tolerance)
        {
          if k < i {
            assert QuotientWithin(sequence, k, tolerance);
          }
        }
        return Success(false);
      }
    }
    forall k | 2 <= k < |sequence|
      ensures !ZeroDivisorAt(sequence, k, tolerance)
    {
      assert QuotientWithin(sequence, k, tolerance);
    }
    return Success(true);
  }

  /** The terms of an arithmetic progression pass `is_arithmetic` under any
      nonnegative tolerance. */
  lemma ArithmeticTermsAreArithmetic(initialTerm: real, ratio: real, n: nat, tolerance: real)
    requires tolerance >= 0.0
    ensures forall i :: 2 <= i < n ==> DifferenceWithin(Terms(Arithmetic, initialTerm, ratio, n), i, tolerance)
  {
    var s := Terms(Arithmetic, initialTerm, ratio, n);
    forall i | 2 <= i < n
      ensures DifferenceWithin(s, i, tolerance)
    {
      TermsAt(Arithmetic, initialTerm, ratio, n, i);
      TermsAt(Arithmetic, initialTerm, ratio, n, i - 1);
      TermsAt(Arithmetic, initialTerm, ratio, n, 1);
      TermsAt(Arithmetic, initialTerm, ratio, n, 0);
      TermStep(Arithmetic, initialTerm, ratio, i);
      TermStep(Arithmetic, initialTerm, ratio, 1);
    }
  }

  /** The terms of a geometric progression with nonzero first term and ratio
      pass `is_geometric` under any nonnegative tolerance. */
  lemma GeometricTermsAreGeometric(initialTerm: real, ratio: real, n: nat, tolerance: real)
    requires initialTerm != 0.0 && ratio != 0.0 && tolerance >= 0.0 && n >= 1
    ensures Terms(Geometric, initialTerm, ratio, n)[0] != 0.0
    ensures forall i :: 2 <= i < n ==> QuotientWithin(Terms(Geometric, initialTerm, ratio, n), i, tolerance)
  {
    var s := Terms(Geometric, initialTerm, ratio, n);
    TermsAt(Geometric, initialTerm, ratio, n, 0);
    TermStep(Geometric, initialTerm, ratio, 1);
    forall i | 2 <= i < n
      ensures QuotientWithin(s, i, tolerance)
    {
      TermsAt(Geometric, initialTerm, ratio, n, i);
      TermsAt(Geometric, initialTerm, ratio, n, i - 1);
      TermsAt(Geometric, initialTerm, ratio, n, 1);
      GetRatioRecoversRatio(Geometric, initialTerm, ratio, i);
      GetRatioRecoversRatio(Geometric, initialTerm, ratio, 1);
      GeometricTermNonzero(initialTerm, ratio, i);
    }
  }

  /** A progression object with its term cache `terms` (index to value). */
  class Progression {
    const kind: Kind
    const ratio: real
    /** The first term, `terms[1]` at construction. */
    ghost const initialTerm: real
    var terms: map<int, real>

    /** The cache always holds the first term at index 1, and every cached
        value is the closed form of its index. */
    ghost predicate Valid()
      reads this
    {
      && 1 in terms
      && terms[1] == initialTerm
      && forall k :: k in terms ==> ValidIndex(k) && terms[k] == Term(kind, initialTerm, ratio, k)
    }

    constructor (kind: Kind, initialTerm: real, ratio: real)
      ensures Valid()
      ensures this.kind == kind && this.initialTerm == initialTerm && this.ratio == ratio
      ensures terms == map[1 := initialTerm]
    {
      this.kind := kind;
      this.ratio := ratio;
      this.initialTerm := initialTerm;
      terms := map[1 := initialTerm];
    }

    /** `_nth_term(n)`: computes the closed form from `terms[1]` and stores it at `n`. */
    method ComputeTerm(n: int) returns (t: real)
      requires Valid() && ValidIndex(n)
      modifies this
      ensures Valid()
      ensures t == Term(kind, initialTerm, ratio, n)
      ensures terms == old(terms)[n := t]
    {
      match kind {
        case Arithmetic =>
          terms := terms[n := terms[1] + (n - 1) as real * ratio];
        case Geometric =>
          terms := terms[n := terms[1] * Pow(ratio, n - 1)];
      }
      t := terms[n];
    }

    /** `nth_term(n)`: the cached value if there is one, else `_nth_term(n)`. */
    method NthTerm(n: int) returns (r: Result<real>)
      requires Valid()
      modifies this
      ensures Valid()
      ensures !ValidIndex(n) ==> r == Failure(IndexError) && terms == old(terms)
      ensures ValidIndex(n) ==> r == Success(Term(kind, initialTerm, ratio, n))
      ensures ValidIndex(n) ==> terms == old(terms)[n := Term(kind, initialTerm, ratio, n)]
    {
      if !ValidIndex(n) {
        return Failure(IndexError);
      }
      if n in terms {
        assert terms == terms[n := terms[n]];
        return Success(terms[n]);
      }
      var t := ComputeTerm(n);
      return Success(t);
    }

    /** `n_first_terms(n)`: the list of `nth_term(1)`, ..., `nth_term(n)`,
        which leaves all of `1..n` in the cache. */
    method NFirstTerms(n: int) returns (r: Result<seq<real>>)
      requires Valid()
      modifies this
      ensures Valid()
      ensures !ValidIndex(n) ==> r == Failure(IndexError) && terms == old(terms)
      ensures ValidIndex(n) ==> r == Success(Terms(kind, initialTerm, ratio, n))
      ensures ValidIndex(n) ==> terms == old(terms) + CachedPrefix(kind, initialTerm, ratio, n)
    {
      if !ValidIndex(n) {
        return Failure(IndexError);
      }
      var firstTerms: seq<real> := [];
      for i := 1 to n + 1
        invariant Valid()
        invariant firstTerms == Terms(kind, initialTerm, ratio, i - 1)
        invariant terms == old(terms) + CachedPrefix(kind, initialTerm, ratio, i - 1)
      {
        var t := NthTerm(i);
        firstTerms := firstTerms + [t.value];
        assert CachedPrefix(kind, initialTerm, ratio, i)
            == CachedPrefix(kind, initialTerm, ratio, i - 1)[i := Term(kind, initialTerm, ratio, i)];
      }
      return Success(firstTerms);
    }

    /** `sum_first_terms(n)`: the closed-form partial sum, which is the sum
        of the first `n` terms. The arithmetic formula reads its last term
        through `nth_term` and so caches it; the geometric one leaves the
        cache alone. */
    method SumFirstTerms(n: int) returns (r: Result<real>)
      requires Valid()
      modifies this
      ensures Valid()
      ensures !ValidIndex(n) ==> r == Failure(IndexError) && terms == old(terms)
      ensures ValidIndex(n) ==> r == Success(PartialSum(kind, initialTerm, ratio, n))
      ensures ValidIndex(n) && kind == Arithmetic ==>
                terms == old(terms)[n := Term(kind, initialTerm, ratio, n)]
      ensures kind == Geometric ==> terms == old(terms)
    {
      if !ValidIndex(n) {
        return Failure(IndexError);
      }
      var sum: real;
      match kind {
        case Arithmetic =>
          var last := NthTerm(n);
          sum := n as real * (terms[1] + last.value) / 2.0;
        case Geometric =>
          if ratio == 1.0 {
            sum := n as real * terms[1];
          } else {
            sum := GeometricClosedSum(terms[1], ratio, n);
          }
      }
      assert sum == ClosedSum(kind, initialTerm, ratio, n);
      ClosedSumIsSum(kind, initialTerm, ratio, n);
      return Success(sum);
    }
  }
}
