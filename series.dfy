/** Uniform series of payments (series.py).

    A series of `n` equal payments `pmt` at rate `i` per period. The static
    helpers of `UniformSeriesPayment` turn a payment into the series' future
    or present value and back, through four annuity factors. Each helper
    takes the interest system (`int_sys`) as a parameter; the class always
    passes `CompoundInterest`.

    `k` is the `first_payment` argument: the period index of the first
    payment. With `k == 0` every payment falls at the start of its period
    and earns one period more, so the accumulation / present-worth family is
    scaled by the one-period accumulation factor and the payment family by
    the one-period reduction factor; any other `k` leaves them unscaled. */
module Series {
  import opened Results
  import opened Powers
  import opened Interest
  import opened Progressions

  /** `k_factor` of the accumulation / present-worth family: `A(i, 1)` when
      `k == 0`, else 1. */
  function Growth(regime: Regime, i: real, k: int): (g: real)
    ensures k == 0 ==> g == 1.0 + i
    ensures k != 0 ==> g == 1.0
  {
    if k == 0 then AccumulationFactor(regime, i, 1) else 1.0
  }

  /** `_accumulation_factor(i, n, k, int_sys)`: `(A(i, n) - 1) / i * k_factor`,
      a division error when `i == 0`. */
  function AccumulationFactorOf(regime: Regime, i: real, n: nat, k: int): (r: Result<real>)
    ensures r.Failure? <==> i == 0.0
    ensures r.Failure? ==> r.error == ZeroDivisionError
    ensures r.Success? ==> r.value * i == (AccumulationFactor(regime, i, n) - 1.0) * Growth(regime, i, k)
  {
    var accumN := AccumulationFactor(regime, i, n);
    var kFactor := Growth(regime, i, k);
    if i == 0.0 then Failure(ZeroDivisionError)
    else
      ScaledQuotient(accumN - 1.0, i, kFactor);
      Success(Quotient(accumN - 1.0, i) * kFactor)
  }

  /** `_capital_recovery_factor(i, n, k, int_sys)`:
      `(A(i, n) * i) / (A(i, n) - 1) * k_factor`. The one-period reduction
      factor is computed whatever `k` is, so `1 + i == 0` fails even when it
      is not used. */
  function CapitalRecoveryFactorOf(regime: Regime, i: real, n: nat, k: int): (r: Result<real>)
    ensures r.Failure? <==> 1.0 + i == 0.0 || AccumulationFactor(regime, i, n) == 1.0
    ensures r.Failure? ==> r.error == ZeroDivisionError
    ensures r.Success? ==>
              r.value * (AccumulationFactor(regime, i, n) - 1.0) * Growth(regime, i, k)
              == i * AccumulationFactor(regime, i, n)
  {
    var accumN := AccumulationFactor(regime, i, n);
    var reduc1 := ReductionFactor(regime, i, 1);
    if reduc1.Failure? then Failure(reduc1.error)
    else
      var kFactor := if k == 0 then reduc1.value else 1.0;
      if accumN - 1.0 == 0.0 then Failure(ZeroDivisionError)
      else
        ScaledQuotient(accumN * i, accumN - 1.0, kFactor);
        Success(Quotient(accumN * i, accumN - 1.0) * kFactor)
  }

  /** `_sinking_fund_factor(i, n, k, int_sys)`: `i / (A(i, n) - 1) * k_factor`,
      failing like the capital recovery factor. */
  function SinkingFundFactorOf(regime: Regime, i: real, n: nat, k: int): (r: Result<real>)
    ensures r.Failure? <==> 1.0 + i == 0.0 || AccumulationFactor(regime, i, n) == 1.0
    ensures r.Failure? ==> r.error == ZeroDivisionError
    ensures r.Success? ==> r.value * (AccumulationFactor(regime, i, n) - 1.0) * Growth(regime, i, k) == i
  {
    var accumN := AccumulationFactor(regime, i, n);
    var reduc1 := ReductionFactor(regime, i, 1);
    if reduc1.Failure? then Failure(reduc1.error)
    else
      var kFactor := if k == 0 then reduc1.value else 1.0;
      if accumN - 1.0 == 0.0 then Failure(ZeroDivisionError)
      else
        ScaledQuotient(i, accumN - 1.0, kFactor);
        Success(Quotient(i, accumN - 1.0) * kFactor)
  }

  /** `_present_worth_factor(i, n, k, int_sys)`:
      `(A(i, n) - 1) / (i * A(i, n)) * k_factor`, a division error when
      `i * A(i, n) == 0`. */
  function PresentWorthFactorOf(regime: Regime, i: real, n: nat, k: int): (r: Result<real>)
    ensures r.Failure? <==> i * AccumulationFactor(regime, i, n) == 0.0
    ensures r.Failure? ==> r.error == ZeroDivisionError
    ensures r.Success? ==>
              r.value * (i * AccumulationFactor(regime, i, n))
              == (AccumulationFactor(regime, i, n) - 1.0) * Growth(regime, i, k)
  {
    if i * AccumulationFactor(regime, i, n) == 0.0 then Failure(ZeroDivisionError)
    else
      ScaledQuotient(AccumulationFactor(regime, i, n) - 1.0, i * AccumulationFactor(regime, i, n), Growth(regime, i, k));
      Success(Quotient(AccumulationFactor(regime, i, n) - 1.0, i * AccumulationFactor(regime, i, n)) * Growth(regime, i, k))
  }

  /** `_fv_by_pmt(pmt, i, n, k, int_sys)`: the future value of the series,
      `pmt * ((A(i, n) - 1) / i) * k_factor`, which is the payment times the
      accumulation factor of the series. */
  function FvByPmt(regime: Regime, pmt: real, i: real, n: nat, k: int): (r: Result<real>)
    ensures r.Success? == AccumulationFactorOf(regime, i, n, k).Success?
    ensures r.Failure? ==> r.error == ZeroDivisionError
    ensures r.Success? ==> r.value == pmt * AccumulationFactorOf(regime, i, n, k).value
  {
    var accumN := AccumulationFactor(regime, i, n);
    var kFactor := Growth(regime, i, k);
    if i == 0.0 then Failure(ZeroDivisionError)
    else
      var q := Quotient(accumN - 1.0, i);
      Reassociate(pmt, q, kFactor);
      Success(pmt * q * kFactor)
  }

  /** `_pmt_by_fv(fv, i, n, k, int_sys)`: the payment of a series with future
      value `fv`, `fv * (i / (A(i, n) - 1)) * k_factor`, which is `fv` times
      the sinking fund factor. */
  function PmtByFv(regime: Regime, fv: real, i: real, n: nat, k: int): (r: Result<real>)
    ensures r.Success? == SinkingFundFactorOf(regime, i, n, k).Success?
    ensures r.Failure? ==> r.error == ZeroDivisionError
    ensures r.Success? ==> r.value == fv * SinkingFundFactorOf(regime, i, n, k).value
  {
    var accumN := AccumulationFactor(regime, i, n);
    var reduc1 := ReductionFactor(regime, i, 1);
    if reduc1.Failure? then Failure(reduc1.error)
    else
      var kFactor := if k == 0 then reduc1.value else 1.0;
      if accumN - 1.0 == 0.0 then Failure(ZeroDivisionError)
      else
        var q := Quotient(i, accumN - 1.0);
        Reassociate(fv, q, kFactor);
        Success(fv * q * kFactor)
  }

  /** `_pmt_by_pv(pv, i, n, k, int_sys)`: the payment of a series with
      present value `pv`, `pv * ((i * A(i, n)) / (A(i, n) - 1)) * k_factor`,
      which is `pv` times the capital recovery factor. */
  function PmtByPv(regime: Regime, pv: real, i: real, n: nat, k: int): (r: Result<real>)
    ensures r.Success? == CapitalRecoveryFactorOf(regime, i, n, k).Success?
    ensures r.Failure? ==> r.error == ZeroDivisionError
    ensures r.Success? ==> r.value == pv * CapitalRecoveryFactorOf(regime, i, n, k).value
  {
    var accumN := AccumulationFactor(regime, i, n);
    var reduc1 := ReductionFactor(regime, i, 1);
    if reduc1.Failure? then Failure(reduc1.error)
    else
      var kFactor := if k == 0 then reduc1.value else 1.0;
      if accumN - 1.0 == 0.0 then Failure(ZeroDivisionError)
      else
        var q := Quotient(i * accumN, accumN - 1.0);
        assert q == Quotient(accumN * i, accumN - 1.0);
        Reassociate(pv, q, kFactor);
        Success(pv * q * kFactor)
  }

  /** `_pv_by_pmt(pmt, i, n, k, int_sys)`: the present value of the series,
      `pmt * ((A(i, n) - 1) / (i * A(i, n))) * k_factor`, which is the payment
      times the present worth factor. */
  function PvByPmt(regime: Regime, pmt: real, i: real, n: nat, k: int): (r: Result<real>)
    ensures r.Success? == PresentWorthFactorOf(regime, i, n, k).Success?
    ensures r.Failure? ==> r.error == ZeroDivisionError
    ensures r.Success? ==> r.value == pmt * PresentWorthFactorOf(regime, i, n, k).value
  {
    if i * AccumulationFactor(regime, i, n) == 0.0 then Failure(ZeroDivisionError)
    else
      ScaledPresentWorth(regime, pmt, i, n, k);
      Success(pmt * Quotient(AccumulationFactor(regime, i, n) - 1.0, i * AccumulationFactor(regime, i, n)) * Growth(regime, i, k))
  }

  /** The payment times the present worth factor, computed as `_pv_by_pmt` does. */
  lemma ScaledPresentWorth(regime: Regime, pmt: real, i: real, n: nat, k: int)
    requires i * AccumulationFactor(regime, i, n) != 0.0
    ensures PresentWorthFactorOf(regime, i, n, k).Success?
    ensures pmt * Quotient(AccumulationFactor(regime, i, n) - 1.0, i * AccumulationFactor(regime, i, n)) * Growth(regime, i, k)
            == pmt * PresentWorthFactorOf(regime, i, n, k).value
  {
    PresentWorthFactorIs(regime, i, n, k);
    assert pmt * Quotient(AccumulationFactor(regime, i, n) - 1.0, i * AccumulationFactor(regime, i, n)) * Growth(regime, i, k)
           == pmt * (Quotient(AccumulationFactor(regime, i, n) - 1.0, i * AccumulationFactor(regime, i, n)) * Growth(regime, i, k));
  }

  /** The present worth factor where it is defined, as `_present_worth_factor` computes it. */
  lemma PresentWorthFactorIs(regime: Regime, i: real, n: nat, k: int)
    requires i * AccumulationFactor(regime, i, n) != 0.0
    ensures PresentWorthFactorOf(regime, i, n, k)
            == Success(Quotient(AccumulationFactor(regime, i, n) - 1.0, i * AccumulationFactor(regime, i, n)) * Growth(regime, i, k))
  {
  }

  /** The source multiplies left to right: `x * q * k` is `x` times the factor `q * k`. */
  lemma Reassociate(x: real, q: real, k: real)
    ensures x * q * k == x * (q * k)
  {
  }

  /** Each conversion with a defined factor is the amount times the factor. */
  lemma ScaledByAccumulation(regime: Regime, x: real, i: real, n: nat, k: int)
    requires AccumulationFactorOf(regime, i, n, k).Success?
    ensures FvByPmt(regime, x, i, n, k) == Success(x * AccumulationFactorOf(regime, i, n, k).value)
  {
  }

  lemma ScaledBySinkingFund(regime: Regime, x: real, i: real, n: nat, k: int)
    requires SinkingFundFactorOf(regime, i, n, k).Success?
    ensures PmtByFv(regime, x, i, n, k) == Success(x * SinkingFundFactorOf(regime, i, n, k).value)
  {
  }

  lemma ScaledByCapitalRecovery(regime: Regime, x: real, i: real, n: nat, k: int)
    requires CapitalRecoveryFactorOf(regime, i, n, k).Success?
    ensures PmtByPv(regime, x, i, n, k) == Success(x * CapitalRecoveryFactorOf(regime, i, n, k).value)
  {
  }

  lemma ScaledByPresentWorth(regime: Regime, x: real, i: real, n: nat, k: int)
    requires PresentWorthFactorOf(regime, i, n, k).Success?
    ensures PvByPmt(regime, x, i, n, k) == Success(x * PresentWorthFactorOf(regime, i, n, k).value)
  {
  }

  /** At a zero rate both regimes leave the amount unchanged. */
  lemma ZeroRateFactor(regime: Regime, n: nat)
    ensures AccumulationFactor(regime, 0.0, n) == 1.0
  {
    if regime == Compound {
      PowOfOne(n);
    }
  }

  /** From `a * c == x * g` and `s * x * g == c` with `c != 0`, `a` and `s`
      are reciprocals. */
  lemma ReciprocalFromProducts(a: real, s: real, c: real, x: real, g: real)
    requires c != 0.0
    requires a * c == x * g
    requires s * x * g == c
    ensures a * s == 1.0 && s * a == 1.0
  {
    assert a * s * c == s * x * g;
  }

  lemma NonzeroProduct(a: real, b: real)
    requires a != 0.0 && b != 0.0
    ensures a * b != 0.0 && b * a != 0.0
  {
  }

  /** The sinking fund factor is the reciprocal of the accumulation factor
      of the series; whenever it is defined, so is the accumulation factor. */
  lemma SinkingFundIsReciprocal(regime: Regime, i: real, n: nat, k: int)
    requires SinkingFundFactorOf(regime, i, n, k).Success?
    ensures AccumulationFactorOf(regime, i, n, k).Success?
    ensures AccumulationFactorOf(regime, i, n, k).value * SinkingFundFactorOf(regime, i, n, k).value == 1.0
  {
    ZeroRateFactor(regime, n);
    var a := AccumulationFactorOf(regime, i, n, k).value;
    var s := SinkingFundFactorOf(regime, i, n, k).value;
    ReciprocalFromProducts(a, s, i, AccumulationFactor(regime, i, n) - 1.0, Growth(regime, i, k));
  }

  /** A series whose capital recovery factor is defined has a nonzero rate,
      and under compound interest a nonzero accumulation factor. */
  lemma CapitalRecoveryDivisors(regime: Regime, i: real, n: nat, k: int)
    requires CapitalRecoveryFactorOf(regime, i, n, k).Success?
    requires regime == Simple ==> AccumulationFactor(regime, i, n) != 0.0
    ensures i != 0.0 && AccumulationFactor(regime, i, n) != 0.0
  {
    ZeroRateFactor(regime, n);
    if regime == Compound {
      PowNonzero(1.0 + i, n);
    }
  }

  /** The present worth factor is the reciprocal of the capital recovery
      factor; it is defined whenever the capital recovery factor is and the
      accumulation factor is nonzero, which compound interest guarantees. */
  lemma PresentWorthIsReciprocal(regime: Regime, i: real, n: nat, k: int)
    requires CapitalRecoveryFactorOf(regime, i, n, k).Success?
    requires regime == Simple ==> AccumulationFactor(regime, i, n) != 0.0
    ensures PresentWorthFactorOf(regime, i, n, k).Success?
    ensures CapitalRecoveryFactorOf(regime, i, n, k).value * PresentWorthFactorOf(regime, i, n, k).value == 1.0
  {
    var accumN := AccumulationFactor(regime, i, n);
    PresentWorthDefined(regime, i, n, k);
    ReciprocalFactors(CapitalRecoveryFactorOf(regime, i, n, k), PresentWorthFactorOf(regime, i, n, k),
                      i, accumN, Growth(regime, i, k));
  }

  lemma PresentWorthDefined(regime: Regime, i: real, n: nat, k: int)
    requires CapitalRecoveryFactorOf(regime, i, n, k).Success?
    requires regime == Simple ==> AccumulationFactor(regime, i, n) != 0.0
    ensures PresentWorthFactorOf(regime, i, n, k).Success?
  {
    CapitalRecoveryDivisors(regime, i, n, k);
    NonzeroProduct(i, AccumulationFactor(regime, i, n));
  }

  /** Two factors defined through `c * (a - 1) * g == i * a` and
      `w * (i * a) == (a - 1) * g` are reciprocals. */
  lemma ReciprocalFactors(c: Result<real>, w: Result<real>, i: real, a: real, g: real)
    requires c.Success? && w.Success? && i * a != 0.0
    requires c.value * (a - 1.0) * g == i * a
    requires w.value * (i * a) == (a - 1.0) * g
    ensures c.value * w.value == 1.0
  {
    ReciprocalFromProducts(w.value, c.value, i * a, a - 1.0, g);
  }

  lemma ScaleByReciprocals(p: real, a: real, s: real)
    requires a * s == 1.0
    ensures (p * a) * s == p && (p * s) * a == p
  {
    assert (p * a) * s == p * (a * s);
    assert (p * s) * a == p * (a * s);
  }

  /** Converting a payment into the future value of its series and back
      gives the payment again, for either timing, whenever the sinking fund
      factor is defined. */
  lemma FutureValueRoundTrip(regime: Regime, p: real, i: real, n: nat, k: int)
    requires 1.0 + i != 0.0 && AccumulationFactor(regime, i, n) != 1.0
    ensures FvByPmt(regime, p, i, n, k).Success?
    ensures PmtByFv(regime, FvByPmt(regime, p, i, n, k).value, i, n, k).Success?
    ensures PmtByFv(regime, FvByPmt(regime, p, i, n, k).value, i, n, k).value == p
  {
    SinkingFundIsReciprocal(regime, i, n, k);
    var f, g := AccumulationFactorOf(regime, i, n, k).value, SinkingFundFactorOf(regime, i, n, k).value;
    ScaleByReciprocals(p, f, g);
    ScaledByAccumulation(regime, p, i, n, k);
    ScaledBySinkingFund(regime, p * f, i, n, k);
  }

  /** The other order: the future value of the payment computed from a
      future value is that future value. */
  lemma PaymentByFutureValueRoundTrip(regime: Regime, fv: real, i: real, n: nat, k: int)
    requires 1.0 + i != 0.0 && AccumulationFactor(regime, i, n) != 1.0
    ensures PmtByFv(regime, fv, i, n, k).Success?
    ensures FvByPmt(regime, PmtByFv(regime, fv, i, n, k).value, i, n, k).Success?
    ensures FvByPmt(regime, PmtByFv(regime, fv, i, n, k).value, i, n, k).value == fv
  {
    SinkingFundIsReciprocal(regime, i, n, k);
    var f, g := AccumulationFactorOf(regime, i, n, k).value, SinkingFundFactorOf(regime, i, n, k).value;
    ScaleByReciprocals(fv, f, g);
    ScaledBySinkingFund(regime, fv, i, n, k);
    ScaledByAccumulation(regime, fv * g, i, n, k);
  }

  /** Converting a payment into the present value of its series and back
      gives the payment again, whenever the capital recovery factor is
      defined (and, under simple interest, the accumulation factor is
      nonzero). */
  lemma PresentValueRoundTrip(regime: Regime, p: real, i: real, n: nat, k: int)
    requires 1.0 + i != 0.0 && AccumulationFactor(regime, i, n) != 1.0
    requires regime == Simple ==> AccumulationFactor(regime, i, n) != 0.0
    ensures PvByPmt(regime, p, i, n, k).Success?
    ensures PmtByPv(regime, PvByPmt(regime, p, i, n, k).value, i, n, k).Success?
    ensures PmtByPv(regime, PvByPmt(regime, p, i, n, k).value, i, n, k).value == p
  {
    PresentWorthIsReciprocal(regime, i, n, k);
    var w, c := PresentWorthFactorOf(regime, i, n, k).value, CapitalRecoveryFactorOf(regime, i, n, k).value;
    ScaleByReciprocals(p, w, c);
    ScaledByPresentWorth(regime, p, i, n, k);
    ScaledByCapitalRecovery(regime, p * w, i, n, k);
  }

  /** The other order: the present value of the payment computed from a
      present value is that present value. */
  lemma PaymentByPresentValueRoundTrip(regime: Regime, pv: real, i: real, n: nat, k: int)
    requires 1.0 + i != 0.0 && AccumulationFactor(regime, i, n) != 1.0
    requires regime == Simple ==> AccumulationFactor(regime, i, n) != 0.0
    ensures PmtByPv(regime, pv, i, n, k).Success?
    ensures PvByPmt(regime, PmtByPv(regime, pv, i, n, k).value, i, n, k).Success?
    ensures PvByPmt(regime, PmtByPv(regime, pv, i, n, k).value, i, n, k).value == pv
  {
    PresentWorthIsReciprocal(regime, i, n, k);
    var w, c := PresentWorthFactorOf(regime, i, n, k).value, CapitalRecoveryFactorOf(regime, i, n, k).value;
    ScaleByReciprocals(pv, w, c);
    ScaledByCapitalRecovery(regime, pv, i, n, k);
    ScaledByPresentWorth(regime, pv * c, i, n, k);
  }

  lemma CancelScaled(d: real, p: real, w: real, c: real, x: real)
    requires c != 0.0 && d * c == p * x && w * c == x
    ensures d == p * w
  {
    assert d * c == (p * w) * c;
  }

  lemma CancelFactor(x: real, y: real, c: real)
    requires c != 0.0 && x * c == y * c
    ensures x == y
  {
  }

  /** The timing rule for the accumulation factor: paying at the start of
      each period (`k == 0`) scales it by `1 + i` compared with paying at the
      end (`k == 1`); both timings fail or neither does. */
  lemma AccumulationTiming(regime: Regime, i: real, n: nat)
    ensures AccumulationFactorOf(regime, i, n, 0).Success? == AccumulationFactorOf(regime, i, n, 1).Success?
    ensures AccumulationFactorOf(regime, i, n, 0).Success? ==>
              AccumulationFactorOf(regime, i, n, 0).value == AccumulationFactorOf(regime, i, n, 1).value * (1.0 + i)
  {
    if i != 0.0 {
      var start := AccumulationFactorOf(regime, i, n, 0).value;
      var end := AccumulationFactorOf(regime, i, n, 1).value;
      TimingStep(start, end, i, AccumulationFactor(regime, i, n) - 1.0, 1.0 + i);
    }
  }

  /** From `start * c == x * g` and `end * c == x` with `c != 0`,
      `start == end * g`. */
  lemma TimingStep(start: real, end: real, c: real, x: real, g: real)
    requires c != 0.0 && start * c == x * g && end * c == x
    ensures start == end * g
  {
    assert start * c == (end * g) * c;
  }

  /** The timing rule for the present worth factor: `k == 0` scales it by `1 + i`. */
  lemma PresentWorthTiming(regime: Regime, i: real, n: nat)
    ensures PresentWorthFactorOf(regime, i, n, 0).Success? == PresentWorthFactorOf(regime, i, n, 1).Success?
    ensures PresentWorthFactorOf(regime, i, n, 0).Success? ==>
              PresentWorthFactorOf(regime, i, n, 0).value == PresentWorthFactorOf(regime, i, n, 1).value * (1.0 + i)
  {
    var accumN := AccumulationFactor(regime, i, n);
    TimingOfFactors(PresentWorthFactorOf(regime, i, n, 0), PresentWorthFactorOf(regime, i, n, 1),
                    i * accumN, accumN - 1.0, 1.0 + i);
  }

  /** Two factors defined exactly when `c != 0`, through `start * c == x * g`
      and `end * c == x`, differ by the scale `g`. */
  lemma TimingOfFactors(start: Result<real>, end: Result<real>, c: real, x: real, g: real)
    requires start.Success? <==> c != 0.0
    requires end.Success? <==> c != 0.0
    requires start.Success? ==> start.value * c == x * g
    requires end.Success? ==> end.value * c == x * 1.0
    ensures start.Success? == end.Success?
    ensures start.Success? ==> start.value == end.value * g
  {
    if c != 0.0 {
      TimingStep(start.value, end.value, c, x, g);
    }
  }

  /** The timing rule for the sinking fund factor: `k == 0` divides it by `1 + i`. */
  lemma SinkingFundTiming(regime: Regime, i: real, n: nat)
    ensures SinkingFundFactorOf(regime, i, n, 0).Success? == SinkingFundFactorOf(regime, i, n, 1).Success?
    ensures SinkingFundFactorOf(regime, i, n, 0).Success? ==>
              SinkingFundFactorOf(regime, i, n, 0).value * (1.0 + i) == SinkingFundFactorOf(regime, i, n, 1).value
  {
    var accumN := AccumulationFactor(regime, i, n);
    if 1.0 + i != 0.0 && accumN != 1.0 {
      var start := SinkingFundFactorOf(regime, i, n, 0).value;
      var end := SinkingFundFactorOf(regime, i, n, 1).value;
      TimingStep(end, start * (1.0 + i), accumN - 1.0, i, 1.0);
    }
  }

  /** The timing rule for the capital recovery factor: `k == 0` divides it by `1 + i`. */
  lemma CapitalRecoveryTiming(regime: Regime, i: real, n: nat)
    ensures CapitalRecoveryFactorOf(regime, i, n, 0).Success? == CapitalRecoveryFactorOf(regime, i, n, 1).Success?
    ensures CapitalRecoveryFactorOf(regime, i, n, 0).Success? ==>
              CapitalRecoveryFactorOf(regime, i, n, 0).value * (1.0 + i) == CapitalRecoveryFactorOf(regime, i, n, 1).value
  {
    var accumN := AccumulationFactor(regime, i, n);
    if 1.0 + i != 0.0 && accumN != 1.0 {
      var start := CapitalRecoveryFactorOf(regime, i, n, 0).value;
      var end := CapitalRecoveryFactorOf(regime, i, n, 1).value;
      TimingStep(end, start * (1.0 + i), accumN - 1.0, i * accumN, 1.0);
    }
  }

  /** The value the fresh branch of `present_value(pmt)` computes: the sum of
      the first `n` terms of the geometric progression with first term `pmt`
      and ratio `v`, the one-period reduction factor, times `v` once more
      when the first payment is at the end of period 1 (`k == 1`). */
  function DiscountedPayments(pmt: real, v: real, n: nat, k: int): real
  {
    var sum := PartialSum(Geometric, pmt, v, n);
    if k == 1 then sum * v else sum
  }

  /** The discounted payments are the sum of the payments `pmt * v^j` for
      `j` below `n`, none when there are no periods, and that sum discounted
      once more for a first payment at the end of period 1. */
  lemma DiscountedPaymentsAreSumOfTerms(pmt: real, v: real, n: nat, k: int)
    ensures n == 0 ==> DiscountedPayments(pmt, v, n, k) == 0.0
    ensures k == 1 ==> DiscountedPayments(pmt, v, n, k) == Sum(Terms(Geometric, pmt, v, n)) * v
    ensures k != 1 ==> DiscountedPayments(pmt, v, n, k) == Sum(Terms(Geometric, pmt, v, n))
  {
    PartialSumIsSumOfTerms(Geometric, pmt, v, n);
  }

  /** The algebra of discounting on plain reals: `v` is `1 / (1 + i)`,
      `invA` is `1 / a` and `s` the geometric sum of `n` payments `p` with
      ratio `v`, so that `(1 - v) * s == p * (1 - invA)`. Discounted once
      more and scaled by `i * a`, it is `p * (a - 1)`. */
  lemma DiscountAlgebra(p: real, i: real, v: real, a: real, invA: real, s: real)
    requires v * (1.0 + i) == 1.0 && invA * a == 1.0
    requires (1.0 - v) * s == p * (1.0 - invA)
    ensures (s * v) * (i * a) == p * (a - 1.0)
  {
    assert 1.0 - v == i * v;
    assert i * v * s == p * (1.0 - invA);
    assert p * (1.0 - invA) * a == p * (a - invA * a);
  }

  /** Any `s` that satisfies the telescoping identity of the geometric sum
      of `n` payments `p` with ratio `v == 1 / (1 + i)`, discounted once
      more, times `i * A(i, n)` is `p * (A(i, n) - 1)`. */
  lemma TelescopedSumTimesRate(p: real, i: real, v: real, n: nat, s: real)
    requires v * (1.0 + i) == 1.0
    requires (1.0 - v) * s == p * (1.0 - Pow(v, n))
    ensures (s * v) * (i * Pow(1.0 + i, n)) == p * (Pow(1.0 + i, n) - 1.0)
  {
    PowOfInverse(v, 1.0 + i, n);
    DiscountAlgebra(p, i, v, Pow(1.0 + i, n), Pow(v, n), s);
  }

  /** With the first payment at the end of period 1, the discounted sum is
      the payment times the present worth factor. */
  lemma TelescopedSumIsPresentWorthAtEnd(p: real, i: real, v: real, n: nat, s: real)
    requires i != 0.0 && v * (1.0 + i) == 1.0
    requires (1.0 - v) * s == p * (1.0 - Pow(v, n))
    ensures PresentWorthFactorOf(Compound, i, n, 1).Success?
    ensures s * v == p * PresentWorthFactorOf(Compound, i, n, 1).value
  {
    CompoundPresentWorthAtEnd(i, n);
    TelescopedSumTimesRate(p, i, v, n, s);
    var a := Pow(1.0 + i, n);
    CancelScaled(s * v, p, PresentWorthFactorOf(Compound, i, n, 1).value, i * a, a - 1.0);
  }

  /** The compound present worth factor for payments at period ends,
      stated on the power `(1 + i) ** n`. */
  lemma CompoundPresentWorthAtEnd(i: real, n: nat)
    requires i != 0.0 && 1.0 + i != 0.0
    ensures PresentWorthFactorOf(Compound, i, n, 1).Success?
    ensures i * Pow(1.0 + i, n) != 0.0
    ensures PresentWorthFactorOf(Compound, i, n, 1).value * (i * Pow(1.0 + i, n)) == Pow(1.0 + i, n) - 1.0
  {
    var a := AccumulationFactor(Compound, i, n);
    assert a == Pow(1.0 + i, n);
    PowNonzero(1.0 + i, n);
    NonzeroProduct(i, a);
  }

  /** Undoing one discount step: from `s * v == p * w1` and
      `w0 == w1 * (1 + i)` with `v * (1 + i) == 1`, `s == p * w0`. */
  lemma UndiscountStep(s: real, v: real, i: real, p: real, w0: real, w1: real)
    requires v * (1.0 + i) == 1.0 && s * v == p * w1 && w0 == w1 * (1.0 + i)
    ensures s == p * w0
  {
    assert s == (s * v) * (1.0 + i);
  }

  /** With the first payment at the start of period 1, the geometric sum
      itself is the payment times the present worth factor. */
  lemma TelescopedSumIsPresentWorthAtStart(p: real, i: real, v: real, n: nat, s: real)
    requires i != 0.0 && v * (1.0 + i) == 1.0
    requires (1.0 - v) * s == p * (1.0 - Pow(v, n))
    ensures PresentWorthFactorOf(Compound, i, n, 0).Success?
    ensures s == p * PresentWorthFactorOf(Compound, i, n, 0).value
  {
    TelescopedSumIsPresentWorthAtEnd(p, i, v, n, s);
    PresentWorthTiming(Compound, i, n);
    UndiscountStep(s, v, i, p, PresentWorthFactorOf(Compound, i, n, 0).value, PresentWorthFactorOf(Compound, i, n, 1).value);
  }

  /** Any `s` that satisfies the telescoping identity of the geometric sum
      of `n` payments `p` with ratio `v == 1 / (1 + i)`, discounted once
      more when `k == 1`, is the payment times the present worth factor. */
  lemma TelescopedSumIsPresentWorth(p: real, i: real, v: real, n: nat, k: int, s: real)
    requires i != 0.0 && v * (1.0 + i) == 1.0
    requires k == 0 || k == 1
    requires (1.0 - v) * s == p * (1.0 - Pow(v, n))
    ensures PresentWorthFactorOf(Compound, i, n, k).Success?
    ensures (if k == 1 then s * v else s) == p * PresentWorthFactorOf(Compound, i, n, k).value
  {
    if k == 1 {
      TelescopedSumIsPresentWorthAtEnd(p, i, v, n, s);
    } else {
      TelescopedSumIsPresentWorthAtStart(p, i, v, n, s);
    }
  }

  /** The geometric sum that `present_value` builds with ratio
      `v == 1 / (1 + i)` agrees with `_pv_by_pmt` under compound interest
      for either timing, whenever the rate is neither 0 nor -1. */
  lemma DiscountedPaymentsMatchPresentWorth(p: real, i: real, v: real, n: nat, k: int)
    requires i != 0.0 && v * (1.0 + i) == 1.0
    requires k == 0 || k == 1
    ensures PvByPmt(Compound, p, i, n, k).Success?
    ensures PvByPmt(Compound, p, i, n, k).value == DiscountedPayments(p, v, n, k)
  {
    DiscountedPaymentsArePresentWorth(p, i, v, n, k);
  }

  lemma DiscountedPaymentsArePresentWorth(p: real, i: real, v: real, n: nat, k: int)
    requires i != 0.0 && v * (1.0 + i) == 1.0
    requires k == 0 || k == 1
    ensures PresentWorthFactorOf(Compound, i, n, k).Success?
    ensures DiscountedPayments(p, v, n, k) == p * PresentWorthFactorOf(Compound, i, n, k).value
  {
    GeometricSumTelescopes(p, v, n);
    TelescopedSumIsPresentWorth(p, i, v, n, k, PartialSum(Geometric, p, v, n));
  }

  /** Under compound interest at a nonzero rate the accumulation factor is
      the future value of one unit paid each period: the sum of
      `(1 + i) ** j` for `j` in `0 .. n - 1`, times `1 + i` more when the
      payments fall at the start of the periods. */
  lemma AccumulationFactorIsSum(i: real, n: nat, k: int)
    requires i != 0.0
    ensures AccumulationFactorOf(Compound, i, n, k).Success?
    ensures AccumulationFactorOf(Compound, i, n, k).value == PartialSum(Geometric, 1.0, 1.0 + i, n) * Growth(Compound, i, k)
  {
    GrowthSumTimesRate(i, n);
    assert AccumulationFactor(Compound, i, n) == Pow(1.0 + i, n);
    TimingStep(AccumulationFactorOf(Compound, i, n, k).value, PartialSum(Geometric, 1.0, 1.0 + i, n), i,
               AccumulationFactor(Compound, i, n) - 1.0, Growth(Compound, i, k));
  }

  /** `i` times the sum of `(1 + i) ** j` for `j` in `0 .. n - 1` is
      `(1 + i) ** n - 1`. */
  lemma GrowthSumTimesRate(i: real, n: nat)
    ensures PartialSum(Geometric, 1.0, 1.0 + i, n) * i == Pow(1.0 + i, n) - 1.0
  {
    GeometricSumTelescopes(1.0, 1.0 + i, n);
  }

  /** On plain reals: from `f * i == x`, `r * a == 1` and
      `w * (i * a) == x` with `i * a != 0`, `f * r == w`. */
  lemma DiscountAccumulated(f: real, r: real, w: real, i: real, a: real, x: real)
    requires i * a != 0.0 && f * i == x && r * a == 1.0 && w * (i * a) == x
    ensures f * r == w
  {
    assert (f * r) * (i * a) == (f * i) * (r * a);
    CancelFactor(f * r, w, i * a);
  }

  /** Under compound interest at a rate neither 0 nor -1, the accumulation
      factor discounted over the `n` periods is the present worth factor. */
  lemma AccumulationDiscountsToPresentWorth(i: real, n: nat, k: int)
    requires i != 0.0 && 1.0 + i != 0.0
    ensures AccumulationFactorOf(Compound, i, n, k).Success?
    ensures ReductionFactor(Compound, i, n).Success?
    ensures PresentWorthFactorOf(Compound, i, n, k).Success?
    ensures AccumulationFactorOf(Compound, i, n, k).value * ReductionFactor(Compound, i, n).value
            == PresentWorthFactorOf(Compound, i, n, k).value
  {
    var a := AccumulationFactor(Compound, i, n);
    CompoundAccumulationNonzero(i, n);
    DiscountAccumulated(AccumulationFactorOf(Compound, i, n, k).value, ReductionFactor(Compound, i, n).value,
                        PresentWorthFactorOf(Compound, i, n, k).value, i, a, (a - 1.0) * Growth(Compound, i, k));
  }

  /** For a rate other than -1 the compound factor `(1 + i) ** n` is
      nonzero, so the divisor `i * (1 + i) ** n` of the present worth
      factor vanishes exactly at rate 0. */
  lemma CompoundAccumulationNonzero(i: real, n: nat)
    requires 1.0 + i != 0.0
    ensures AccumulationFactor(Compound, i, n) != 0.0
    ensures i * AccumulationFactor(Compound, i, n) == 0.0 <==> i == 0.0
  {
    PowNonzero(1.0 + i, n);
    if i != 0.0 {
      NonzeroProduct(i, AccumulationFactor(Compound, i, n));
    }
  }

  /** A present value accumulated over `n` compound periods at rate `i`:
      what the keyword call `future_value(pv, interest_rate=i, periods=n)`
      asks for. */
  function CompoundFutureValue(pv: real, i: real, n: nat): real
  {
    pv * AccumulationFactor(Compound, i, n)
  }

  /** A future value discounted over `n` compound periods at rate `i`:
      what the keyword call `present_value(fv, interest_rate=i, periods=n)`
      asks for; it needs `1 + i != 0`, as the reduction factor does. */
  function CompoundPresentValue(fv: real, i: real, n: nat): real
    requires 1.0 + i != 0.0
  {
    PowNonzero(1.0 + i, n);
    fv * ReductionFactor(Compound, i, n).value
  }

  /** Accumulating and discounting over the same periods undo each other. */
  lemma CompoundValuesRoundTrip(x: real, i: real, n: nat)
    requires 1.0 + i != 0.0
    ensures CompoundPresentValue(CompoundFutureValue(x, i, n), i, n) == x
    ensures CompoundFutureValue(CompoundPresentValue(x, i, n), i, n) == x
  {
    PowNonzero(1.0 + i, n);
    var a, r := AccumulationFactor(Compound, i, n), ReductionFactor(Compound, i, n).value;
    assert (x * a) * r == x * (r * a);
    assert (x * r) * a == x * (r * a);
  }

  /** The future value of a payment series, discounted over the `n`
      periods, is its present value. */
  lemma FutureValueDiscountsToPresentValue(p: real, i: real, n: nat, k: int)
    requires i != 0.0 && 1.0 + i != 0.0
    ensures FvByPmt(Compound, p, i, n, k).Success? && PvByPmt(Compound, p, i, n, k).Success?
    ensures CompoundPresentValue(FvByPmt(Compound, p, i, n, k).value, i, n) == PvByPmt(Compound, p, i, n, k).value
  {
    AccumulationDiscountsToPresentWorth(i, n, k);
    var f, r := AccumulationFactorOf(Compound, i, n, k).value, ReductionFactor(Compound, i, n).value;
    assert (p * f) * r == p * (f * r);
  }

  /** At a zero rate the reduction factor is 1 and the discounted payments
      are `n` payments, whatever the timing. */
  lemma ZeroRateDiscountedPayments(p: real, n: nat, k: int)
    ensures DiscountedPayments(p, 1.0 / (1.0 + 0.0), n, k) == n as real * p
  {
    UnitRatioSumIsSum(p, n);
  }
}
