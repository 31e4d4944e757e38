/** Simple and compound interest (interest.py).

    The Python hierarchy `AbstractInterest` / `SimpleInterest` /
    `CompoundInterest` has one regime-specific primitive, the accumulation
    factor, that the derived class methods reach through `cls`. Here the
    class is the value `Regime`, and the primitive is dispatched on it. */
module Interest {
  import opened Results
  import opened Powers

  datatype Regime = Simple | Compound

  /** `accumulation_factor(interest_rate, periods)`: the multiplier that turns
      a present amount into its amount after `periods` periods. */
  function AccumulationFactor(regime: Regime, rate: real, periods: nat): (r: real)
    ensures periods == 0 ==> r == 1.0
    ensures periods == 1 ==> r == 1.0 + rate
  {
    match regime
    case Simple => 1.0 + rate * periods as real
    case Compound =>
      assert Pow(1.0 + rate, 1) == (1.0 + rate) * Pow(1.0 + rate, 0);
      Pow(1.0 + rate, periods)
  }

  /** Simple interest grows linearly: each period adds `rate` to the factor. */
  lemma SimpleIsLinear(rate: real, periods: nat)
    ensures AccumulationFactor(Simple, rate, periods + 1)
         == AccumulationFactor(Simple, rate, periods) + rate
  {
  }

  /** Compound interest grows geometrically: each period multiplies the factor by `1 + rate`. */
  lemma CompoundStep(rate: real, periods: nat)
    ensures AccumulationFactor(Compound, rate, periods + 1)
         == AccumulationFactor(Compound, rate, periods) * (1.0 + rate)
  {
  }

  /** Accumulating over `m` periods and then over `n` more is accumulating over `m + n`. */
  lemma CompoundIsMultiplicative(rate: real, m: nat, n: nat)
    ensures AccumulationFactor(Compound, rate, m + n)
         == AccumulationFactor(Compound, rate, m) * AccumulationFactor(Compound, rate, n)
  {
    PowAdd(1.0 + rate, m, n);
  }

  /** The factors of the two regimes agree over a single period and differ
      over two periods exactly by the interest earned on interest. */
  lemma RegimesAgreeOnOnePeriod(rate: real)
    ensures AccumulationFactor(Simple, rate, 1) == AccumulationFactor(Compound, rate, 1)
    ensures AccumulationFactor(Compound, rate, 2) - AccumulationFactor(Simple, rate, 2) == rate * rate
  {
  }

  /** Worked values: simple interest at 10% over 5 periods accumulates 1.5
      (20000 grows to 30000), compound interest at 5% over 2 periods 1.1025. */
  lemma AccumulationExamples()
    ensures AccumulationFactor(Simple, 0.10, 5) == 1.5
    ensures 20000.0 * AccumulationFactor(Simple, 0.10, 5) == 30000.0
    ensures 20000.0 * AccumulationFactor(Simple, 0.10, 1) == 22000.0
    ensures AccumulationFactor(Compound, 0.05, 2) == 1.1025
  {
  }

  /** `reduction_factor`: the reciprocal of the accumulation factor, a
      division error when that factor is zero. */
  function ReductionFactor(regime: Regime, rate: real, periods: nat): (r: Result<real>)
    ensures r.Failure? <==> AccumulationFactor(regime, rate, periods) == 0.0
    ensures r.Failure? ==> r.error == ZeroDivisionError
    ensures r.Success? ==> r.value * AccumulationFactor(regime, rate, periods) == 1.0
  {
    var a := AccumulationFactor(regime, rate, periods);
    if a == 0.0 then Failure(ZeroDivisionError) else Success(Quotient(1.0, a))
  }

  /** Compound interest at rate -1 wipes out the amount, so its factor is
      zero from the first period on and the reduction factor fails. */
  lemma CompoundReductionFailsAtMinusOne(periods: nat)
    requires periods >= 1
    ensures ReductionFactor(Compound, -1.0, periods) == Failure(ZeroDivisionError)
  {
    assert Pow(0.0, periods) == 0.0 * Pow(0.0, periods - 1);
  }

  /** The compound reduction factor over `n` periods is the `n`-th power of
      the one-period reduction factor. */
  lemma {:induction false} CompoundReductionIsPower(rate: real, periods: nat)
    requires 1.0 + rate != 0.0
    ensures ReductionFactor(Compound, rate, 1).Success?
    ensures ReductionFactor(Compound, rate, periods)
         == Success(Pow(ReductionFactor(Compound, rate, 1).value, periods))
  {
    var v := ReductionFactor(Compound, rate, 1).value;
    PowNonzero(1.0 + rate, periods);
    PowOfInverse(v, 1.0 + rate, periods);
    ReciprocalUnique(ReductionFactor(Compound, rate, periods).value, Pow(v, periods), Pow(1.0 + rate, periods));
  }

  /** `future_value(present_value, interest)`: the amount plus its interest. */
  function FutureValue(presentValue: real, interest: real): (r: real)
    ensures PresentValue(r, interest) == presentValue
    ensures InterestAmount(presentValue, r) == interest
  {
    presentValue + interest
  }

  /** `present_value(future_value, interest)`: the amount that the interest
      grows into the future value; it is at most the future value exactly
      when the interest is not negative. */
  function PresentValue(futureValue: real, interest: real): (r: real)
    ensures r + interest == futureValue
    ensures r <= futureValue <==> interest >= 0.0
  {
    futureValue - interest
  }

  /** `interest(present_value, future_value)`: what must be added to the
      present value to reach the future value; it is positive exactly when
      the amount grew. */
  function InterestAmount(presentValue: real, futureValue: real): (r: real)
    ensures presentValue + r == futureValue
    ensures r > 0.0 <==> futureValue > presentValue
  {
    futureValue - presentValue
  }

  /** `interest_rate_period`: the rate over one period implied by a realised
      future value or interest amount. A supplied future value takes
      precedence and the interest argument is then ignored; with neither
      supplied Python divides `None` (a type error); a zero present value is
      a division error. */
  function InterestRatePeriod(presentValue: real, futureValue: Option<real>, interest: Option<real>): (r: Result<real>)
    ensures futureValue.Some? && presentValue == 0.0 ==> r == Failure(ZeroDivisionError)
    ensures futureValue.Some? && presentValue != 0.0 ==>
              r.Success? && presentValue * (1.0 + r.value) == futureValue.value
    ensures futureValue.None? && interest.Some? && presentValue == 0.0 ==> r == Failure(ZeroDivisionError)
    ensures futureValue.None? && interest.Some? && presentValue != 0.0 ==>
              r.Success? && presentValue * r.value == interest.value
    ensures futureValue.None? && interest.None? ==> r == Failure(TypeError)
  {
    var earned := if futureValue.Some? then Some(InterestAmount(presentValue, futureValue.value)) else interest;
    if earned.None? then Failure(TypeError)
    else if presentValue == 0.0 then Failure(ZeroDivisionError)
    else Success(earned.value / presentValue)
  }

  /** The nominal rate the real-rate methods start from, resolved with the
      priority explicit `interest_rate` > `future_value` > `interest`. */
  function NominalRate(presentValue: real, rate: Option<real>, futureValue: Option<real>, interest: Option<real>): (r: Result<real>)
    ensures rate.Some? ==> r == Success(rate.value)
    ensures rate.None? && futureValue.Some? && presentValue != 0.0 ==>
              r.Success? && presentValue * (1.0 + r.value) == futureValue.value
    ensures rate.None? && futureValue.None? && interest.Some? && presentValue != 0.0 ==>
              r.Success? && presentValue * r.value == interest.value
    ensures rate.None? && futureValue.None? && interest.None? ==> r == Failure(TypeError)
    ensures rate.None? && (futureValue.Some? || interest.Some?) && presentValue == 0.0 ==>
              r == Failure(ZeroDivisionError)
  {
    if rate.Some? then Success(rate.value)
    else if futureValue.Some? then InterestRatePeriod(presentValue, futureValue, None)
    else InterestRatePeriod(presentValue, None, interest)
  }

  /** `real_interest_rate_period`: the Fisher real rate `(r - f) / (1 + f)`
      of the nominal rate `r` under inflation `f`. */
  function RealInterestRatePeriod(presentValue: real, inflation: real, rate: Option<real>,
                                  futureValue: Option<real>, interest: Option<real>): (r: Result<real>)
    ensures NominalRate(presentValue, rate, futureValue, interest).Failure? ==>
              r == NominalRate(presentValue, rate, futureValue, interest)
    ensures NominalRate(presentValue, rate, futureValue, interest).Success? && 1.0 + inflation == 0.0 ==>
              r == Failure(ZeroDivisionError)
    ensures NominalRate(presentValue, rate, futureValue, interest).Success? && 1.0 + inflation != 0.0 ==>
              r.Success? &&
              (1.0 + r.value) * (1.0 + inflation) == 1.0 + NominalRate(presentValue, rate, futureValue, interest).value
  {
    var nominal := NominalRate(presentValue, rate, futureValue, interest);
    if nominal.Failure? then nominal
    else if 1.0 + inflation == 0.0 then Failure(ZeroDivisionError)
    else Success((nominal.value - inflation) / (1.0 + inflation))
  }

  /** The real rate is zero exactly when the nominal rate equals inflation. */
  lemma RealRateZeroIff(presentValue: real, inflation: real, rate: Option<real>,
                        futureValue: Option<real>, interest: Option<real>)
    requires RealInterestRatePeriod(presentValue, inflation, rate, futureValue, interest).Success?
    ensures NominalRate(presentValue, rate, futureValue, interest).Success?
    ensures RealInterestRatePeriod(presentValue, inflation, rate, futureValue, interest).value == 0.0
        <==> NominalRate(presentValue, rate, futureValue, interest).value == inflation
  {
    var n := NominalRate(presentValue, rate, futureValue, interest).value;
    var q := RealInterestRatePeriod(presentValue, inflation, rate, futureValue, interest).value;
    assert 1.0 + inflation != 0.0;
    assert (1.0 + q) * (1.0 + inflation) == 1.0 + n;
    assert q * (1.0 + inflation) == n - inflation;
    if n == inflation {
      ZeroProduct(q, 1.0 + inflation);
    }
  }

  /** `real_interest_period`: the present value times `r - f`. Unlike the
      real rate it is not divided by `1 + f`, so it never divides and is
      defined at inflation -1 too; elsewhere it is the present value times
      the real rate, grown by `1 + f`. */
  function RealInterestPeriod(presentValue: real, inflation: real, rate: Option<real>,
                              futureValue: Option<real>, interest: Option<real>): (r: Result<real>)
    ensures r.Failure? <==> NominalRate(presentValue, rate, futureValue, interest).Failure?
    ensures r.Failure? ==> r == NominalRate(presentValue, rate, futureValue, interest)
    ensures r.Success? ==> r.value == presentValue * (NominalRate(presentValue, rate, futureValue, interest).value - inflation)
    ensures r.Success? && 1.0 + inflation != 0.0 ==>
              r.value == presentValue
                         * RealInterestRatePeriod(presentValue, inflation, rate, futureValue, interest).value
                         * (1.0 + inflation)
  {
    var nominal := NominalRate(presentValue, rate, futureValue, interest);
    if nominal.Failure? then nominal
    else Success(presentValue * (nominal.value - inflation))
  }

  /** `real_or_effective_interest_rate`: picks the real rate when it,
      compounded with the expected inflation, beats the effective rate;
      a tie picks the effective rate. The comparison is made through
      `(1 + effective) / (1 + real) - 1`, a division error at real rate -1. */
  function RealOrEffectiveInterestRate(realRate: real, effectiveRate: real, expectedInflation: real): (r: Result<real>)
    ensures r.Failure? <==> 1.0 + realRate == 0.0
    ensures r.Failure? ==> r.error == ZeroDivisionError
    ensures r.Success? ==> r.value == realRate || r.value == effectiveRate
  {
    if 1.0 + realRate == 0.0 then Failure(ZeroDivisionError)
    else
      var relation := (1.0 + effectiveRate) / (1.0 + realRate) - 1.0;
      if expectedInflation > relation then Success(realRate) else Success(effectiveRate)
  }

  /** Stated without the division: for a real rate above -1 the real rate is
      chosen exactly when `(1 + real) * (1 + inflation) > 1 + effective`
      (the real rate plus inflation yields more); below -1 the comparison
      turns round. */
  lemma RealOrEffectiveChoosesBetterRate(realRate: real, effectiveRate: real, expectedInflation: real)
    requires 1.0 + realRate != 0.0
    ensures 1.0 + realRate > 0.0 ==>
              RealOrEffectiveInterestRate(realRate, effectiveRate, expectedInflation)
              == Success(if (1.0 + realRate) * (1.0 + expectedInflation) > 1.0 + effectiveRate
                         then realRate else effectiveRate)
    ensures 1.0 + realRate < 0.0 ==>
              RealOrEffectiveInterestRate(realRate, effectiveRate, expectedInflation)
              == Success(if (1.0 + realRate) * (1.0 + expectedInflation) < 1.0 + effectiveRate
                         then realRate else effectiveRate)
  {
    var a := 1.0 + realRate;
    var g := (1.0 + effectiveRate) / a;
    assert g * a == 1.0 + effectiveRate;
    CompareAgainstQuotient(g, a, 1.0 + effectiveRate, 1.0 + expectedInflation);
  }

  /** Comparing `e` with `c / a` is comparing `a * e` with `c`, the same way
      round for positive `a` and the other way round for negative `a`. */
  lemma CompareAgainstQuotient(g: real, a: real, c: real, e: real)
    requires g * a == c
    ensures a > 0.0 ==> (e > g <==> a * e > c)
    ensures a < 0.0 ==> (e > g <==> a * e < c)
  {
    assert (e - g) * a == a * e - c;
    if a > 0.0 {
      PositiveFactorKeepsSign(e - g, a);
    } else if a < 0.0 {
      NegativeFactorTurnsSign(e - g, a);
    }
  }

  lemma PositiveFactorKeepsSign(x: real, a: real)
    requires a > 0.0
    ensures x > 0.0 ==> x * a > 0.0
    ensures x <= 0.0 ==> x * a <= 0.0
  {
  }

  lemma NegativeFactorTurnsSign(x: real, a: real)
    requires a < 0.0
    ensures x > 0.0 ==> x * a < 0.0
    ensures x <= 0.0 ==> x * a >= 0.0
  {
  }

  /** `SimpleInterest.internal_rate_return`: the rate that grows
      `present_value` into `future_value` over `periods` periods of simple
      interest. */
  function SimpleInternalRateReturn(presentValue: real, futureValue: real, periods: real): (r: Result<real>)
    ensures r.Failure? <==> presentValue == 0.0 || periods == 0.0
    ensures r.Failure? ==> r.error == ZeroDivisionError
    ensures r.Success? ==> presentValue * (1.0 + r.value * periods) == futureValue
  {
    if presentValue == 0.0 || periods == 0.0 then Failure(ZeroDivisionError)
    else
      var r := (futureValue / presentValue - 1.0) / periods;
      assert r * periods == futureValue / presentValue - 1.0;
      Success(r)
  }

  /** The internal rate of return inverts simple accumulation. */
  lemma SimpleInternalRateReturnInverts(presentValue: real, rate: real, periods: nat)
    requires presentValue != 0.0 && periods != 0
    ensures SimpleInternalRateReturn(presentValue, presentValue * AccumulationFactor(Simple, rate, periods), periods as real)
         == Success(rate)
  {
    var n := periods as real;
    var growth := rate * n;
    assert AccumulationFactor(Simple, rate, periods) == 1.0 + growth;
    var factor := 1.0 + growth;
    var fv := presentValue * factor;
    assert fv / presentValue == factor;
    assert growth / n == rate;
    assert fv == presentValue * AccumulationFactor(Simple, rate, periods);
    assert SimpleInternalRateReturn(presentValue, fv, n) == Success((fv / presentValue - 1.0) / n);
  }

  /** `SimpleInterest.is_proportional`: whether the ratio of the rates is
      within `tolerance` of the ratio of the period counts. Stated without
      division: the cross-multiplied gap `i_n m - i_m n` is within
      `tolerance` times `|i_m m|`. */
  function IsProportional(rateN: real, periodsN: real, rateM: real, periodsM: real, tolerance: real): (r: Result<bool>)
    ensures r.Failure? <==> rateM == 0.0 || periodsM == 0.0
    ensures r.Failure? ==> r.error == ZeroDivisionError
    ensures r.Success? ==>
              (r.value <==> Abs(rateN * periodsM - rateM * periodsN) < tolerance * Abs(rateM * periodsM))
  {
    if rateM == 0.0 then Failure(ZeroDivisionError)
    else if periodsM == 0.0 then Failure(ZeroDivisionError)
    else
      ProportionalGap(rateN, periodsN, rateM, periodsM, tolerance);
      Success(Abs(rateN / rateM - periodsN / periodsM) < tolerance)
  }

  /** The gap between the two ratios, scaled by the nonzero `i_m m`, is the
      cross-multiplied gap, so one is below `tolerance` exactly when the
      other is below `tolerance * |i_m m|`. */
  lemma ProportionalGap(rateN: real, periodsN: real, rateM: real, periodsM: real, tolerance: real)
    requires rateM != 0.0 && periodsM != 0.0
    ensures Abs(rateN / rateM - periodsN / periodsM) < tolerance
            <==> Abs(rateN * periodsM - rateM * periodsN) < tolerance * Abs(rateM * periodsM)
  {
    var q := rateN / rateM - periodsN / periodsM;
    var c := rateM * periodsM;
    assert q * c == rateN * periodsM - rateM * periodsN;
    assert Abs(q * c) == Abs(q) * Abs(c);
    assert Abs(c) > 0.0;
  }

  /** Exactly proportional rates pass under every positive tolerance ... */
  lemma ProportionalRatesPass(rateN: real, periodsN: real, rateM: real, periodsM: real, tolerance: real)
    requires rateM != 0.0 && periodsM != 0.0 && tolerance > 0.0
    requires rateN * periodsM == rateM * periodsN
    ensures IsProportional(rateN, periodsN, rateM, periodsM, tolerance) == Success(true)
  {
    assert rateN / rateM == periodsN / periodsM by {
      assert rateN / rateM * rateM * periodsM == periodsN / periodsM * rateM * periodsM;
    }
  }

  /** ... and any other pair fails under some positive tolerance. */
  lemma NonProportionalRatesFail(rateN: real, periodsN: real, rateM: real, periodsM: real)
    requires rateM != 0.0 && periodsM != 0.0
    requires rateN * periodsM != rateM * periodsN
    ensures Abs(rateN / rateM - periodsN / periodsM) > 0.0
    ensures IsProportional(rateN, periodsN, rateM, periodsM, Abs(rateN / rateM - periodsN / periodsM)) == Success(false)
  {
  }

  /** `CompoundInterest.is_equivalent`: whether the two rates accumulate to
      within `tolerance` of each other over their period counts. */
  function IsEquivalent(rateN: real, periodsN: nat, rateM: real, periodsM: nat, tolerance: real): (r: bool)
    ensures r ==> tolerance > 0.0
    ensures r <==> -tolerance < AccumulationFactor(Compound, rateN, periodsN) - AccumulationFactor(Compound, rateM, periodsM) < tolerance
    ensures r <==> Abs(AccumulationFactor(Compound, rateM, periodsM) - AccumulationFactor(Compound, rateN, periodsN)) < tolerance
  {
    Abs(AccumulationFactor(Compound, rateN, periodsN) - AccumulationFactor(Compound, rateM, periodsM)) < tolerance
  }

  /** Rates with equal compound factors are equivalent under every positive
      tolerance, and rates with different factors are not under some. */
  lemma EquivalentIffEqualFactors(rateN: real, periodsN: nat, rateM: real, periodsM: nat)
    ensures AccumulationFactor(Compound, rateN, periodsN) == AccumulationFactor(Compound, rateM, periodsM) ==>
              forall tolerance: real :: tolerance > 0.0 ==> IsEquivalent(rateN, periodsN, rateM, periodsM, tolerance)
    ensures AccumulationFactor(Compound, rateN, periodsN) != AccumulationFactor(Compound, rateM, periodsM) ==>
              !IsEquivalent(rateN, periodsN, rateM, periodsM,
                            Abs(AccumulationFactor(Compound, rateN, periodsN) - AccumulationFactor(Compound, rateM, periodsM)))
  {
  }

  /** A rate `j` over `m` periods is equivalent to the single-period rate
      `(1 + j) ** m - 1`. */
  lemma {:induction false} CompoundedRateIsEquivalent(rate: real, periods: nat, tolerance: real)
    requires tolerance > 0.0
    ensures IsEquivalent(AccumulationFactor(Compound, rate, periods) - 1.0, 1, rate, periods, tolerance)
  {
  }
}
