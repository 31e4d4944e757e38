/** The uniform series of payments object: an interest rate, a number of
    periods and the timing of the first payment, fixed at construction,
    and a cache of the last payment, present value and future value it
    computed, with the geometric progression of the discounted payments. */
module UniformSeries {
  import opened Results
  import opened Powers
  import Interest
  import opened Progressions
  import opened Series

  /** The cache test of every solver: a value is cached and the new input
      is within `tolerance` of it. */
  predicate CacheHit(cached: Option<real>, x: real, tolerance: real)
  {
    cached.Some? && Abs(x - cached.value) <= tolerance
  }

  class UniformSeriesPayment {
    const interestRate: real
    const periods: nat
    /** 1: the first payment is at the end of period 1; 0: at its start. */
    const firstPayment: int
    /** One-period compound reduction factor, `1 / (1 + i)`. */
    const progressionRatio: real
    var payment: Option<real>
    var presentValue: Option<real>
    var futureValue: Option<real>
    var progression: Progression?

    /** The construction-time facts, and a progression exactly when a
        payment is cached: the geometric progression of that payment with
        the reduction factor as ratio. */
    ghost predicate Valid()
      reads this, progression
    {
      && (firstPayment == 0 || firstPayment == 1)
      && progressionRatio * (1.0 + interestRate) == 1.0
      && (payment.Some? <==> progression != null)
      && (progression != null ==>
            && progression.Valid()
            && progression.kind == Geometric
            && progression.ratio == progressionRatio
            && progression.initialTerm == payment.value)
    }

    /** `__init__`: a first payment other than 0 or 1 is a type error; a
        rate of -1 makes the one-period reduction factor divide by zero.
        Nothing is cached. */
    static method Create(interestRate: real, periods: nat, firstPayment: int)
      returns (r: Result<UniformSeriesPayment>)
      ensures firstPayment != 0 && firstPayment != 1 ==> r == Failure(TypeError)
      ensures (firstPayment == 0 || firstPayment == 1) && 1.0 + interestRate == 0.0 ==> r == Failure(ZeroDivisionError)
      ensures r.Success? <==> (firstPayment == 0 || firstPayment == 1) && 1.0 + interestRate != 0.0
      ensures r.Success? ==>
                && fresh(r.value) && r.value.Valid()
                && r.value.interestRate == interestRate && r.value.periods == periods
                && r.value.firstPayment == firstPayment
                && r.value.payment.None? && r.value.presentValue.None? && r.value.futureValue.None?
    {
      if firstPayment != 0 && firstPayment != 1 {
        return Failure(TypeError);
      }
      var ratio := Interest.ReductionFactor(Interest.Compound, interestRate, 1);
      if ratio.Failure? {
        return Failure(ratio.error);
      }
      var s := new UniformSeriesPayment(interestRate, periods, firstPayment);
      return Success(s);
    }

    constructor (interestRate: real, periods: nat, firstPayment: int)
      requires firstPayment == 0 || firstPayment == 1
      requires 1.0 + interestRate != 0.0
      ensures Valid()
      ensures this.interestRate == interestRate && this.periods == periods && this.firstPayment == firstPayment
      ensures payment.None? && presentValue.None? && futureValue.None?
    {
      this.interestRate := interestRate;
      this.periods := periods;
      this.firstPayment := firstPayment;
      progressionRatio := Interest.ReductionFactor(Interest.Compound, interestRate, 1).value;
      payment := None;
      presentValue := None;
      futureValue := None;
      progression := null;
    }

    /** `accumulation_factor()`: a zero division exactly at a zero rate; otherwise it
        is the future value of one unit paid each period. */
    function AccumulationFactor(): (r: Result<real>)
      ensures r.Failure? <==> interestRate == 0.0
      ensures r.Failure? ==> r.error == ZeroDivisionError
      ensures r.Success? ==>
                r.value == PartialSum(Geometric, 1.0, 1.0 + interestRate, periods) * Growth(Interest.Compound, interestRate, firstPayment)
    {
      if interestRate != 0.0 then
        AccumulationFactorIsSum(interestRate, periods, firstPayment);
        AccumulationFactorOf(Interest.Compound, interestRate, periods, firstPayment)
      else AccumulationFactorOf(Interest.Compound, interestRate, periods, firstPayment)
    }

    /** `capital_recovery_factor()`: a zero division exactly when `(1 + i) ** n`
        is 1, since a valid object's rate is not -1; whenever it is defined,
        so is the present worth factor and the two are reciprocal. */
    function CapitalRecoveryFactor(): (r: Result<real>)
      requires Valid()
      reads this, progression
      ensures r.Failure? <==> Interest.AccumulationFactor(Interest.Compound, interestRate, periods) == 1.0
      ensures r.Failure? ==> r.error == ZeroDivisionError
      ensures r.Success? ==> PresentWorthFactor().Success? && r.value * PresentWorthFactor().value == 1.0
    {
      var r := CapitalRecoveryFactorOf(Interest.Compound, interestRate, periods, firstPayment);
      if r.Success? then
        PresentWorthIsReciprocal(Interest.Compound, interestRate, periods, firstPayment);
        r
      else r
    }

    /** `present_worth_factor()`: fails exactly when `i * (1 + i) ** n` is
        0; otherwise it is the present value of one unit paid each period,
        discounted with the progression ratio. */
    function PresentWorthFactor(): (r: Result<real>)
      requires Valid()
      reads this, progression
      ensures r.Failure? <==> interestRate * Interest.AccumulationFactor(Interest.Compound, interestRate, periods) == 0.0
      ensures r.Failure? ==> r.error == ZeroDivisionError
      ensures r.Success? ==> r.value == DiscountedPayments(1.0, progressionRatio, periods, firstPayment)
    {
      var r := PresentWorthFactorOf(Interest.Compound, interestRate, periods, firstPayment);
      if r.Success? then
        DiscountedPaymentsMatchPresentWorth(1.0, interestRate, progressionRatio, periods, firstPayment);
        r
      else r
    }

    /** `sinking_fund_factor()`: a zero division exactly when the one-period
        reduction factor, which is always computed, divides by zero or
        `(1 + i) ** n` is 1; whenever it is defined, so is the accumulation
        factor and the two are reciprocal. */
    function SinkingFundFactor(): (r: Result<real>)
      ensures r.Failure? <==> 1.0 + interestRate == 0.0 || Interest.AccumulationFactor(Interest.Compound, interestRate, periods) == 1.0
      ensures r.Failure? ==> r.error == ZeroDivisionError
      ensures r.Success? ==> AccumulationFactor().Success? && r.value * AccumulationFactor().value == 1.0
    {
      var r := SinkingFundFactorOf(Interest.Compound, interestRate, periods, firstPayment);
      if r.Success? then
        SinkingFundIsReciprocal(Interest.Compound, interestRate, periods, firstPayment);
        r
      else r
    }

    /** `future_value(payment, tolerance)`. A payment within `tolerance` of
        the cached one returns the cached future value, set or not.
        Otherwise the payment and a fresh progression are stored and
        `_fv_by_pmt` fails at a zero rate; else the future value is stored
        and the keyword call to the two-parameter `present_value` is a
        type error, leaving the present value as it was. */
    method FutureValue(payment: real, tolerance: real) returns (r: Result<Option<real>>)
      requires Valid()
      modifies this
      ensures Valid()
      ensures CacheHit(old(this.payment), payment, tolerance) ==>
                r == Success(old(futureValue)) && unchanged(this)
      ensures !CacheHit(old(this.payment), payment, tolerance) ==>
                && this.payment == Some(payment)
                && fresh(progression) && progression.terms == map[1 := payment]
                && presentValue == old(presentValue)
                && (interestRate == 0.0 ==> r == Failure(ZeroDivisionError) && futureValue == old(futureValue))
                && (interestRate != 0.0 ==>
                      && r == Failure(TypeError)
                      && futureValue == Some(FvByPmt(Interest.Compound, payment, interestRate, periods, firstPayment).value))
    {
      if CacheHit(this.payment, payment, tolerance) {
        return Success(futureValue);
      }
      this.payment := Some(payment);
      progression := new Progression(Geometric, payment, progressionRatio);
      var fv := FvByPmt(Interest.Compound, payment, interestRate, periods, firstPayment);
      if fv.Failure? {
        return Failure(fv.error);
      }
      futureValue := Some(fv.value);
      return Failure(TypeError);
    }

    /** `payment_by_present_value(present_value, tolerance)`. A present
        value within `tolerance` of the cached one returns the cached
        payment, set or not. Otherwise the present value is stored and the
        keyword call to the two-parameter `future_value` is a type error
        before any payment is computed. */
    method PaymentByPresentValue(presentValue: real, tolerance: real) returns (r: Result<Option<real>>)
      requires Valid()
      modifies this
      ensures Valid()
      ensures CacheHit(old(this.presentValue), presentValue, tolerance) ==>
                r == Success(old(payment)) && unchanged(this)
      ensures !CacheHit(old(this.presentValue), presentValue, tolerance) ==>
                && r == Failure(TypeError)
                && this.presentValue == Some(presentValue)
                && payment == old(payment) && futureValue == old(futureValue) && progression == old(progression)
    {
      if CacheHit(this.presentValue, presentValue, tolerance) {
        return Success(payment);
      }
      this.presentValue := Some(presentValue);
      return Failure(TypeError);
    }

    /** `payment_by_future_value(future_value, tolerance)`. A future value
        within `tolerance` of the cached one returns the cached payment,
        set or not. Otherwise the future value is stored and the keyword
        call to the two-parameter `present_value` is a type error before
        any payment is computed. */
    method PaymentByFutureValue(futureValue: real, tolerance: real) returns (r: Result<Option<real>>)
      requires Valid()
      modifies this
      ensures Valid()
      ensures CacheHit(old(this.futureValue), futureValue, tolerance) ==>
                r == Success(old(payment)) && unchanged(this)
      ensures !CacheHit(old(this.futureValue), futureValue, tolerance) ==>
                && r == Failure(TypeError)
                && this.futureValue == Some(futureValue)
                && payment == old(payment) && presentValue == old(presentValue) && progression == old(progression)
    {
      if CacheHit(this.futureValue, futureValue, tolerance) {
        return Success(payment);
      }
      this.futureValue := Some(futureValue);
      return Failure(TypeError);
    }

    /** `present_value(payment, tolerance)`. A payment within `tolerance`
        of the cached one returns the cached present value, set or not.
        Otherwise the payment and a fresh progression are stored; with no
        periods `sum_first_terms` is an index error; else the present value
        is the sum of the `n` discounted payments, discounted once more for
        a first payment at the end of period 1; then the keyword call to the two-parameter
        `future_value` is a type error, leaving the future value as it was. */
    method PresentValue(payment: real, tolerance: real) returns (r: Result<Option<real>>)
      requires Valid()
      modifies this
      ensures Valid()
      ensures CacheHit(old(this.payment), payment, tolerance) ==>
                r == Success(old(presentValue)) && unchanged(this)
      ensures !CacheHit(old(this.payment), payment, tolerance) ==>
                && this.payment == Some(payment)
                && fresh(progression) && progression.terms == map[1 := payment]
                && futureValue == old(futureValue)
                && (periods == 0 ==> r == Failure(IndexError) && presentValue == old(presentValue))
                && (periods > 0 ==>
                      && r == Failure(TypeError)
                      && presentValue == Some(DiscountedPayments(payment, progressionRatio, periods, firstPayment)))
    {
      if CacheHit(this.payment, payment, tolerance) {
        return Success(presentValue);
      }
      this.payment := Some(payment);
      var p := new Progression(Geometric, payment, progressionRatio);
      progression := p;
      var sum := p.SumFirstTerms(periods);
      if sum.Failure? {
        return Failure(sum.error);
      }
      assert sum.value == PartialSum(Geometric, payment, progressionRatio, periods);
      var pv := sum.value;
      if firstPayment == 1 {
        pv := pv * progressionRatio;
      }
      assert pv == DiscountedPayments(payment, progressionRatio, periods, firstPayment);
      presentValue := Some(pv);
      return Failure(TypeError);
    }

    /** The three cached values describe one and the same series: the
        present value is the payment discounted over the periods, and the
        future value is the present value accumulated over them. */
    ghost predicate Consistent()
      reads this
    {
      && payment.Some? && presentValue.Some? && futureValue.Some?
      && presentValue.value == DiscountedPayments(payment.value, progressionRatio, periods, firstPayment)
      && futureValue.value == CompoundFutureValue(presentValue.value, interestRate, periods)
    }

    /** `future_value` with its present value computed by discounting the
        future value over the periods, as the keyword call intends. The
        zero-rate failure of `_fv_by_pmt` stays. */
    method CorrectedFutureValue(payment: real, tolerance: real) returns (r: Result<Option<real>>)
      requires Valid()
      modifies this
      ensures Valid()
      ensures CacheHit(old(this.payment), payment, tolerance) ==>
                r == Success(old(futureValue)) && unchanged(this)
      ensures !CacheHit(old(this.payment), payment, tolerance) ==>
                && this.payment == Some(payment)
                && fresh(progression) && progression.terms == map[1 := payment]
                && (interestRate == 0.0 ==>
                      r == Failure(ZeroDivisionError) && futureValue == old(futureValue) && presentValue == old(presentValue))
                && (interestRate != 0.0 ==>
                      && r == Success(futureValue)
                      && futureValue == Some(FvByPmt(Interest.Compound, payment, interestRate, periods, firstPayment).value)
                      && Consistent())
    {
      if CacheHit(this.payment, payment, tolerance) {
        return Success(futureValue);
      }
      this.payment := Some(payment);
      progression := new Progression(Geometric, payment, progressionRatio);
      var fv := FvByPmt(Interest.Compound, payment, interestRate, periods, firstPayment);
      if fv.Failure? {
        return Failure(fv.error);
      }
      futureValue := Some(fv.value);
      presentValue := Some(CompoundPresentValue(fv.value, interestRate, periods));
      FutureValueDiscountsToPresentValue(payment, interestRate, periods, firstPayment);
      DiscountedPaymentsMatchPresentWorth(payment, interestRate, progressionRatio, periods, firstPayment);
      CompoundValuesRoundTrip(fv.value, interestRate, periods);
      return Success(futureValue);
    }

    /** `payment_by_present_value` with its future value computed by
        accumulating the present value over the periods, as the keyword
        call intends. `_pmt_by_pv` still fails when `(1 + i) ** n == 1`. */
    method CorrectedPaymentByPresentValue(presentValue: real, tolerance: real) returns (r: Result<Option<real>>)
      requires Valid()
      modifies this
      ensures Valid()
      ensures CacheHit(old(this.presentValue), presentValue, tolerance) ==>
                r == Success(old(payment)) && unchanged(this)
      ensures !CacheHit(old(this.presentValue), presentValue, tolerance) ==>
                && this.presentValue == Some(presentValue)
                && futureValue == Some(CompoundFutureValue(presentValue, interestRate, periods))
                && (Interest.AccumulationFactor(Interest.Compound, interestRate, periods) == 1.0 ==>
                      r == Failure(ZeroDivisionError) && payment == old(payment) && progression == old(progression))
                && (Interest.AccumulationFactor(Interest.Compound, interestRate, periods) != 1.0 ==>
                      && r == Success(payment)
                      && payment == Some(PmtByPv(Interest.Compound, presentValue, interestRate, periods, firstPayment).value)
                      && fresh(progression)
                      && Consistent())
    {
      if CacheHit(this.presentValue, presentValue, tolerance) {
        return Success(payment);
      }
      this.presentValue := Some(presentValue);
      futureValue := Some(CompoundFutureValue(presentValue, interestRate, periods));
      var pmt := PmtByPv(Interest.Compound, presentValue, interestRate, periods, firstPayment);
      if pmt.Failure? {
        return Failure(pmt.error);
      }
      payment := Some(pmt.value);
      progression := new Progression(Geometric, pmt.value, progressionRatio);
      ZeroRateFactor(Interest.Compound, periods);
      PaymentByPresentValueRoundTrip(Interest.Compound, presentValue, interestRate, periods, firstPayment);
      DiscountedPaymentsMatchPresentWorth(pmt.value, interestRate, progressionRatio, periods, firstPayment);
      return Success(payment);
    }

    /** `payment_by_future_value` with its present value computed by
        discounting the future value over the periods, as the keyword call
        intends. `_pmt_by_fv` still fails when `(1 + i) ** n == 1`. */
    method CorrectedPaymentByFutureValue(futureValue: real, tolerance: real) returns (r: Result<Option<real>>)
      requires Valid()
      modifies this
      ensures Valid()
      ensures CacheHit(old(this.futureValue), futureValue, tolerance) ==>
                r == Success(old(payment)) && unchanged(this)
      ensures !CacheHit(old(this.futureValue), futureValue, tolerance) ==>
                && this.futureValue == Some(futureValue)
                && presentValue == Some(CompoundPresentValue(futureValue, interestRate, periods))
                && (Interest.AccumulationFactor(Interest.Compound, interestRate, periods) == 1.0 ==>
                      r == Failure(ZeroDivisionError) && payment == old(payment) && progression == old(progression))
                && (Interest.AccumulationFactor(Interest.Compound, interestRate, periods) != 1.0 ==>
                      && r == Success(payment)
                      && payment == Some(PmtByFv(Interest.Compound, futureValue, interestRate, periods, firstPayment).value)
                      && fresh(progression)
                      && Consistent())
    {
      if CacheHit(this.futureValue, futureValue, tolerance) {
        return Success(payment);
      }
      this.futureValue := Some(futureValue);
      presentValue := Some(CompoundPresentValue(futureValue, interestRate, periods));
      var pmt := PmtByFv(Interest.Compound, futureValue, interestRate, periods, firstPayment);
      if pmt.Failure? {
        return Failure(pmt.error);
      }
      payment := Some(pmt.value);
      progression := new Progression(Geometric, pmt.value, progressionRatio);
      ZeroRateFactor(Interest.Compound, periods);
      PaymentByFutureValueRoundTrip(Interest.Compound, futureValue, interestRate, periods, firstPayment);
      FutureValueDiscountsToPresentValue(pmt.value, interestRate, periods, firstPayment);
      DiscountedPaymentsMatchPresentWorth(pmt.value, interestRate, progressionRatio, periods, firstPayment);
      CompoundValuesRoundTrip(futureValue, interestRate, periods);
      return Success(payment);
    }

    /** `present_value` with its future value computed by accumulating the
        present value over the periods, as the keyword call intends. The
        index error for zero periods stays. */
    method CorrectedPresentValue(payment: real, tolerance: real) returns (r: Result<Option<real>>)
      requires Valid()
      modifies this
      ensures Valid()
      ensures CacheHit(old(this.payment), payment, tolerance) ==>
                r == Success(old(presentValue)) && unchanged(this)
      ensures !CacheHit(old(this.payment), payment, tolerance) ==>
                && this.payment == Some(payment)
                && fresh(progression) && progression.terms == map[1 := payment]
                && (periods == 0 ==>
                      r == Failure(IndexError) && presentValue == old(presentValue) && futureValue == old(futureValue))
                && (periods > 0 ==>
                      && r == Success(presentValue)
                      && presentValue == Some(DiscountedPayments(payment, progressionRatio, periods, firstPayment))
                      && Consistent())
    {
      if CacheHit(this.payment, payment, tolerance) {
        return Success(presentValue);
      }
      this.payment := Some(payment);
      var p := new Progression(Geometric, payment, progressionRatio);
      progression := p;
      var sum := p.SumFirstTerms(periods);
      if sum.Failure? {
        return Failure(sum.error);
      }
      assert sum.value == PartialSum(Geometric, payment, progressionRatio, periods);
      var pv := sum.value;
      if firstPayment == 1 {
        pv := pv * progressionRatio;
      }
      assert pv == DiscountedPayments(payment, progressionRatio, periods, firstPayment);
      presentValue := Some(pv);
      futureValue := Some(CompoundFutureValue(pv, interestRate, periods));
      return Success(presentValue);
    }
  }

  /** The call on line 180 of `series.py`, on its own: a fresh series at
      4.5% over 12 periods asked for the payment of a present value of 14000
      fails with a type error. The second call is not in the source; it
      shows that asking the same object again hits the cache and returns the
      payment that was never set. Run as a script, the `__main__` block
      never reaches line 180: the `present_value` call on line 179 already
      raises its type error at lines 104-106. */
  method StaleCacheExample() returns (first: Result<Option<real>>, second: Result<Option<real>>)
    ensures first == Failure(TypeError)
    ensures second == Success(None)
  {
    var series := new UniformSeriesPayment(0.045, 12, 1);
    first := series.PaymentByPresentValue(14000.0, 0.01);
    second := series.PaymentByPresentValue(14000.0, 0.01);
  }

  /** The same demonstration with the corrected solver: the payment is
      computed and a repeat call returns it from the cache. */
  method CorrectedCacheExample() returns (first: Result<Option<real>>, second: Result<Option<real>>)
    ensures first.Success? && first.value.Some?
    ensures second == first
  {
    var series := new UniformSeriesPayment(0.045, 12, 1);
    PowGreaterThanOne(1.045, 12);
    first := series.CorrectedPaymentByPresentValue(14000.0, 0.01);
    second := series.CorrectedPaymentByPresentValue(14000.0, 0.01);
  }
}
