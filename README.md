# financialpy core in Dafny

This project models three modules of financialpy, a small
library of engineering-economics formulas:

- `interest.py`. The simple and compound interest regimes.
  - The accumulation factor `A(i, n)` is `1 + i n` under simple interest and `(1 + i) ** n` under compound interest.
  - The reduction factor is `1 / A(i, n)`.
  - Conversions between present value, future value and interest.
  - The rate per period, and the real rate and real interest after inflation (the Fisher relation).
  - Choosing between a real and an effective rate.
  - The simple internal rate of return.
  - Proportional rates (simple) and equivalent rates (compound).
- `progression.py`. Arithmetic and geometric progressions, indexed from 1.
  - A term cache (`terms`, index to value) that `nth_term` and `n_first_terms` fill in.
  - `get_ratio`.
  - The closed-form `sum_first_terms`.
  - The `is_arithmetic` / `is_geometric` scans with a tolerance.
- `series.py`. The uniform series of payments, `UniformSeriesPayment`.
  - The four annuity factors: accumulation, capital recovery, present worth and sinking fund.
  - The four static conversions: payment to future value, future value to payment, present value to payment, payment to present value.
  - Four solver methods that keep a cache of the last payment, present value, future value and geometric progression.

Files:

- `results.dfy` (`Results`): the exceptions the code can raise (`IndexError`, `TypeError`, `ZeroDivisionError`), `Result` and `Option`, and `Abs`.
- `powers.dfy` (`Powers`): `Pow(x, n)` for a natural exponent, and exact real division through its defining property (`Quotient`).
- `interest.dfy` (`Interest`): `interest.py`. It is pure code, so it is written as functions and lemmas. The regime (`Simple` / `Compound`) is a parameter, standing in for the class the methods are called on.
- `progression.dfy` (`Progressions`):
  - The pure parts of `progression.py` are written as functions.
  - The two scans are methods with loops.
  - `Progression` is a class whose `terms` map the methods update in place.
- `series.dfy` (`Series`): the static factor and conversion helpers of `series.py`, with the identities between them.
- `uniform_series.dfy` (`UniformSeries`): the `UniformSeriesPayment` object, with its cache fields updated in place.

Every division is guarded. A zero divisor is a `Failure(ZeroDivisionError)` on exactly the inputs where Python raises it. A `None` argument that is then used in arithmetic is a `Failure(TypeError)`.

Three points of the code run against what a reader of the library would expect. The model follows the code in each:

- **Meaning of `first_payment`.** In the usual annuity labelling, 0 is an ordinary annuity (payments at the end of each period) and 1 an annuity due (payments at the start). The code does the opposite:
  - `k == 1` uses the plain factors, for payments at the end of period 1.
  - `k == 0` scales the accumulation and present worth factors by `1 + i`, and the capital recovery and sinking fund factors by `1 / (1 + i)`, for payments at the start of each period.
  - `present_value` discounts once more when `first_payment == 1`.
  - The model uses the code's meaning: 1 is the end of period 1, 0 is its start.
- **Which factors are scaled by which timing factor.** The code pairs each factor with a timing factor as follows:
  - the accumulation and present worth factors multiply by `A(i, 1)`;
  - the capital recovery and sinking fund factors multiply by `1 / A(i, 1)`.
  - The model follows the code. The timing lemmas state the result.
- **Round trip between payment and present value.** One would expect the uniform series object to solve for a payment from a present value and back. Its solvers raise a `TypeError` before they complete (see "## Findings"). The round trip is proved for the static conversions and for the corrected solvers.

## Model

| member | source | states |
|---|---|---|
| Interest.AccumulationFactor | interest.py:11-15 | the factor over 0 periods is 1 and over one period is `1 + i` in both regimes |
| Interest.PresentValue | interest.py:28-32 | the present value plus the interest is the future value; it is at most the future value exactly when the interest is not negative |
| Interest.InterestAmount | interest.py:34-38 | the present value plus the interest is the future value; the interest is positive exactly when the future value exceeds the present value |
| Interest.SimpleIsLinear | interest.py:101-104 | under simple interest each extra period adds `i` to the factor |
| Interest.CompoundStep | interest.py:123-126 | under compound interest each extra period multiplies the factor by `1 + i` |
| Interest.CompoundIsMultiplicative | interest.py:123-126 | `A(i, m + n) == A(i, m) * A(i, n)` under compound interest |
| Interest.RegimesAgreeOnOnePeriod | interest.py:101-104 | the two regimes agree over one period; over two, compound exceeds simple by `i²` |
| Interest.AccumulationExamples | interest.py:101-104 | worked values: 10% simple over 5 periods gives 1.5 (20000 grows to 30000); 5% compound over 2 periods gives 1.1025 |
| Interest.ReductionFactor | interest.py:17-20 | fails with a division error exactly when `A(i, n) == 0`; otherwise the value times `A(i, n)` is 1 |
| Interest.CompoundReductionFailsAtMinusOne | interest.py:17-20 | at rate -1 the compound reduction factor over one or more periods is a division error |
| Interest.CompoundReductionIsPower | interest.py:17-20 | the compound reduction factor over `n` periods is the one-period reduction factor to the `n`-th power |
| Interest.FutureValue | interest.py:22-38 | `future_value` is inverted by `present_value` with the same interest, and `interest` recovers the interest from the two values |
| Interest.InterestRatePeriod | interest.py:40-48 | a given future value takes precedence over `interest`; the rate times the present value is the interest; a zero present value is a division error; neither argument given is a type error |
| Interest.NominalRate | interest.py:57-63 | a given rate is used as is; otherwise it is resolved from the future value, else from the interest, with the same errors as `interest_rate_period` |
| Interest.RealInterestRatePeriod | interest.py:50-65 | propagates the resolution error; inflation of -1 is a division error; otherwise `(1 + real) * (1 + f) == 1 + nominal` (Fisher) |
| Interest.RealRateZeroIff | interest.py:50-65 | the real rate is zero exactly when the nominal rate equals inflation |
| Interest.RealInterestPeriod | interest.py:67-82 | never divides; fails exactly when the nominal rate does; otherwise it is `pv * (nominal - f)` at every inflation `f`, including -1, and for `f != -1` it equals the present value times the real rate times `1 + f` |
| Interest.RealOrEffectiveInterestRate | interest.py:84-95 | a division error exactly when the real rate is -1; otherwise returns one of the two rates |
| Interest.RealOrEffectiveChoosesBetterRate | interest.py:84-95 | without division: for `1 + real > 0` the real rate is chosen exactly when `(1 + real)(1 + inflation) > 1 + effective`, and the comparison flips for `1 + real < 0` |
| Interest.SimpleInternalRateReturn | interest.py:106-109 | a division error exactly when the present value or the periods are 0; otherwise the rate grows the present value to the future value under simple interest |
| Interest.SimpleInternalRateReturnInverts | interest.py:106-109 | the internal rate of return of a simple accumulation recovers its rate |
| Interest.IsProportional | interest.py:111-117 | a division error exactly when the second rate or its periods are 0; otherwise true exactly when the ratio gap is below `tolerance`, stated without division as `Abs(i_n m - i_m n) < tolerance * Abs(i_m m)` |
| Interest.ProportionalRatesPass | interest.py:111-117 | rates with `i_n * m == i_m * n` are proportional under every positive tolerance |
| Interest.NonProportionalRatesFail | interest.py:111-117 | any other pair is rejected under some positive tolerance |
| Interest.IsEquivalent | interest.py:133-139 | true exactly when the two compound factors lie strictly within `tolerance` of each other, in either order, which needs a positive tolerance |
| Interest.EquivalentIffEqualFactors | interest.py:133-139 | equal compound factors pass under every positive tolerance; different factors fail under some positive tolerance |
| Interest.CompoundedRateIsEquivalent | interest.py:133-139 | the single-period rate `A(i, n) - 1` is equivalent to `i` over `n` periods |
| Progressions.TermStep | progression.py:84-124 | the first term is the initial term; each next term adds the ratio (arithmetic) or multiplies by it (geometric) |
| Progressions.TermsAt | progression.py:38-46 | position `j` of the first `n` terms holds the term of index `j + 1` |
| Progressions.PartialSumIsSumOfTerms | progression.py:38-46 | adding up the list of the first `n` terms gives the partial sum |
| Progressions.ArithmeticClosedSumIsSum | progression.py:89-92 | `n (a1 + an) / 2` is the sum of the first `n` arithmetic terms |
| Progressions.UnitRatioSumIsSum | progression.py:130-131 | with ratio 1 the geometric sum is `n * a1` |
| Progressions.GeometricSumTelescopes | progression.py:133 | `(1 - r)` times the geometric partial sum is `a1 (1 - r^n)` |
| Progressions.GeometricClosedSumIsSum | progression.py:133 | `a1 (1 - r^n) / (1 - r)` is the geometric partial sum for every ratio other than 1 |
| Progressions.ClosedSumIsSum | progression.py:89-133 | every closed form of `sum_first_terms` (arithmetic, geometric with ratio 1, geometric otherwise) equals the sum of the first `n` terms |
| Progressions.GetRatio | progression.py:61-101 | the arithmetic ratio never fails and the first term plus it is the second; the geometric ratio is a division error exactly when the first term is 0, otherwise the first term times it is the second |
| Progressions.GeometricTermNonzero | progression.py:121-124 | a nonzero first term and a nonzero ratio give no zero term |
| Progressions.GetRatioRecoversRatio | progression.py:61-64 | `get_ratio` of two consecutive terms is the progression's ratio (for a geometric progression, when the earlier term is nonzero) |
| Progressions.IsArithmetic | progression.py:66-82 | fewer than 3 items is a type error; otherwise returns true exactly when every consecutive difference is within the tolerance of the first |
| Progressions.IsGeometric | progression.py:103-119 | fewer than 3 items is a type error; a zero first item is a division error; otherwise returns true exactly when every quotient is within the tolerance, and fails exactly when the scan reaches a zero divisor first |
| Progressions.ArithmeticTermsAreArithmetic | progression.py:66-87 | the terms of any arithmetic progression pass `is_arithmetic` under any nonnegative tolerance |
| Progressions.GeometricTermsAreGeometric | progression.py:103-124 | the terms of a geometric progression with a nonzero first term and ratio pass `is_geometric` under any nonnegative tolerance |
| Progressions.Progression.constructor | progression.py:11-14 | the cache holds only the first term at index 1 |
| Progressions.Progression.ComputeTerm | progression.py:84-124 | `_nth_term` stores the closed form of index `n` (arithmetic or geometric) in the cache, keeps every cached value the closed form of its index, and returns it |
| Progressions.Progression.NthTerm | progression.py:16-55 | an index below 1 is an index error and leaves the cache alone; otherwise returns the `n`-th term, served from the cache or computed and stored |
| Progressions.Progression.NFirstTerms | progression.py:38-46 | an index error below 1; otherwise the list of terms `1..n` in order, with all of `1..n` added to the cache |
| Progressions.Progression.SumFirstTerms | progression.py:89-133 | an index error below 1; otherwise the sum of the first `n` terms; the arithmetic form caches term `n` through `nth_term`, the geometric form leaves the cache unchanged |
| Series.Growth | series.py:121-126 | the timing factor of the accumulation and present worth family is `1 + i` for `k == 0` and 1 otherwise |
| Series.AccumulationFactorOf | series.py:121-126 | a division error exactly at rate 0; otherwise the value times `i` is `(A(i, n) - 1)` times the timing factor |
| Series.CapitalRecoveryFactorOf | series.py:128-133 | a division error exactly when `1 + i == 0` (the one-period reduction factor is always computed) or `A(i, n) == 1`; otherwise the value times `A(i, n) - 1` and the timing factor is `i A(i, n)` |
| Series.SinkingFundFactorOf | series.py:170-175 | the same failure conditions as the capital recovery factor; otherwise the value times `A(i, n) - 1` and the timing factor is `i` |
| Series.PresentWorthFactorOf | series.py:156-161 | a division error exactly when `i A(i, n) == 0`; otherwise the value times `i A(i, n)` is `A(i, n) - 1` times the timing factor |
| Series.FvByPmt | series.py:135-140 | computed as the source writes it, `pmt * ((A - 1) / i) * k_factor`; defined exactly where the accumulation factor is, and then the payment times that factor |
| Series.PmtByFv | series.py:142-147 | computed as the source writes it, `fv * (i / (A - 1)) * k_factor`; defined exactly where the sinking fund factor is, and then the future value times that factor |
| Series.PmtByPv | series.py:149-154 | computed as the source writes it, `pv * (i A / (A - 1)) * k_factor`; defined exactly where the capital recovery factor is, and then the present value times that factor |
| Series.PvByPmt | series.py:163-168 | computed as the source writes it, `pmt * ((A - 1) / (i A)) * k_factor`; defined exactly where the present worth factor is, and then the payment times that factor |
| Series.ZeroRateFactor | series.py:121-126 | at rate 0 the accumulation factor is 1 in both regimes, so the accumulation-family factors divide by zero |
| Series.SinkingFundIsReciprocal | series.py:170-175 | wherever the sinking fund factor is defined, the accumulation factor is defined and the two multiply to 1 |
| Series.CapitalRecoveryDivisors | series.py:128-133 | a defined capital recovery factor implies a nonzero rate and, under compound interest, a nonzero `A(i, n)` |
| Series.PresentWorthIsReciprocal | series.py:156-161 | wherever the capital recovery factor is defined (under simple interest also `A(i, n) != 0`), the present worth factor is defined and the two multiply to 1 |
| Series.FutureValueRoundTrip | series.py:135-147 | payment to future value and back returns the payment, in both regimes and both timings |
| Series.PaymentByFutureValueRoundTrip | series.py:135-147 | future value to payment and back returns the future value |
| Series.PresentValueRoundTrip | series.py:149-154 | payment to present value and back returns the payment |
| Series.PaymentByPresentValueRoundTrip | series.py:163-168 | present value to payment and back returns the present value |
| Series.AccumulationTiming | series.py:121-126 | paying at the start of each period multiplies the accumulation factor by `1 + i`; both timings fail together |
| Series.PresentWorthTiming | series.py:156-161 | paying at the start multiplies the present worth factor by `1 + i` |
| Series.SinkingFundTiming | series.py:170-175 | paying at the start divides the sinking fund factor by `1 + i` |
| Series.CapitalRecoveryTiming | series.py:128-133 | paying at the start divides the capital recovery factor by `1 + i` |
| Series.TelescopedSumTimesRate | series.py:94-99 | a geometric sum with ratio `1/(1 + i)`, discounted once, times `i (1 + i)^n`, is the payment times `(1 + i)^n - 1` |
| Series.TelescopedSumIsPresentWorthAtEnd | series.py:94-102 | with the first payment at the end of period 1, the discounted sum is the payment times the present worth factor |
| Series.CompoundPresentWorthAtEnd | series.py:156-161 | for a rate other than 0 and -1, the compound present worth factor with `k == 1` is defined and equals `((1 + i)^n - 1) / (i (1 + i)^n)` |
| Series.TelescopedSumIsPresentWorthAtStart | series.py:94-99 | with the first payment at the start of period 1, the sum itself is the payment times the present worth factor |
| Series.TelescopedSumIsPresentWorth | series.py:94-102 | the two timings together |
| Series.DiscountedPaymentsMatchPresentWorth | series.py:90-102 | the present value that `present_value` builds from the progression equals the static `_pv_by_pmt`, for a rate other than 0 |
| Series.DiscountedPaymentsAreSumOfTerms | series.py:96-102 | the value `present_value` computes from the progression is the sum of the `n` payments `pmt * v^j`, times `v` once more when the first payment is at the end of period 1; the function `DiscountedPayments` is 0 with no periods, where `present_value` itself stores nothing and raises `IndexError` |
| Series.DiscountedPaymentsArePresentWorth | series.py:156-161 | the discounted payments are the payment times the present worth factor |
| Series.AccumulationFactorIsSum | series.py:121-126 | under compound interest at a nonzero rate, the accumulation factor is the sum of `(1 + i)^j` for `j < n`, times the timing factor |
| Series.GrowthSumTimesRate | series.py:121-126 | `i` times that sum is `(1 + i)^n - 1` |
| Series.AccumulationDiscountsToPresentWorth | series.py:121-126 | for a rate other than 0 and -1, the accumulation factor times the `n`-period reduction factor is the present worth factor |
| Series.CompoundAccumulationNonzero | series.py:156-161 | for a rate other than -1, `(1 + i)^n` is nonzero, and the present worth factor's divisor `i (1 + i)^n` is zero exactly at rate 0 |
| Series.CompoundValuesRoundTrip | series.py:51-53 | accumulating an amount over the periods and discounting it back (in either order) returns the amount |
| Series.FutureValueDiscountsToPresentValue | series.py:48-53 | the future value of a payment series, discounted over the periods, is its present value |
| Series.ZeroRateDiscountedPayments | series.py:94-99 | at rate 0 the discounted payments are `n` times the payment, whatever the timing |
| UniformSeries.UniformSeriesPayment.Create | series.py:11-25 | a `first_payment` other than 0 or 1 is a type error; rate -1 is a division error from the one-period reduction factor; otherwise a fresh object with nothing cached |
| UniformSeries.UniformSeriesPayment.constructor | series.py:16-25 | stores the rate, periods and timing, and the one-period reduction factor as the progression ratio |
| UniformSeries.UniformSeriesPayment.AccumulationFactor | series.py:27-31 | a `ZeroDivisionError` exactly at rate 0; otherwise the future value of one unit paid each period |
| UniformSeries.UniformSeriesPayment.CapitalRecoveryFactor | series.py:33-37 | a zero division exactly when `(1 + i)^n == 1` (a valid object's rate is not -1); wherever defined, the reciprocal of the present worth factor |
| UniformSeries.UniformSeriesPayment.PresentWorthFactor | series.py:109-113 | a `ZeroDivisionError` exactly when `i (1 + i)^n == 0`; otherwise the present value of one unit paid each period, discounted with the progression ratio |
| UniformSeries.UniformSeriesPayment.SinkingFundFactor | series.py:115-119 | a zero division exactly when the rate is -1 or `(1 + i)^n == 1`; wherever defined, the reciprocal of the accumulation factor |
| UniformSeries.UniformSeriesPayment.FutureValue | series.py:39-54 | a cache hit returns the cached future value, even if it was never set; otherwise it stores the payment and a fresh progression, then either raises a division error at rate 0, or stores the future value and raises a type error with the present value unchanged |
| UniformSeries.UniformSeriesPayment.PaymentByPresentValue | series.py:56-71 | a cache hit returns the cached payment, even if it was never set; otherwise it stores the present value and raises a type error, with the payment, future value and progression unchanged |
| UniformSeries.UniformSeriesPayment.PaymentByFutureValue | series.py:73-88 | a cache hit returns the cached payment; otherwise it stores the future value and raises a type error, with everything else unchanged |
| UniformSeries.UniformSeriesPayment.PresentValue | series.py:90-107 | a cache hit returns the cached present value; otherwise it stores the payment and a fresh progression, then either raises an index error with no periods, or stores the discounted payments and raises a type error with the future value unchanged |
| UniformSeries.StaleCacheExample | series.py:180 | the call on line 180, made on its own, is a type error; a repeat call, which the source does not make, returns `Success(None)`, the payment that was never computed |
| UniformSeries.UniformSeriesPayment.CorrectedFutureValue | series.py:39-54 | with the intended keyword call: the future value is returned and the three cached values are consistent (the present value is the discounted payments, the future value the accumulated present value) |
| UniformSeries.UniformSeriesPayment.CorrectedPaymentByPresentValue | series.py:56-71 | the payment is `_pmt_by_pv` of the present value, or a division error when `(1 + i)^n == 1`; on success the cache is consistent |
| UniformSeries.UniformSeriesPayment.CorrectedPaymentByFutureValue | series.py:73-88 | the payment is `_pmt_by_fv` of the future value, the present value is the discounted future value, and the cache is consistent |
| UniformSeries.UniformSeriesPayment.CorrectedPresentValue | series.py:90-107 | the present value is the discounted payments, the future value is it accumulated, and the cache is consistent; no periods is still an index error |
| UniformSeries.CorrectedCacheExample | series.py:180 | with the corrected solver, the call on line 180 computes a payment and a repeat call returns the same payment from the cache |

## Left out

- `CompoundInterest.internal_rate_return` (interest.py:128-131) needs a real `n`-th root, `** (1 / periods)`, which has no exact counterpart on Dafny's reals.
- Floating point: every quantity is an exact real. IEEE rounding, overflow, `inf`/`nan` and the association order of the products are not modelled. The conversions are stated as the amount times the factor, and division is stated through its defining property.
- Tolerances, including the defaults `1e-4`, `1e-10` and `0.01`, are parameters of the modelled calls. `1e-4` and `1e-10` have no special role in any proof.
- Interest.AccumulationFactor: the periods are natural numbers. Python also accepts negative or fractional periods, and `periods` of `internal_rate_return` and `is_proportional` are reals in the model. A negative or fractional exponent would need real powers.
- Python's exception classes and messages are collapsed into the three error values. Python's error of calling the abstract base classes directly (`AbstractInterest`, `Progression`) is not modelled: the regime and the progression `kind` are closed choices.
- Interest.ReductionFactor: `1 / A(i, n)` is stated through its product with `A(i, n)`, not as a literal division. The two are equal wherever the division is defined.
- Series.FvByPmt, Series.PmtByFv, Series.PmtByPv, Series.PvByPmt: each conversion's failure condition is stated as "exactly when its factor fails". The condition itself is stated on the factor function.
- The `print` calls of the `__main__` block (series.py:178-190) are output. Run as a script, the block stops at line 179: its `present_value` call raises the `TypeError` of lines 104-106, so line 180 is never reached. `StaleCacheExample` models the call on line 180 on its own, and adds a repeat call that the source does not make, to show the stale cache.
- The arguments of a solver call are real numbers. Python would also accept `None` or a non-number for `payment`, which fails later in arithmetic. The model does not represent such calls.
- `UniformSeriesPayment` with `periods` below 0 is not representable (`periods` is a `nat`). Zero periods is modelled and reaches the index error of `sum_first_terms`.

## Findings

| source | as written | input that shows it | evidently intended | confidence | as-written member | corrected member |
|---|---|---|---|---|---|---|
| series.py:63-65 | `payment_by_present_value` calls `future_value(present_value, interest_rate=..., periods=...)`, but `future_value` takes `(present_value, interest)`; the call raises `TypeError` after `_present_value` is set, and a repeat call returns the cached payment `None` | `UniformSeriesPayment(0.045, 12, 1).payment_by_present_value(14000)`, then the same call again | the compound future value `pv * (1 + i) ** n` is cached, and the payment is `_pmt_by_pv(pv, ...)` | high (not executed) | UniformSeries.StaleCacheExample | UniformSeries.UniformSeriesPayment.CorrectedPaymentByPresentValue |
| series.py:51-53 | `future_value` calls `present_value(fv, interest_rate=..., periods=...)` on a two-parameter static method: `TypeError` after `_future_value` is set | `UniformSeriesPayment(0.01, 180, 1).future_value(500)` | the present value is `fv / (1 + i) ** n` and the future value is returned | high (not executed) | UniformSeries.UniformSeriesPayment.FutureValue | UniformSeries.UniformSeriesPayment.CorrectedFutureValue |
| series.py:80-82 | `payment_by_future_value` makes the same keyword call to `present_value`: `TypeError` after `_future_value` is set, and no payment is computed | `UniformSeriesPayment(0.07, 5, 0).payment_by_future_value(1000)` | the present value is `fv / (1 + i) ** n` and the payment is `_pmt_by_fv(fv, ...)` | high (not executed) | UniformSeries.UniformSeriesPayment.PaymentByFutureValue | UniformSeries.UniformSeriesPayment.CorrectedPaymentByFutureValue |
| series.py:104-106 | `present_value` makes the same keyword call to `future_value`: `TypeError` after `_present_value` is set | `UniformSeriesPayment(0.05, 6, 1).present_value(3000)` | the future value is `pv * (1 + i) ** n` and the present value is returned | high (not executed) | UniformSeries.UniformSeriesPayment.PresentValue | UniformSeries.UniformSeriesPayment.CorrectedPresentValue |
