/** The appraisal engine of src/util/functions.py: NPV, the IRR objective,
    payback period, the common-horizon (LCM) extension, the equivalent
    annual annuity and the profitability index, over exact reals.
    A cash-flow series is [CF_0, CF_1, ..., CF_N], CF_0 being year 0. */
module Appraisal {
  import opened Wrappers
  import opened RealMath

  /** The ValueError raised by Validator.validate_discount_rate. */
  datatype Error = DiscountRateOutOfRange

  /** Validator.validate_discount_rate: None when the rate is accepted. */
  function ValidateDiscountRate(rate: real): (err: Option<Error>)
    ensures err.None? <==> 0.0 <= rate <= 1.0
  {
    if !(0.0 <= rate <= 1.0) then Some(DiscountRateOutOfRange) else None
  }

  /** Every term cf_t / (1 + rate) ** t of the series can be evaluated:
      Python only divides by (1 + rate) ** t with t >= 1 when there are two
      or more flows, and 0.0 ** 0 is 1. */
  predicate Discountable(cf: seq<real>, rate: real) {
    1.0 + rate != 0.0 || |cf| <= 1
  }

  /** cf / (1 + rate) ** t. */
  function PresentValue(cf: real, rate: real, t: nat): real
    requires 1.0 + rate != 0.0 || t == 0
  {
    cf / Pow(1.0 + rate, t)
  }

  /** Every flow discounted by its own index, year 0 included: the list the
      IRR objective and the profitability index sum. */
  function PresentValues(cf: seq<real>, rate: real): (pv: seq<real>)
    requires Discountable(cf, rate)
    ensures |pv| == |cf|
  {
    seq(|cf|, i requires 0 <= i < |cf| => PresentValue(cf[i], rate, i))
  }

  /** The flows of years 1.. discounted by their year; year 0 is left out. */
  function DiscountedInflows(cf: seq<real>, rate: real): seq<real>
    requires |cf| >= 1 && Discountable(cf, rate)
  {
    seq(|cf| - 1, t requires 0 <= t < |cf| - 1 => PresentValue(cf[t + 1], rate, t + 1))
  }

  /** The NPV formula of compute_NPV: CF_0 + sum of the discounted later flows. */
  function NpvValue(cf: seq<real>, rate: real): real
    requires |cf| >= 1 && Discountable(cf, rate)
  {
    cf[0] + Sum(DiscountedInflows(cf, rate))
  }

  /** compute_NPV: validate the rate, then evaluate the formula. */
  function ComputeNpv(cf: seq<real>, rate: real): (res: Result<real, Error>)
    requires |cf| >= 1
    ensures res.Failure? <==> !(0.0 <= rate <= 1.0)
    ensures res.Success? ==> res.value == NpvValue(cf, rate)
  {
    match ValidateDiscountRate(rate)
    case Some(e) => Failure(e)
    case None => Success(NpvValue(cf, rate))
  }

  /** The objective compute_IRR hands to fsolve: sum of cf_i / (1 + rate) ** i. */
  function IrrObjective(cf: seq<real>, rate: real): real
    requires Discountable(cf, rate)
  {
    Sum(PresentValues(cf, rate))
  }

  /** The IRR objective is the NPV formula at every rate: its i = 0 term is
      divided by (1 + rate) ** 0 = 1. */
  lemma IrrObjectiveIsNpv(cf: seq<real>, rate: real)
    requires |cf| >= 1 && Discountable(cf, rate)
    ensures IrrObjective(cf, rate) == NpvValue(cf, rate)
  {
    var pv := PresentValues(cf, rate);
    SumFirst(pv);
    assert pv[1..] == DiscountedInflows(cf, rate);
  }

  /** compute_NPV succeeds exactly on valid rates, with the IRR objective's value. */
  lemma ComputeNpvIsIrrObjective(cf: seq<real>, rate: real)
    requires |cf| >= 1
    ensures 0.0 <= rate <= 1.0 ==> ComputeNpv(cf, rate) == Success(IrrObjective(cf, rate))
    ensures !(0.0 <= rate <= 1.0) ==> ComputeNpv(cf, rate) == Failure(DiscountRateOutOfRange)
  {
    if 0.0 <= rate <= 1.0 {
      IrrObjectiveIsNpv(cf, rate);
    }
  }

  /** A one-element series is worth its only flow. */
  lemma NpvOfOneFlow(c: real, rate: real)
    ensures NpvValue([c], rate) == c
  {
    assert DiscountedInflows([c], rate) == [];
  }

  /** A zero rate leaves a flow undiscounted. */
  lemma PresentValueAtZeroRate(c: real, t: nat)
    ensures PresentValue(c, 0.0, t) == c
  {
    PowOne(t);
    assert 1.0 + 0.0 == 1.0;
  }

  /** At a zero rate the discounted later flows are the later flows. */
  lemma DiscountedInflowsAtZeroRate(cf: seq<real>)
    requires |cf| >= 1
    ensures DiscountedInflows(cf, 0.0) == cf[1..]
  {
    var d, later := DiscountedInflows(cf, 0.0), cf[1..];
    forall t | 0 <= t < |d|
      ensures d[t] == later[t]
    {
      PresentValueAtZeroRate(cf[t + 1], t + 1);
    }
  }

  /** At a zero rate nothing is discounted: NPV is the plain sum. */
  lemma NpvAtZeroRate(cf: seq<real>)
    requires |cf| >= 1
    ensures NpvValue(cf, 0.0) == Sum(cf)
  {
    DiscountedInflowsAtZeroRate(cf);
    SumFirst(cf);
  }

  /** Dividing a non-negative amount by a larger positive number gives less. */
  lemma DivideByLarger(c: real, p: real, q: real)
    requires c >= 0.0 && 0.0 < p < q
    ensures c / q <= c / p
    ensures c > 0.0 ==> c / q < c / p
  {
    assert c / q * q == c && c / p * p == c;
    if c > 0.0 {
      assert c / p * q > c / p * p;
    }
  }

  /** For a series whose later flows are non-negative and not all zero, NPV
      strictly decreases as the rate grows (rates above -100%). */
  lemma NpvDecreasesWithRate(cf: seq<real>, r1: real, r2: real)
    requires |cf| >= 1 && -1.0 < r1 < r2
    requires forall t :: 1 <= t < |cf| ==> cf[t] >= 0.0
    requires exists t :: 1 <= t < |cf| && cf[t] > 0.0
    ensures NpvValue(cf, r2) < NpvValue(cf, r1)
  {
    var k :| 1 <= k < |cf| && cf[k] > 0.0;
    var a, b := DiscountedInflows(cf, r2), DiscountedInflows(cf, r1);
    forall t | 0 <= t < |cf| - 1
      ensures a[t] <= b[t]
      ensures cf[t + 1] > 0.0 ==> a[t] < b[t]
    {
      PowStrictlyIncreasing(1.0 + r1, 1.0 + r2, t + 1);
      DivideByLarger(cf[t + 1], Pow(1.0 + r1, t + 1), Pow(1.0 + r2, t + 1));
    }
    SumStrictlyMonotone(a, b, k - 1);
  }

  /** Consequently the IRR objective has at most one root above -100% for
      such a series. A root below -100% may still exist (see
      IrrObjectiveRootBelowMinusOne), and fsolve is not confined to either side. */
  lemma IrrRootIsUnique(cf: seq<real>, r1: real, r2: real)
    requires |cf| >= 1 && -1.0 < r1 && -1.0 < r2
    requires forall t :: 1 <= t < |cf| ==> cf[t] >= 0.0
    requires exists t :: 1 <= t < |cf| && cf[t] > 0.0
    requires IrrObjective(cf, r1) == 0.0 && IrrObjective(cf, r2) == 0.0
    ensures r1 == r2
  {
    IrrObjectiveIsNpv(cf, r1);
    IrrObjectiveIsNpv(cf, r2);
    if r1 < r2 {
      NpvDecreasesWithRate(cf, r1, r2);
    } else if r2 < r1 {
      NpvDecreasesWithRate(cf, r2, r1);
    }
  }

  /** [-1, 0, 4] meets the conditions of IrrRootIsUnique and has its one root
      above -100% at 100%, yet the objective also vanishes at -300%. */
  lemma IrrObjectiveRootBelowMinusOne()
    ensures IrrObjective([-1.0, 0.0, 4.0], 1.0) == 0.0
    ensures IrrObjective([-1.0, 0.0, 4.0], -3.0) == 0.0
  {
    assert Pow(2.0, 2) == 4.0;
    assert Pow(-2.0, 2) == 4.0;
    var above, below := PresentValues([-1.0, 0.0, 4.0], 1.0), PresentValues([-1.0, 0.0, 4.0], -3.0);
    assert above == [-1.0] + [0.0] + [1.0];
    assert below == [-1.0] + [0.0] + [1.0];
    SumAppend([-1.0] + [0.0], 1.0);
    SumAppend([-1.0], 0.0);
    SumAppend([], -1.0);
  }

  /** [-1000, 1100] breaks even at 10%. */
  lemma IrrOfSimpleInvestment()
    ensures IrrObjective([-1000.0, 1100.0], 0.1) == 0.0
    ensures NpvValue([-1000.0, 1100.0], 0.0) == 100.0
  {
    var pv := PresentValues([-1000.0, 1100.0], 0.1);
    assert Pow(1.1, 1) == 1.1;
    assert pv == [-1000.0] + [1000.0];
    SumAppend([-1000.0], 1000.0);
    SumAppend([], -1000.0);
    assert DiscountedInflows([-1000.0, 1100.0], 0.0) == [] + [1100.0];
    SumAppend([], 1100.0);
  }

  // ---------------------------------------------------------------------
  // compute_payback_period

  function Abs(x: real): real {
    if x < 0.0 then -x else x
  }

  /** Year p (1-based) is a payback year: CF_1 + ... + CF_p >= |CF_0|. */
  predicate PaysBack(cf: seq<real>, p: int)
    requires |cf| >= 1
  {
    1 <= p < |cf| && Sum(cf[1..p + 1]) >= Abs(cf[0])
  }

  /** The first payback year at or after p. */
  function PaybackFrom(cf: seq<real>, p: nat): (res: Option<nat>)
    requires |cf| >= 1 && p >= 1
    ensures res.Some? ==> p <= res.value && PaysBack(cf, res.value)
    ensures res.Some? ==> forall q :: p <= q < res.value ==> !PaysBack(cf, q)
    ensures res.None? ==> forall q :: p <= q < |cf| ==> !PaysBack(cf, q)
    decreases |cf| - p
  {
    if p >= |cf| then None
    else if PaysBack(cf, p) then Some(p)
    else PaybackFrom(cf, p + 1)
  }

  /** The payback period compute_payback_period promises: the least year
      whose running sum reaches the outlay, or None when none does. */
  function PaybackPeriod(cf: seq<real>): (res: Option<nat>)
    requires |cf| >= 1
    ensures res.Some? ==> PaysBack(cf, res.value)
    ensures res.Some? ==> forall q :: 1 <= q < res.value ==> !PaysBack(cf, q)
    ensures res.None? <==> forall q :: 1 <= q < |cf| ==> !PaysBack(cf, q)
  {
    PaybackFrom(cf, 1)
  }

  /** compute_payback_period: a running sum over CF_1, CF_2, ... that
      returns the first period where it reaches |CF_0|. */
  method ComputePaybackPeriod(cf: seq<real>) returns (period: Option<nat>)
    requires |cf| >= 1
    ensures period == PaybackPeriod(cf)
  {
    var initialInvestment := Abs(cf[0]);
    var cumulative := 0.0;
    var p := 1;
    while p < |cf|
      invariant 1 <= p <= |cf|
      invariant cumulative == Sum(cf[1..p])
      invariant forall q :: 1 <= q < p ==> !PaysBack(cf, q)
    {
      assert cf[1..p + 1] == cf[1..p] + [cf[p]];
      SumAppend(cf[1..p], cf[p]);
      cumulative := cumulative + cf[p];
      if cumulative >= initialInvestment {
        assert PaysBack(cf, p);
        return Some(p);
      }
      p := p + 1;
    }
    return None;
  }

  /** [-1000, 400, 400, 400, 400] pays back in year 3; [-1000, 100] never. */
  lemma PaybackExamples()
    ensures PaybackPeriod([-1000.0, 400.0, 400.0, 400.0, 400.0]) == Some(3)
    ensures PaybackPeriod([-1000.0, 100.0]) == None
  {
    var cf := [-1000.0, 400.0, 400.0, 400.0, 400.0];
    assert cf[1..2] == [400.0] && cf[1..3] == [400.0, 400.0] && cf[1..4] == [400.0, 400.0, 400.0];
    assert Sum([400.0, 400.0]) == 800.0 by {
      assert [400.0, 400.0][..1] == [400.0];
    }
    assert Sum([400.0, 400.0, 400.0]) == 1200.0 by {
      assert [400.0, 400.0, 400.0][..2] == [400.0, 400.0];
    }
    assert !PaysBack(cf, 1) && !PaysBack(cf, 2) && PaysBack(cf, 3);
    var short := [-1000.0, 100.0];
    assert short[1..2] == [100.0];
    assert !PaysBack(short, 1);
  }

  // ---------------------------------------------------------------------
  // extend_cashflows_for_LCM

  /** k copies of block, one after the other. */
  function Repeat(block: seq<real>, k: nat): (r: seq<real>)
    ensures |r| == k * |block|
  {
    if k == 0 then []
    else
      var front := Repeat(block, k - 1);
      assert |front| + |block| == k * |block|;
      front + block
  }

  /** How many times range(k) iterates. */
  function RangeLength(k: int): nat {
    if k < 0 then 0 else k
  }

  /** How many copies of the later flows fit the common horizon: the horizon
      floor-divided by the number of later flows (Dafny's / agrees with
      Python's // for a positive divisor). */
  function Repetitions(cf: seq<real>, lcm: int): int
    requires |cf| >= 2
  {
    lcm / (|cf| - 1)
  }

  /** What extend_cashflows_for_LCM returns: CF_0 once, then the later flows
      repeated once per iteration of range(repetitions). */
  function ExtendedCashflows(cf: seq<real>, lcm: int): (r: seq<real>)
    requires |cf| >= 2
    ensures |r| == 1 + RangeLength(Repetitions(cf, lcm)) * (|cf| - 1)
    ensures r[0] == cf[0]
  {
    [cf[0]] + Repeat(cf[1..], RangeLength(Repetitions(cf, lcm)))
  }

  /** extend_cashflows_for_LCM: start from [CF_0] and extend by cf[1:] in a loop. */
  method ExtendCashflowsForLcm(cf: seq<real>, lcm: int) returns (extended: seq<real>)
    requires |cf| >= 2
    ensures extended == ExtendedCashflows(cf, lcm)
  {
    var repetitions := lcm / (|cf| - 1);
    extended := [cf[0]];
    var i := 0;
    while i < repetitions
      invariant 0 <= i <= RangeLength(repetitions)
      invariant extended == [cf[0]] + Repeat(cf[1..], i)
    {
      extended := extended + cf[1..];
      i := i + 1;
    }
  }

  /** Element i * |block| + j of k copies is block[j]. */
  lemma {:induction false} RepeatAt(block: seq<real>, k: nat, i: nat, j: nat)
    requires i < k && j < |block|
    ensures i * |block| + j < |Repeat(block, k)|
    ensures Repeat(block, k)[i * |block| + j] == block[j]
  {
    var front := Repeat(block, k - 1);
    if i < k - 1 {
      RepeatAt(block, k - 1, i, j);
    } else {
      assert i * |block| == |front|;
    }
  }

  /** Element 1 + i * (n - 1) + j of the extension is CF_(1+j). */
  lemma ExtendedCashflowsAt(cf: seq<real>, lcm: int, i: nat, j: nat)
    requires |cf| >= 2
    requires i < RangeLength(Repetitions(cf, lcm)) && j < |cf| - 1
    ensures 1 + i * (|cf| - 1) + j < |ExtendedCashflows(cf, lcm)|
    ensures ExtendedCashflows(cf, lcm)[1 + i * (|cf| - 1) + j] == cf[1 + j]
  {
    RepeatAt(cf[1..], RangeLength(Repetitions(cf, lcm)), i, j);
  }

  /** Every position after 0 holds a later flow, cycling with period n - 1:
      the year-0 outlay is never repeated. */
  lemma ExtendedCashflowsCycle(cf: seq<real>, lcm: int)
    requires |cf| >= 2
    ensures forall m :: 1 <= m < |ExtendedCashflows(cf, lcm)| ==>
      ExtendedCashflows(cf, lcm)[m] == cf[1 + (m - 1) % (|cf| - 1)]
  {
    var ext, len, k := ExtendedCashflows(cf, lcm), |cf| - 1, RangeLength(Repetitions(cf, lcm));
    assert |ext| == 1 + k * len;
    forall m | 1 <= m < |ext|
      ensures ext[m] == cf[1 + (m - 1) % len]
    {
      var i, j := (m - 1) / len, (m - 1) % len;
      QuotientBelow(m - 1, len, k);
      ExtendedCashflowsAt(cf, lcm, i, j);
    }
  }

  /** A position below k * len lies in copy x / len < k, at offset x % len. */
  lemma QuotientBelow(x: nat, len: nat, k: nat)
    requires len > 0 && x < k * len
    ensures x / len < k && x % len < len
    ensures (x / len) * len + x % len == x
  {
    var i := x / len;
    assert i * len <= x;
  }

  /** A horizon of exactly one life returns the input unchanged. */
  lemma ExtendedCashflowsOneLife(cf: seq<real>)
    requires |cf| >= 2
    ensures ExtendedCashflows(cf, |cf| - 1) == cf
  {
    assert Repetitions(cf, |cf| - 1) == 1;
    assert Repeat(cf[1..], 1) == cf[1..];
  }

  /** ([-100, 50, 50], 6) is extended to seven flows. */
  lemma ExtendedCashflowsExample()
    ensures ExtendedCashflows([-100.0, 50.0, 50.0], 6) == [-100.0, 50.0, 50.0, 50.0, 50.0, 50.0, 50.0]
  {
    var b := [50.0, 50.0];
    assert [-100.0, 50.0, 50.0][1..] == b;
    assert Repetitions([-100.0, 50.0, 50.0], 6) == 3;
    assert Repeat(b, 1) == b;
    assert Repeat(b, 2) == b + b;
    assert Repeat(b, 3) == b + b + b;
  }

  // ---------------------------------------------------------------------
  // calculate_EAA

  /** calculate_EAA: the NPV times the annuity factor, which is the rate over
      one minus the n-year discount factor.
      The preconditions are exactly where Python does not divide by zero. */
  function CalculateEaa(npv: real, rate: real, n: nat): real
    requires 1.0 + rate != 0.0 && Pow(1.0 + rate, n) != 1.0
  {
    var p := Pow(1.0 + rate, n);
    var annuityFactor := rate / (1.0 - 1.0 / p);
    npv * annuityFactor
  }

  /** The EAA is defined only for r != 0 and n >= 1, and always for r > 0, n >= 1. */
  lemma EaaDomain(rate: real, n: nat)
    ensures 1.0 + rate != 0.0 && Pow(1.0 + rate, n) != 1.0 ==> rate != 0.0 && n >= 1
    ensures rate > 0.0 && n >= 1 ==> 1.0 + rate != 0.0 && Pow(1.0 + rate, n) != 1.0
  {
    PowOne(n);
    if rate > 0.0 && n >= 1 {
      PowAboveOne(1.0 + rate, n);
    }
  }

  /** For a positive rate the annuity factor is positive, so the EAA has the sign of the NPV. */
  lemma EaaHasSignOfNpv(npv: real, rate: real, n: nat)
    requires rate > 0.0 && n >= 1
    ensures 1.0 + rate != 0.0 && Pow(1.0 + rate, n) != 1.0
    ensures CalculateEaa(npv, rate, n) > 0.0 <==> npv > 0.0
    ensures CalculateEaa(npv, rate, n) < 0.0 <==> npv < 0.0
    ensures CalculateEaa(npv, rate, n) == 0.0 <==> npv == 0.0
  {
    var p := Pow(1.0 + rate, n);
    PowAboveOne(1.0 + rate, n);
    assert 0.0 < 1.0 / p < 1.0;
    var factor := rate / (1.0 - 1.0 / p);
    assert factor > 0.0;
    assert CalculateEaa(npv, rate, n) == npv * factor;
  }

  /** Over one year the EAA is the NPV compounded once. */
  lemma EaaOneYear(npv: real, rate: real)
    requires rate != 0.0 && 1.0 + rate != 0.0
    ensures Pow(1.0 + rate, 1) != 1.0
    ensures CalculateEaa(npv, rate, 1) == npv * (1.0 + rate)
  {
    assert Pow(1.0 + rate, 1) == 1.0 + rate;
    OneYearFactor(rate);
  }

  /** r / (1 - 1 / (1 + r)) == 1 + r. */
  lemma OneYearFactor(rate: real)
    requires rate != 0.0 && 1.0 + rate != 0.0
    ensures rate / (1.0 - 1.0 / (1.0 + rate)) == 1.0 + rate
  {
    var x := 1.0 + rate;
    var g := 1.0 - 1.0 / x;
    assert g * x == rate by {
      assert (1.0 / x) * x == 1.0;
    }
    QuotientOfProduct(rate, g, x);
  }

  /** Present value of 1 paid at the end of each of years 1..n. */
  function AnnuityPresentValue(rate: real, n: nat): real
    requires 1.0 + rate != 0.0
  {
    if n == 0 then 0.0 else AnnuityPresentValue(rate, n - 1) + 1.0 / Pow(1.0 + rate, n)
  }

  /** One step of the geometric series, as plain field arithmetic. */
  lemma GeometricStep(rate: real, prev: real, p: real)
    requires 1.0 + rate != 0.0 && p != 0.0
    requires rate * prev == 1.0 - 1.0 / p
    ensures rate * (prev + 1.0 / ((1.0 + rate) * p)) == 1.0 - 1.0 / ((1.0 + rate) * p)
  {
    var x := 1.0 + rate;
    assert 1.0 / p == x / (x * p);
    calc {
      rate * (prev + 1.0 / (x * p));
      rate * prev + rate / (x * p);
      1.0 - x / (x * p) + rate / (x * p);
      1.0 - (x - rate) / (x * p);
      1.0 - 1.0 / (x * p);
    }
  }

  /** Geometric series: r * sum_{t=1..n} (1 + r) ** -t == 1 - (1 + r) ** -n. */
  lemma {:induction false} AnnuityClosedForm(rate: real, n: nat)
    requires 1.0 + rate != 0.0
    ensures rate * AnnuityPresentValue(rate, n) == 1.0 - 1.0 / Pow(1.0 + rate, n)
  {
    if n > 0 {
      AnnuityClosedForm(rate, n - 1);
      GeometricStep(rate, AnnuityPresentValue(rate, n - 1), Pow(1.0 + rate, n - 1));
    }
  }

  /** The flows of a level annuity: nothing in year 0, then payment in years 1..n. */
  function AnnuityCashFlows(payment: real, n: nat): (cf: seq<real>)
    ensures |cf| == n + 1 && cf[0] == 0.0
    ensures forall t :: 1 <= t <= n ==> cf[t] == payment
  {
    [0.0] + seq(n, _ => payment)
  }

  /** The discount weights 1 / (1 + r) ** t of years t = 1..n. */
  function AnnuityWeights(rate: real, n: nat): (w: seq<real>)
    requires 1.0 + rate != 0.0
    ensures |w| == n
  {
    seq(n, t requires 0 <= t < n => 1.0 / Pow(1.0 + rate, t + 1))
  }

  /** The annuity's present value is the sum of its discount weights. */
  lemma {:induction false} AnnuityPresentValueIsSum(rate: real, n: nat)
    requires 1.0 + rate != 0.0
    ensures AnnuityPresentValue(rate, n) == Sum(AnnuityWeights(rate, n))
  {
    if n > 0 {
      var w := AnnuityWeights(rate, n);
      AnnuityPresentValueIsSum(rate, n - 1);
      assert w[..n - 1] == AnnuityWeights(rate, n - 1);
      SumLast(w);
    }
  }

  /** a / p == a * (1 / p). */
  lemma DivAsProduct(a: real, p: real)
    requires p != 0.0
    ensures a / p == a * (1.0 / p)
  {
  }

  /** Each discounted annuity payment is the payment times its weight, so
      the discounted inflows add up to payment * AnnuityPresentValue. */
  lemma AnnuityInflowsSum(payment: real, rate: real, n: nat)
    requires 1.0 + rate != 0.0
    ensures Sum(DiscountedInflows(AnnuityCashFlows(payment, n), rate)) == payment * AnnuityPresentValue(rate, n)
  {
    AnnuityInflowsWeighted(payment, rate, n);
    AnnuityPresentValueIsSum(rate, n);
  }

  /** The discounted payments add up to the payment times the summed weights. */
  lemma AnnuityInflowsWeighted(payment: real, rate: real, n: nat)
    requires 1.0 + rate != 0.0
    ensures Sum(DiscountedInflows(AnnuityCashFlows(payment, n), rate)) == payment * Sum(AnnuityWeights(rate, n))
  {
    AnnuityInflowsScaled(payment, rate, n);
    SumScaled(DiscountedInflows(AnnuityCashFlows(payment, n), rate), AnnuityWeights(rate, n), payment);
  }

  /** Each discounted annuity payment is the payment times its weight. */
  lemma AnnuityInflowsScaled(payment: real, rate: real, n: nat)
    requires 1.0 + rate != 0.0
    ensures ScaledBy(DiscountedInflows(AnnuityCashFlows(payment, n), rate), AnnuityWeights(rate, n), payment)
  {
    var d, w := DiscountedInflows(AnnuityCashFlows(payment, n), rate), AnnuityWeights(rate, n);
    forall t | 0 <= t < n
      ensures d[t] == payment * w[t]
    {
      DivAsProduct(payment, Pow(1.0 + rate, t + 1));
    }
  }

  /** The NPV of a level annuity is the payment times the annuity's present value. */
  lemma AnnuityNpv(payment: real, rate: real, n: nat)
    requires 1.0 + rate != 0.0
    ensures NpvValue(AnnuityCashFlows(payment, n), rate) == payment * AnnuityPresentValue(rate, n)
  {
    AnnuityInflowsSum(payment, rate, n);
  }

  /** The annuity factor is the reciprocal of the annuity's present value. */
  lemma AnnuityFactorIsReciprocal(rate: real, n: nat)
    requires 1.0 + rate != 0.0 && Pow(1.0 + rate, n) != 1.0
    ensures (rate / (1.0 - 1.0 / Pow(1.0 + rate, n))) * AnnuityPresentValue(rate, n) == 1.0
  {
    var p := Pow(1.0 + rate, n);
    AnnuityClosedForm(rate, n);
    ComplementNonZero(p);
    RatioTimes(rate, AnnuityPresentValue(rate, n), 1.0 - 1.0 / p);
  }

  /** The EAA is the level payment whose n-year annuity has the given NPV:
      discounting EAA paid in years 1..n at the same rate gives back npv. */
  lemma EaaAnnuityHasSameNpv(npv: real, rate: real, n: nat)
    requires 1.0 + rate != 0.0 && Pow(1.0 + rate, n) != 1.0
    ensures NpvValue(AnnuityCashFlows(CalculateEaa(npv, rate, n), n), rate) == npv
  {
    var f := rate / (1.0 - 1.0 / Pow(1.0 + rate, n));
    assert CalculateEaa(npv, rate, n) == npv * f;
    AnnuityNpv(CalculateEaa(npv, rate, n), rate, n);
    AnnuityFactorIsReciprocal(rate, n);
    ScaleByUnit(npv, f, AnnuityPresentValue(rate, n));
  }

  // ---------------------------------------------------------------------
  // profitability_index

  /** profitability_index: the present value of the flows after year 0, per
      unit of the outlay -CF_0.
      numpy's inf/nan for CF_0 == 0 is excluded by the precondition. */
  function ProfitabilityIndex(cf: seq<real>, rate: real): real
    requires |cf| >= 1 && cf[0] != 0.0 && Discountable(cf, rate)
  {
    var pvCashInflows := Sum(PresentValues(cf, rate)) - cf[0];
    pvCashInflows / -cf[0]
  }

  /** The year-0 term is added and then taken away, so PI is the present
      value of the later flows per unit of -CF_0, and equals 1 + NPV / -CF_0.
      For an outlay (CF_0 < 0), PI > 1 exactly when NPV > 0. */
  lemma ProfitabilityIndexMatchesNpv(cf: seq<real>, rate: real)
    requires |cf| >= 1 && cf[0] != 0.0 && Discountable(cf, rate)
    ensures ProfitabilityIndex(cf, rate) == Sum(DiscountedInflows(cf, rate)) / -cf[0]
    ensures ProfitabilityIndex(cf, rate) == 1.0 + NpvValue(cf, rate) / -cf[0]
    ensures cf[0] < 0.0 ==> (ProfitabilityIndex(cf, rate) > 1.0 <==> NpvValue(cf, rate) > 0.0)
    ensures cf[0] < 0.0 ==> (ProfitabilityIndex(cf, rate) == 1.0 <==> NpvValue(cf, rate) == 0.0)
  {
    IrrObjectiveIsNpv(cf, rate);
    ShiftedRatio(NpvValue(cf, rate), -cf[0]);
  }

  /** (npv + c) / c == 1 + npv / c, and for c > 0 it exceeds 1 exactly when npv > 0. */
  lemma ShiftedRatio(npv: real, c: real)
    requires c != 0.0
    ensures (npv + c) / c == 1.0 + npv / c
    ensures c > 0.0 ==> ((npv + c) / c > 1.0 <==> npv > 0.0)
    ensures c > 0.0 ==> ((npv + c) / c == 1.0 <==> npv == 0.0)
  {
    assert (npv + c) / c == npv / c + c / c;
    assert c / c == 1.0;
    if c > 0.0 {
      assert npv / c > 0.0 <==> npv > 0.0;
    }
  }
}
