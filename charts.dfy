/** The numeric parts of src/util/charts.py: the discounted cash flows and
    the values and labels of the waterfall chart, and the cumulative sums
    and payback search of the payback plot. Figure objects are not modelled. */
module Charts {
  import opened Wrappers
  import opened RealMath
  import opened Appraisal

  /** compute_discounted_cash_flow: CF_0 as is, then each later flow
      discounted by its year, appended one by one. */
  method ComputeDiscountedCashFlow(cf: seq<real>, rate: real) returns (dcf: seq<real>)
    requires |cf| >= 1 && Discountable(cf, rate)
    ensures |dcf| == |cf| && dcf[0] == cf[0]
    ensures forall t :: 1 <= t < |cf| ==> dcf[t] == cf[t] / Pow(1.0 + rate, t)
    ensures dcf == PresentValues(cf, rate)
    ensures rate == 0.0 ==> dcf == cf
  {
    dcf := [cf[0]];
    var i := 0;
    while i < |cf| - 1
      invariant 0 <= i <= |cf| - 1
      invariant |dcf| == i + 1 && dcf[0] == cf[0]
      invariant forall t :: 1 <= t < |dcf| ==> dcf[t] == cf[t] / Pow(1.0 + rate, t)
    {
      var discounted := cf[i + 1] / Pow(1.0 + rate, i + 1);
      dcf := dcf + [discounted];
      i := i + 1;
    }
    if rate == 0.0 {
      forall t | 1 <= t < |cf|
        ensures dcf[t] == cf[t]
      {
        PowOne(t);
      }
    }
  }

  // ---------------------------------------------------------------------
  // Bar labels: "Year {}".format(i) writes i in decimal.

  function DigitChar(d: nat): char
    requires d < 10
  {
    (48 + d) as char
  }

  function DigitValue(c: char): int {
    c as int - 48
  }

  /** The decimal numeral of n, as str(n) writes it. */
  function NatToString(n: nat): (s: string)
    ensures |s| >= 1
  {
    if n < 10 then [DigitChar(n)] else NatToString(n / 10) + [DigitChar(n % 10)]
  }

  /** Reads a decimal numeral back. */
  function ParseDecimal(s: string): int {
    if |s| == 0 then 0 else ParseDecimal(s[..|s| - 1]) * 10 + DigitValue(s[|s| - 1])
  }

  /** Reading the numeral back gives the number: no two years share a label. */
  lemma {:induction false} NatToStringRoundTrip(n: nat)
    ensures ParseDecimal(NatToString(n)) == n
  {
    var s := NatToString(n);
    if n < 10 {
      assert s[..0] == [];
    } else {
      NatToStringRoundTrip(n / 10);
      assert s[..|s| - 1] == NatToString(n / 10);
    }
  }

  /** "Before investment", "Year 0" .. "Year n-1", "End of project". */
  function WaterfallLabels(n: nat): (labels: seq<string>)
    ensures |labels| == n + 2
    ensures labels[0] == "Before investment" && labels[n + 1] == "End of project"
  {
    ["Before investment"] + seq(n, i requires 0 <= i < n => "Year " + NatToString(i)) + ["End of project"]
  }

  /** Two different years get different labels. */
  lemma YearLabelsDiffer(a: nat, b: nat)
    requires a != b
    ensures "Year " + NatToString(a) != "Year " + NatToString(b)
  {
    NatToStringRoundTrip(a);
    NatToStringRoundTrip(b);
    assert ("Year " + NatToString(a))[5..] == NatToString(a);
    assert ("Year " + NatToString(b))[5..] == NatToString(b);
  }

  /** The first letter tells the three kinds of bar apart. */
  lemma WaterfallLabelInitials(n: nat)
    ensures WaterfallLabels(n)[0][0] == 'B'
    ensures forall i :: 1 <= i <= n ==> WaterfallLabels(n)[i][0] == 'Y'
    ensures WaterfallLabels(n)[n + 1][0] == 'E'
  {
  }

  /** The bar labels are pairwise distinct. */
  lemma WaterfallLabelsDistinct(n: nat)
    ensures forall i, j :: 0 <= i < j < |WaterfallLabels(n)| ==> WaterfallLabels(n)[i] != WaterfallLabels(n)[j]
  {
    var labels := WaterfallLabels(n);
    WaterfallLabelInitials(n);
    forall i, j | 0 <= i < j < |labels|
      ensures labels[i] != labels[j]
    {
      if 1 <= i && j <= n {
        YearLabelsDiffer(i - 1, j - 1);
        assert labels[i] == "Year " + NatToString(i - 1);
        assert labels[j] == "Year " + NatToString(j - 1);
      } else {
        assert labels[i][0] != labels[j][0];
      }
    }
  }

  /** The numbers and labels create_waterfall_chart plots: a 0 start bar,
      one bar per discounted flow, and a total bar holding their sum,
      which is the NPV that compute_NPV returns for the same rate. */
  method CreateWaterfallChart(cf: seq<real>, rate: real) returns (values: seq<real>, labels: seq<string>)
    requires |cf| >= 1 && Discountable(cf, rate)
    ensures |values| == |cf| + 2 && |labels| == |values|
    ensures values[0] == 0.0
    ensures values[1..|cf| + 1] == PresentValues(cf, rate)
    ensures values[|cf| + 1] == NpvValue(cf, rate)
    ensures 0.0 <= rate <= 1.0 ==> ComputeNpv(cf, rate) == Success(values[|cf| + 1])
    ensures labels == WaterfallLabels(|cf|)
    ensures labels[0] == "Before investment" && labels[|cf| + 1] == "End of project"
    ensures forall i :: 1 <= i <= |cf| ==> labels[i] == "Year " + NatToString(i - 1)
  {
    var discounted := ComputeDiscountedCashFlow(cf, rate);
    var startValue := 0.0;
    values := [startValue] + discounted;
    var endValue := Sum(discounted);
    values := values + [endValue];
    labels := WaterfallLabels(|cf|);
    IrrObjectiveIsNpv(cf, rate);
    assert values[1..|cf| + 1] == discounted;
  }

  // ---------------------------------------------------------------------
  // plot_payback_period

  /** The cumulative cash flows: entry i sums the flows of years 0..i. */
  function Cumulative(cf: seq<real>): (c: seq<real>)
    ensures |c| == |cf|
  {
    seq(|cf|, i requires 0 <= i < |cf| => Sum(cf[..i + 1]))
  }

  /** The cumulative list is a running total ending in the total sum. */
  lemma CumulativeIsRunningTotal(cf: seq<real>)
    requires |cf| >= 1
    ensures |Cumulative(cf)| == |cf|
    ensures Cumulative(cf)[0] == cf[0]
    ensures forall i :: 1 <= i < |cf| ==> Cumulative(cf)[i] == Cumulative(cf)[i - 1] + cf[i]
    ensures Cumulative(cf)[|cf| - 1] == Sum(cf)
  {
    var c := Cumulative(cf);
    assert cf[..1] == [] + [cf[0]];
    SumAppend([], cf[0]);
    forall i | 1 <= i < |cf|
      ensures c[i] == c[i - 1] + cf[i]
    {
      SumPrefixStep(cf, i);
    }
    assert cf[..|cf|] == cf;
  }

  /** The cumulative cash flow has turned non-negative by year i. */
  predicate Recovered(cf: seq<real>, i: int) {
    0 <= i < |cf| && Sum(cf[..i + 1]) >= 0.0
  }

  function RecoveryFrom(cf: seq<real>, i: nat): (res: Option<nat>)
    ensures res.Some? ==> i <= res.value && Recovered(cf, res.value)
    ensures res.Some? ==> forall q :: i <= q < res.value ==> !Recovered(cf, q)
    ensures res.None? ==> forall q :: i <= q < |cf| ==> !Recovered(cf, q)
    decreases |cf| - i
  {
    if i >= |cf| then None
    else if Recovered(cf, i) then Some(i)
    else RecoveryFrom(cf, i + 1)
  }

  /** The index the payback plot marks: the first year whose cumulative
      cash flow is >= 0, or None if there is none. */
  function ChartPaybackIndex(cf: seq<real>): (res: Option<nat>)
    ensures res.Some? ==> Recovered(cf, res.value)
    ensures res.Some? ==> forall q :: 0 <= q < res.value ==> !Recovered(cf, q)
    ensures res.None? <==> forall q :: 0 <= q < |cf| ==> !Recovered(cf, q)
  {
    RecoveryFrom(cf, 0)
  }

  /** The numbers plot_payback_period draws: the cumulative list, and the
      payback index found by a loop that breaks at the first value >= 0. */
  method PlotPaybackPeriod(cf: seq<real>) returns (cumulative: seq<real>, payback: Option<nat>)
    ensures cumulative == Cumulative(cf)
    ensures payback == ChartPaybackIndex(cf)
    ensures payback.Some? ==> cumulative[payback.value] >= 0.0
  {
    cumulative := Cumulative(cf);
    payback := None;
    var i := 0;
    while i < |cumulative|
      invariant 0 <= i <= |cumulative|
      invariant forall q :: 0 <= q < i ==> !Recovered(cf, q)
      invariant payback == None
    {
      if cumulative[i] >= 0.0 {
        assert Recovered(cf, i);
        var first := ChartPaybackIndex(cf);
        assert first.Some? && !(first.value < i) && !(i < first.value);
        payback := Some(i);
        break;
      }
      i := i + 1;
    }
  }

  /** When year 0 is an outlay, the chart's payback index is exactly
      compute_payback_period's answer; when it is not, the chart marks
      year 0, which compute_payback_period never returns. */
  lemma ChartPaybackAgreesWithEngine(cf: seq<real>)
    requires |cf| >= 1
    ensures cf[0] < 0.0 ==> ChartPaybackIndex(cf) == PaybackPeriod(cf)
    ensures cf[0] >= 0.0 ==> ChartPaybackIndex(cf) == Some(0) && PaybackPeriod(cf) != Some(0)
  {
    assert cf[..1] == [] + [cf[0]];
    SumAppend([], cf[0]);
    if cf[0] < 0.0 {
      forall i | 0 <= i < |cf|
        ensures Recovered(cf, i) <==> PaysBack(cf, i)
      {
        if i >= 1 {
          SumFirst(cf[..i + 1]);
          assert cf[..i + 1][1..] == cf[1..i + 1];
        }
      }
      var chart, engine := ChartPaybackIndex(cf), PaybackPeriod(cf);
      if chart.Some? && engine.Some? {
        assert !(chart.value < engine.value) && !(engine.value < chart.value);
      }
    } else {
      assert Recovered(cf, 0);
    }
  }
}
