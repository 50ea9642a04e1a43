/** Exact real arithmetic shared by the appraisal engine, the cash-flow
    builder and the charts: integer powers and left-to-right sums. Python
    floats are modelled as exact reals. */
module RealMath {

  /** x ** n for a natural exponent. */
  function Pow(x: real, n: nat): (p: real)
    ensures x != 0.0 || n == 0 ==> p != 0.0
    ensures x > 0.0 ==> p > 0.0
    ensures x >= 1.0 ==> p >= 1.0
  {
    if n == 0 then 1.0 else x * Pow(x, n - 1)
  }

  lemma {:induction false} PowOne(n: nat)
    ensures Pow(1.0, n) == 1.0
  {
    if n > 0 {
      PowOne(n - 1);
    }
  }

  /** A base above one raises every positive power above one. */
  lemma {:induction false} PowAboveOne(x: real, n: nat)
    requires x > 1.0 && n >= 1
    ensures Pow(x, n) > 1.0
  {
    if n > 1 {
      PowAboveOne(x, n - 1);
      assert x * Pow(x, n - 1) > 1.0 * Pow(x, n - 1);
    }
  }

  /** Raising to a positive power is strictly increasing on positive bases. */
  lemma {:induction false} PowStrictlyIncreasing(x: real, y: real, n: nat)
    requires 0.0 < x < y && n >= 1
    ensures Pow(x, n) < Pow(y, n)
  {
    if n == 1 {
      assert Pow(x, 1) == x && Pow(y, 1) == y;
    } else {
      PowStrictlyIncreasing(x, y, n - 1);
      var px, py := Pow(x, n - 1), Pow(y, n - 1);
      assert x * px < y * px;
      assert y * px < y * py;
      calc {
        Pow(x, n);
        x * px;
      <
        y * px;
      <
        y * py;
        Pow(y, n);
      }
    }
  }

  // Field steps kept in lemmas of their own, so that each is proved in a
  // context holding only its own hypotheses.

  /** Dividing a product by one of its non-zero factors leaves the other. */
  lemma QuotientOfProduct(p: real, g: real, x: real)
    requires g != 0.0 && g * x == p
    ensures p / g == x
  {
  }

  /** If rate * a == g != 0, then (rate / g) * a == 1. */
  lemma RatioTimes(rate: real, a: real, g: real)
    requires g != 0.0 && rate * a == g
    ensures (rate / g) * a == 1.0
  {
    assert (rate / g) * a == (rate * a) / g;
  }

  /** 1 - 1 / p vanishes only at p == 1. */
  lemma ComplementNonZero(p: real)
    requires p != 0.0 && p != 1.0
    ensures 1.0 - 1.0 / p != 0.0
  {
    assert (1.0 / p) * p == 1.0;
  }

  /** Scaling by f and then by a, where f * a == 1, changes nothing. */
  lemma ScaleByUnit(v: real, f: real, a: real)
    requires f * a == 1.0
    ensures v * f * a == v
  {
    assert v * f * a == v * (f * a);
  }

  /** Python's sum(...) of a list, accumulated from the left. */
  function Sum(s: seq<real>): real
    decreases |s|
  {
    if |s| == 0 then 0.0 else Sum(s[..|s| - 1]) + s[|s| - 1]
  }

  /** The last element can be split off a non-empty sum. */
  lemma SumLast(s: seq<real>)
    requires |s| > 0
    ensures Sum(s) == Sum(s[..|s| - 1]) + s[|s| - 1]
  {
  }

  lemma SumAppend(s: seq<real>, x: real)
    ensures Sum(s + [x]) == Sum(s) + x
  {
    assert (s + [x])[..|s|] == s;
  }

  lemma {:induction false} SumConcat(a: seq<real>, b: seq<real>)
    ensures Sum(a + b) == Sum(a) + Sum(b)
    decreases |b|
  {
    if |b| > 0 {
      var b' := b[..|b| - 1];
      assert a + b == (a + b') + [b[|b| - 1]];
      SumAppend(a + b', b[|b| - 1]);
      SumConcat(a, b');
    } else {
      assert a + b == a;
    }
  }

  /** The first element can be split off a non-empty sum. */
  lemma SumFirst(s: seq<real>)
    requires |s| > 0
    ensures Sum(s) == s[0] + Sum(s[1..])
  {
    assert s == [s[0]] + s[1..];
    SumConcat([s[0]], s[1..]);
  }

  /** Extending a prefix by one element adds that element to its sum. */
  lemma SumPrefixStep(s: seq<real>, i: nat)
    requires i < |s|
    ensures Sum(s[..i + 1]) == Sum(s[..i]) + s[i]
  {
    assert s[..i + 1] == s[..i] + [s[i]];
    SumAppend(s[..i], s[i]);
  }

  /** Sums are monotone in each element. */
  lemma {:induction false} SumMonotone(a: seq<real>, b: seq<real>)
    requires |a| == |b|
    requires forall i :: 0 <= i < |a| ==> a[i] <= b[i]
    ensures Sum(a) <= Sum(b)
    decreases |a|
  {
    if |a| > 0 {
      SumMonotone(a[..|a| - 1], b[..|b| - 1]);
    }
  }

  /** Sums are strictly monotone once one element is strictly smaller. */
  lemma {:induction false} SumStrictlyMonotone(a: seq<real>, b: seq<real>, k: nat)
    requires |a| == |b| && k < |a|
    requires forall i :: 0 <= i < |a| ==> a[i] <= b[i]
    requires a[k] < b[k]
    ensures Sum(a) < Sum(b)
    decreases |a|
  {
    var n := |a| - 1;
    if k == n {
      SumMonotone(a[..n], b[..n]);
    } else {
      SumStrictlyMonotone(a[..n], b[..n], k);
    }
  }

  /** s is w scaled element-wise by k. */
  predicate ScaledBy(s: seq<real>, w: seq<real>, k: real) {
    |s| == |w| && forall i :: 0 <= i < |s| ==> s[i] == k * w[i]
  }

  /** A sequence scaled element-wise by k sums to k times the sum. */
  lemma {:induction false} SumScaled(s: seq<real>, w: seq<real>, k: real)
    requires ScaledBy(s, w, k)
    ensures Sum(s) == k * Sum(w)
    decreases |s|
  {
    if |s| > 0 {
      var n := |s| - 1;
      assert ScaledBy(s[..n], w[..n], k);
      SumScaled(s[..n], w[..n], k);
      assert k * Sum(w[..n]) + k * w[n] == k * (Sum(w[..n]) + w[n]);
    }
  }

  /** n copies of c add up to n * c. */
  lemma {:induction false} SumConstant(s: seq<real>, c: real)
    requires forall i :: 0 <= i < |s| ==> s[i] == c
    ensures Sum(s) == |s| as real * c
    decreases |s|
  {
    if |s| > 0 {
      SumConstant(s[..|s| - 1], c);
    }
  }
}
