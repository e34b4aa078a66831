/**
 The threshold rule of a check: a bound raises an alert when more than 66% of
 the window's entries lie strictly beyond it. pandas computes this as
 `mask.sum() / mask.count() > 0.66`; here the fraction is compared exactly,
 as 100 * k > 66 * n.
 */
module Thresholds {
  import opened Wrappers
  import opened Readings

  /** `(interval < bound).sum()`: entries strictly below the bound. */
  function CountBelow(w: Series, bound: int): (k: nat)
    ensures k <= |w|
  {
    if w == [] then 0 else (if w[0].milli < bound then 1 else 0) + CountBelow(w[1..], bound)
  }

  /** `(interval > bound).sum()`: entries strictly above the bound. */
  function CountAbove(w: Series, bound: int): (k: nat)
    ensures k <= |w|
  {
    if w == [] then 0 else (if w[0].milli > bound then 1 else 0) + CountAbove(w[1..], bound)
  }

  /** `k / n > 0.66` for n entries of which k breach. */
  predicate ExceedsFraction(k: nat, n: nat) {
    100 * k > 66 * n
  }

  /** The low alert of a check: the minimum is set and more than 66% of the window lies below it. */
  function LowBreach(w: Series, minValue: Option<int>): (fires: bool)
    ensures fires ==> minValue.Some? && w != [] && CountBelow(w, minValue.value) > 0
  {
    minValue.Some? && ExceedsFraction(CountBelow(w, minValue.value), |w|)
  }

  /** The high alert of a check: the maximum is set and more than 66% of the window lies above it. */
  function HighBreach(w: Series, maxValue: Option<int>): (fires: bool)
    ensures fires ==> maxValue.Some? && w != [] && CountAbove(w, maxValue.value) > 0
  {
    maxValue.Some? && ExceedsFraction(CountAbove(w, maxValue.value), |w|)
  }

  function SumMilli(w: Series): int {
    if w == [] then 0 else w[0].milli + SumMilli(w[1..])
  }

  /** Milli-degrees as degrees Celsius. */
  function Degrees(milli: int): real {
    milli as real / 1000.0
  }

  /** `interval.mean()` in degrees Celsius, computed exactly. */
  function Mean(w: Series): real
    requires w != []
  {
    SumMilli(w) as real / (1000.0 * |w| as real)
  }

  lemma {:induction false} CountConcat(x: Series, y: Series, bound: int)
    ensures CountBelow(x + y, bound) == CountBelow(x, bound) + CountBelow(y, bound)
    ensures CountAbove(x + y, bound) == CountAbove(x, bound) + CountAbove(y, bound)
  {
    if x == [] {
      assert x + y == y;
    } else {
      assert (x + y)[1..] == x[1..] + y;
      CountConcat(x[1..], y, bound);
    }
  }

  /** Every entry is below the bound exactly when all of them are counted. */
  lemma {:induction false} CountBelowAll(w: Series, bound: int)
    ensures CountBelow(w, bound) == |w| <==> forall e :: e in w ==> e.milli < bound
  {
    if w != [] {
      CountBelowAll(w[1..], bound);
      assert w[0] in w;
      assert forall e :: e in w ==> e == w[0] || e in w[1..];
    }
  }

  /** No entry is below the bound exactly when none is counted. */
  lemma {:induction false} CountBelowNone(w: Series, bound: int)
    ensures CountBelow(w, bound) == 0 <==> forall e :: e in w ==> e.milli >= bound
  {
    if w != [] {
      CountBelowNone(w[1..], bound);
      assert w[0] in w;
      assert forall e :: e in w ==> e == w[0] || e in w[1..];
    }
  }

  /** No entry is above the bound exactly when none is counted. */
  lemma {:induction false} CountAboveNone(w: Series, bound: int)
    ensures CountAbove(w, bound) == 0 <==> forall e :: e in w ==> e.milli <= bound
  {
    if w != [] {
      CountAboveNone(w[1..], bound);
      assert w[0] in w;
      assert forall e :: e in w ==> e == w[0] || e in w[1..];
    }
  }

  /**
   A window made of a part entirely below the minimum and a part entirely at or
   above it raises the low alert exactly when the first part is more than 66% of it.
   */
  lemma FractionOfWindow(a: Series, b: Series, m: int)
    requires forall e :: e in a ==> e.milli < m
    requires forall e :: e in b ==> e.milli >= m
    ensures LowBreach(a + b, Some(m)) <==> 100 * |a| > 66 * (|a| + |b|)
  {
    CountConcat(a, b, m);
    CountBelowAll(a, m);
    CountBelowNone(b, m);
  }

  /** 33 of 50 entries below the minimum is a fraction of exactly 0.66: no alert. */
  lemma ExactThresholdDoesNotFire(a: Series, b: Series, m: int)
    requires forall e :: e in a ==> e.milli < m
    requires forall e :: e in b ==> e.milli >= m
    requires |a| == 33 && |b| == 17
    ensures !LowBreach(a + b, Some(m))
  {
    FractionOfWindow(a, b, m);
  }

  /** 34 of 50 entries below the minimum is a fraction of 0.68: the alert fires. */
  lemma AboveThresholdFires(a: Series, b: Series, m: int)
    requires forall e :: e in a ==> e.milli < m
    requires forall e :: e in b ==> e.milli >= m
    requires |a| == 34 && |b| == 16
    ensures LowBreach(a + b, Some(m))
  {
    FractionOfWindow(a, b, m);
  }

  lemma {:induction false} CountMonotone(w: Series, b1: int, b2: int)
    requires b1 <= b2
    ensures CountBelow(w, b1) <= CountBelow(w, b2)
    ensures CountAbove(w, b2) <= CountAbove(w, b1)
  {
    if w != [] {
      CountMonotone(w[1..], b1, b2);
    }
  }

  /** Raising the minimum can only add low alerts; lowering the maximum can only add high alerts. */
  lemma BreachMonotone(w: Series, b1: int, b2: int)
    requires b1 <= b2
    ensures LowBreach(w, Some(b1)) ==> LowBreach(w, Some(b2))
    ensures HighBreach(w, Some(b2)) ==> HighBreach(w, Some(b1))
  {
    CountMonotone(w, b1, b2);
  }

  lemma {:induction false} BelowAndAboveDisjoint(w: Series, lo: int, hi: int)
    requires lo <= hi
    ensures CountBelow(w, lo) + CountAbove(w, hi) <= |w|
  {
    if w != [] {
      BelowAndAboveDisjoint(w[1..], lo, hi);
    }
  }

  /** With the minimum not above the maximum, one check never raises both alerts. */
  lemma NoDoubleAlert(w: Series, minValue: int, maxValue: int)
    requires minValue <= maxValue
    ensures !(LowBreach(w, Some(minValue)) && HighBreach(w, Some(maxValue)))
  {
    BelowAndAboveDisjoint(w, minValue, maxValue);
  }

  lemma {:induction false} SumOfConstant(w: Series, v: int)
    requires forall e :: e in w ==> e.milli == v
    ensures SumMilli(w) == |w| * v
  {
    if w != [] {
      assert w[0] in w;
      assert forall e :: e in w[1..] ==> e in w;
      SumOfConstant(w[1..], v);
      assert |w| * v == v + (|w| - 1) * v;
    }
  }

  /** A window whose entries all read v has mean v. */
  lemma MeanOfConstant(w: Series, v: int)
    requires w != []
    requires forall e :: e in w ==> e.milli == v
    ensures Mean(w) == Degrees(v)
  {
    SumOfConstant(w, v);
    var n := |w| as real;
    assert SumMilli(w) as real == n * v as real;
    assert (n * v as real) / (1000.0 * n) == v as real / 1000.0;
  }

  lemma {:induction false} SumBetween(w: Series, lo: int, hi: int)
    requires forall i :: 0 <= i < |w| ==> lo <= w[i].milli <= hi
    ensures |w| * lo <= SumMilli(w) <= |w| * hi
  {
    if w != [] {
      var rest := w[1..];
      assert forall i :: 0 <= i < |rest| ==> rest[i] == w[i + 1];
      SumBetween(rest, lo, hi);
      assert SumMilli(w) == w[0].milli + SumMilli(rest);
      MulStep(|rest|, lo);
      MulStep(|rest|, hi);
    }
  }

  lemma MulStep(m: nat, x: int)
    ensures (m + 1) * x == m * x + x
  {
  }

  /** The mean lies between any lower and upper bound of the window's readings. */
  lemma MeanBetween(w: Series, lo: int, hi: int)
    requires w != []
    requires forall i :: 0 <= i < |w| ==> lo <= w[i].milli <= hi
    ensures Degrees(lo) <= Mean(w) <= Degrees(hi)
  {
    SumBetween(w, lo, hi);
    var n := |w| as real;
    var sum := SumMilli(w) as real;
    assert n * lo as real <= sum <= n * hi as real;
    assert Mean(w) == sum / (1000.0 * n);
    assert (n * lo as real) / (1000.0 * n) == lo as real / 1000.0;
    assert (n * hi as real) / (1000.0 * n) == hi as real / 1000.0;
  }
}
