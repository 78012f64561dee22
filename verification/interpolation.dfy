/** The fuel-flow interpolator: the flow at an arbitrary engine speed,
    read off the median series of the table. Queries before the first row
    or after the last row take the boundary row's median; queries inside
    the table are interpolated linearly between the two rows around them.
    The `useMedian` flag selects between two branches that compute the
    same value, so it never changes the answer. */
module Interpolation {
  import opened ChartTypes
  import opened TableSearch

  /** The point at fraction `ratio` of the way from `a` to `b`. */
  function Lerp(a: real, b: real, ratio: real): real {
    a + ratio * (b - a)
  }

  /** Medians never decrease along the table. */
  predicate MediansNondecreasing(t: seq<DataPoint>) {
    forall i, j :: 0 <= i < j < |t| ==> t[i].medianFuelFlow <= t[j].medianFuelFlow
  }

  /** A product of two non-negative reals is non-negative. */
  lemma MulNonneg(x: real, y: real)
    requires 0.0 <= x && 0.0 <= y
    ensures 0.0 <= x * y
  {
  }

  /** Dividing by a positive real keeps the order. */
  lemma DivMonotone(a: real, b: real, d: real)
    requires 0.0 < d && a <= b
    ensures a / d <= b / d
  {
  }

  /** Dividing and multiplying back by a non-zero real is the identity. */
  lemma DivMulCancel(y: real, z: real)
    requires z != 0.0
    ensures (y / z) * z == y
  {
  }

  /** A real times a non-zero `d` giving `y` is `y / d`. */
  lemma MulDivCancel(x: real, y: real, d: real)
    requires d != 0.0
    requires x * d == y
    ensures x == y / d
  {
  }

  /** Facts about the fraction of the way from `lo` to `hi` at which `x`
      lies. */
  lemma RatioFacts(lo: real, hi: real, x: real)
    requires lo < hi
    ensures var r := (x - lo) / (hi - lo);
      && (lo < x <= hi ==> 0.0 < r <= 1.0)
      && (x == hi ==> r == 1.0)
      && lo + r * (hi - lo) == x
  {
    var r := (x - lo) / (hi - lo);
    DivMulCancel(x - lo, hi - lo);
    assert (r - 1.0) * (hi - lo) == x - hi;
    if x == hi {
      MulDivCancel(1.0, hi - lo, hi - lo);
    }
    if r <= 0.0 {
      MulNonneg(-r, hi - lo);
    } else if r > 1.0 {
      MulNonneg(r - 1.0, hi - lo);
    }
  }

  /** Fraction of the way from `lo` to `hi` at which `x` lies. */
  function Ratio(lo: real, hi: real, x: real): (r: real)
    requires lo < hi
    ensures lo < x <= hi ==> 0.0 < r <= 1.0
    ensures x == hi ==> r == 1.0
    ensures lo + r * (hi - lo) == x
  {
    RatioFacts(lo, hi, x);
    (x - lo) / (hi - lo)
  }

  /** The flow the table gives at engine speed `rpm`. */
  function Interpolate(t: seq<DataPoint>, rpm: real, useMedian: bool := false): (r: real)
    ensures t == [] ==> r == 0.0
    ensures t != [] && rpm <= t[0].rpm ==> r == t[0].medianFuelFlow
    ensures t != [] && (forall j :: 0 <= j < |t| ==> t[j].rpm < rpm) ==>
      r == t[|t| - 1].medianFuelFlow
  {
    if t == [] then 0.0
    else
      var i := LowerBound(t, rpm);
      if i == 0 then
        (if useMedian then t[0].medianFuelFlow else t[0].medianFuelFlow)
      else if i == |t| then
        (if useMedian then t[i - 1].medianFuelFlow else t[i - 1].medianFuelFlow)
      else
        var p1, p2 := t[i - 1], t[i];
        var ratio := Ratio(p1.rpm, p2.rpm, rpm);
        if useMedian then
          Lerp(p1.medianFuelFlow, p2.medianFuelFlow, ratio)
        else
          var baseFuelFlow := Lerp(p1.medianFuelFlow, p2.medianFuelFlow, ratio);
          baseFuelFlow
  }

  /** The straight line through the medians of two rows, evaluated at
      `rpm`, written as a weighted average of the two medians. */
  function Segment(p1: DataPoint, p2: DataPoint, rpm: real): real
    requires p1.rpm < p2.rpm
  {
    (p1.medianFuelFlow * (p2.rpm - rpm) + p2.medianFuelFlow * (rpm - p1.rpm)) / (p2.rpm - p1.rpm)
  }

  /** The `useMedian` flag never changes the interpolated value. */
  lemma UseMedianIrrelevant(t: seq<DataPoint>, rpm: real)
    ensures Interpolate(t, rpm, true) == Interpolate(t, rpm, false)
  {
  }

  /** A point `ratio` of the way between two values lies between them. */
  lemma LerpBetween(a: real, b: real, ratio: real)
    requires 0.0 <= ratio <= 1.0
    ensures Min(a, b) <= Lerp(a, b, ratio) <= Max(a, b)
  {
    if a <= b {
      MulNonneg(ratio, b - a);
      MulNonneg(1.0 - ratio, b - a);
    } else {
      MulNonneg(ratio, a - b);
      MulNonneg(1.0 - ratio, a - b);
    }
  }

  /** Moving further along a rising segment never lowers the value. */
  lemma LerpMonotone(a: real, b: real, r1: real, r2: real)
    requires a <= b
    requires r1 <= r2
    ensures Lerp(a, b, r1) <= Lerp(a, b, r2)
  {
    MulNonneg(r2 - r1, b - a);
  }

  /** The fraction grows with the point it measures. */
  lemma RatioMonotone(lo: real, hi: real, x1: real, x2: real)
    requires lo < hi
    requires x1 <= x2
    ensures Ratio(lo, hi, x1) <= Ratio(lo, hi, x2)
  {
    DivMonotone(x1 - lo, x2 - lo, hi - lo);
  }

  /** Within one gap of the table the interpolated flow never falls as the
      engine speed rises, when the later row's median is not below the
      earlier one's. */
  lemma InterpolateMonotoneInGap(t: seq<DataPoint>, k: int, q1: real, q2: real)
    requires RpmNondecreasing(t)
    requires 0 <= k < |t| - 1
    requires t[k].medianFuelFlow <= t[k + 1].medianFuelFlow
    requires t[k].rpm < q1 <= q2 <= t[k + 1].rpm
    ensures Interpolate(t, q1) <= Interpolate(t, q2)
  {
    LowerBoundInGap(t, k, q1);
    LowerBoundInGap(t, k, q2);
    var a, b := t[k].rpm, t[k + 1].rpm;
    RatioMonotone(a, b, q1, q2);
    LerpMonotone(t[k].medianFuelFlow, t[k + 1].medianFuelFlow, Ratio(a, b, q1), Ratio(a, b, q2));
  }

  /** Walking a fraction of the way from one row's median to the next is
      the straight line through the two medians. */
  lemma LerpIsSegment(p1: DataPoint, p2: DataPoint, x: real)
    requires p1.rpm < p2.rpm
    ensures Lerp(p1.medianFuelFlow, p2.medianFuelFlow, Ratio(p1.rpm, p2.rpm, x)) == Segment(p1, p2, x)
  {
    var a, b := p1.rpm, p2.rpm;
    var m1, m2 := p1.medianFuelFlow, p2.medianFuelFlow;
    var d := b - a;
    var r := Ratio(a, b, x);
    var w := m1 * (b - x) + m2 * (x - a);
    assert r * d == x - a;
    calc {
      Lerp(m1, m2, r) * d;
      m1 * d + (r * d) * (m2 - m1);
      m1 * d + (x - a) * (m2 - m1);
      w;
    }
    MulDivCancel(Lerp(m1, m2, r), w, d);
  }

  /** Inside the table the interpolator follows the straight line between
      the two rows around the query, at a fraction in (0, 1] of the gap. */
  lemma InterpolateOnSegment(t: seq<DataPoint>, k: int, rpm: real)
    requires RpmNondecreasing(t)
    requires 0 <= k < |t| - 1
    requires t[k].rpm < rpm <= t[k + 1].rpm
    ensures Interpolate(t, rpm) == Segment(t[k], t[k + 1], rpm)
    ensures var ratio := (rpm - t[k].rpm) / (t[k + 1].rpm - t[k].rpm);
      && 0.0 < ratio <= 1.0
      && Interpolate(t, rpm) ==
         t[k].medianFuelFlow + ratio * (t[k + 1].medianFuelFlow - t[k].medianFuelFlow)
  {
    LowerBoundInGap(t, k, rpm);
    var a, b := t[k].rpm, t[k + 1].rpm;
    var m1, m2 := t[k].medianFuelFlow, t[k + 1].medianFuelFlow;
    var ratio := Ratio(a, b, rpm);
    assert Interpolate(t, rpm) == Lerp(m1, m2, ratio);
    LerpIsSegment(t[k], t[k + 1], rpm);
  }

  /** On strictly increasing engine speeds a query at a row's speed returns
      that row's median, with no interpolation error. */
  lemma InterpolateAtRow(t: seq<DataPoint>, k: int)
    requires RpmIncreasing(t)
    requires 0 <= k < |t|
    ensures Interpolate(t, t[k].rpm) == t[k].medianFuelFlow
  {
    LowerBoundAtRow(t, k);
    if k > 0 {
      assert Ratio(t[k - 1].rpm, t[k].rpm, t[k].rpm) == 1.0;
    }
  }

  /** Inside the table the value lies between the medians of the two rows
      around the query. */
  lemma InterpolateBetweenNeighbours(t: seq<DataPoint>, k: int, rpm: real)
    requires RpmNondecreasing(t)
    requires 0 <= k < |t| - 1
    requires t[k].rpm < rpm <= t[k + 1].rpm
    ensures Min(t[k].medianFuelFlow, t[k + 1].medianFuelFlow) <= Interpolate(t, rpm)
    ensures Interpolate(t, rpm) <= Max(t[k].medianFuelFlow, t[k + 1].medianFuelFlow)
  {
    LowerBoundInGap(t, k, rpm);
    LerpBetween(t[k].medianFuelFlow, t[k + 1].medianFuelFlow, Ratio(t[k].rpm, t[k + 1].rpm, rpm));
  }

  /** On a non-empty table every answer lies within any interval that holds
      all the medians. */
  lemma InterpolateBounded(t: seq<DataPoint>, rpm: real, lo: real, hi: real)
    requires t != []
    requires forall k :: 0 <= k < |t| ==> lo <= t[k].medianFuelFlow <= hi
    ensures lo <= Interpolate(t, rpm) <= hi
  {
    var i := LowerBound(t, rpm);
    if 0 < i < |t| {
      LerpBetween(t[i - 1].medianFuelFlow, t[i].medianFuelFlow, Ratio(t[i - 1].rpm, t[i].rpm, rpm));
    }
  }

  /** Where the query falls relative to its lower bound row, on an ordered
      table with rising medians. */
  lemma InterpolateNearLowerBound(t: seq<DataPoint>, rpm: real)
    requires RpmNondecreasing(t) && MediansNondecreasing(t)
    requires t != []
    ensures var i := LowerBound(t, rpm);
      && (i == 0 ==> Interpolate(t, rpm) == t[0].medianFuelFlow)
      && (i == |t| ==> Interpolate(t, rpm) == t[|t| - 1].medianFuelFlow)
      && (0 < i < |t| ==>
            t[i - 1].medianFuelFlow <= Interpolate(t, rpm) <= t[i].medianFuelFlow)
  {
    var i := LowerBound(t, rpm);
    if 0 < i < |t| {
      LerpBetween(t[i - 1].medianFuelFlow, t[i].medianFuelFlow, Ratio(t[i - 1].rpm, t[i].rpm, rpm));
    }
  }

  /** On an ordered table with rising medians the interpolated flow never
      falls as the engine speed rises. */
  lemma InterpolateMonotone(t: seq<DataPoint>, q1: real, q2: real)
    requires RpmNondecreasing(t) && MediansNondecreasing(t)
    requires q1 <= q2
    ensures Interpolate(t, q1) <= Interpolate(t, q2)
  {
    if t == [] {
      return;
    }
    var i1, i2 := LowerBound(t, q1), LowerBound(t, q2);
    LowerBoundMonotone(t, q1, q2);
    InterpolateNearLowerBound(t, q1);
    InterpolateNearLowerBound(t, q2);
    if i1 == i2 {
      if 0 < i1 < |t| {
        InterpolateMonotoneInGap(t, i1 - 1, q1, q2);
      }
    } else {
      assert i1 < i2;
      if i1 > 0 {
        assert t[i1].medianFuelFlow <= t[i2 - 1].medianFuelFlow;
      } else {
        assert t[0].medianFuelFlow <= t[i2 - 1].medianFuelFlow;
      }
    }
  }

  /** The interpolator run with the halving search, as the chart computes
      it; it agrees with the functional definition. */
  method InterpolateFuelFlow(t: seq<DataPoint>, rpm: real, useMedian: bool := false) returns (r: real)
    requires RpmNondecreasing(t)
    ensures r == Interpolate(t, rpm, useMedian)
  {
    if |t| == 0 {
      return 0.0;
    }
    var i := BinarySearch(t, rpm);
    if i == 0 {
      return t[0].medianFuelFlow;
    }
    if i == |t| {
      return t[i - 1].medianFuelFlow;
    }
    var p1, p2 := t[i - 1], t[i];
    var ratio := (rpm - p1.rpm) / (p2.rpm - p1.rpm);
    // Both values of `useMedian` select the same median interpolation
    // (`UseMedianIrrelevant`), so the flag is not consulted here.
    r := p1.medianFuelFlow + ratio * (p2.medianFuelFlow - p1.medianFuelFlow);
  }

  /** Worked example: halfway between rows with medians 10
      and 20 the flow is 15. */
  lemma MidpointExample()
    ensures var t := [DataPoint(1000.0, 8.0, 12.0, 10.0, 10.0),
                      DataPoint(1050.0, 16.0, 24.0, 20.0, 20.0)];
      Interpolate(t, 1025.0) == 15.0
  {
    var t := [DataPoint(1000.0, 8.0, 12.0, 10.0, 10.0),
              DataPoint(1050.0, 16.0, 24.0, 20.0, 20.0)];
    LowerBoundInGap(t, 0, 1025.0);
  }
}
