/** The sample-table generator: one row every 50 RPM from 0 to 6000, each
    row derived from a closed-form quadratic base flow with a fixed 20 %
    band around it and the median 40 % of the way from the low to the high
    edge of the band. The generator is deterministic. */
module SampleTable {
  import opened ChartTypes

  /** Spacing of the generated rows and the last generated engine speed. */
  const RpmStep: int := 50
  const LastRpm: int := 6000
  /** Number of generated rows: 6000 / 50 + 1. */
  const GeneratedRowCount: int := 121
  /** Range of the generated medians: the median at 0 RPM and at 6000 RPM. */
  const MinGeneratedMedian: real := 0.48
  const MaxGeneratedMedian: real := 44.24

  /** Engine speed as a fraction of the top speed. */
  function Norm(rpm: int): real {
    rpm as real / 6000.0
  }

  /** The base flow of the generator: linear plus quadratic in the
      normalised engine speed. */
  function BaseFuelFlow(rpm: int): real {
    0.5 + Norm(rpm) * 45.0 + Norm(rpm) * Norm(rpm) * 5.0
  }

  /** The row the generator produces for one engine speed. The band edge
      is clamped to [0, 50] and the median sits at 40 % of the band. */
  function SampleRow(rpm: int): DataPoint {
    var base := BaseFuelFlow(rpm);
    var variation := base * 0.2;
    var low := Max(0.0, base - variation);
    var high := Min(50.0, base + variation);
    DataPoint(rpm as real, low, high, low + (high - low) * 0.4, base)
  }

  /** The rows the generator loop appends when its counter starts at `rpm`:
      one row per step of 50 up to and including 6000. */
  function SampleTableFrom(rpm: int): (t: seq<DataPoint>)
    ensures rpm > LastRpm ==> t == []
    ensures rpm <= LastRpm ==> |t| == (LastRpm - rpm) / RpmStep + 1
    ensures forall k :: 0 <= k < |t| ==> t[k] == SampleRow(rpm + RpmStep * k)
    decreases LastRpm + RpmStep - rpm
  {
    if rpm > LastRpm then []
    else [SampleRow(rpm)] + SampleTableFrom(rpm + RpmStep)
  }

  /** The generated table. */
  function GeneratedTable(): (t: seq<DataPoint>)
    ensures |t| == GeneratedRowCount
    ensures forall k :: 0 <= k < |t| ==> t[k].rpm == (RpmStep * k) as real
    ensures t[0].rpm == 0.0 && t[|t| - 1].rpm == 6000.0
  {
    seq(GeneratedRowCount, k requires 0 <= k < GeneratedRowCount => SampleRow(RpmStep * k))
  }

  /** The generator loop, started at speed 0, builds exactly the generated
      table. */
  lemma LoopBuildsGeneratedTable()
    ensures SampleTableFrom(0) == GeneratedTable()
  {
    var loop, table := SampleTableFrom(0), GeneratedTable();
    assert |loop| == |table|;
    forall k | 0 <= k < |loop|
      ensures loop[k] == table[k]
    {
    }
  }

  /** The base flow stays within [0.5, 50.5] on the generated speed range. */
  lemma BaseFuelFlowBounds(rpm: int)
    requires 0 <= rpm <= LastRpm
    ensures 0.5 <= BaseFuelFlow(rpm) <= 50.5
  {
    var n := Norm(rpm);
    assert 0.0 <= n <= 1.0;
    assert 0.0 <= n * n <= n;
  }

  /** The base flow strictly grows with the engine speed. */
  lemma BaseFuelFlowIncreasing(a: int, b: int)
    requires 0 <= a < b
    ensures BaseFuelFlow(a) < BaseFuelFlow(b)
  {
    var na, nb := Norm(a), Norm(b);
    assert 0.0 <= na < nb;
    assert nb * nb - na * na == (nb - na) * (nb + na);
    assert (nb - na) * (nb + na) >= 0.0;
  }

  /** Shape of one generated row: the low edge is 80 % of the base flow,
      the high edge 120 % of it capped at 50, and the row is ordered
      0.4 <= low <= median <= high <= 50 with the median in [0.48, 44.24]. */
  lemma SampleRowBounds(rpm: int)
    requires 0 <= rpm <= LastRpm
    ensures var p := SampleRow(rpm);
      && p.rpm == rpm as real
      && p.currentFuelFlow == BaseFuelFlow(rpm)
      && p.minFuelFlow == 0.8 * BaseFuelFlow(rpm)
      && p.maxFuelFlow == Min(50.0, 1.2 * BaseFuelFlow(rpm))
      && 0.4 <= p.minFuelFlow <= p.medianFuelFlow <= p.maxFuelFlow <= 50.0
      && MinGeneratedMedian <= p.medianFuelFlow <= MaxGeneratedMedian
  {
    BaseFuelFlowBounds(rpm);
  }

  /** At the top speed the band is capped: base 50.5, low edge 40.4, high
      edge 50, median 44.24. */
  lemma TopRowMedian()
    ensures SampleRow(LastRpm).minFuelFlow == 40.4
    ensures SampleRow(LastRpm).maxFuelFlow == 50.0
    ensures SampleRow(LastRpm).medianFuelFlow == MaxGeneratedMedian
  {
    assert Norm(LastRpm) == 1.0;
    assert BaseFuelFlow(LastRpm) == 50.5;
  }

  /** The median of a generated row strictly grows with the engine speed:
      the low edge grows, and the capped high edge never falls. */
  lemma SampleRowMedianIncreasing(a: int, b: int)
    requires 0 <= a < b <= LastRpm
    ensures SampleRow(a).medianFuelFlow < SampleRow(b).medianFuelFlow
  {
    BaseFuelFlowIncreasing(a, b);
    SampleRowBounds(a);
    SampleRowBounds(b);
  }

  /** Every generated row is ordered and lies inside the advertised chart
      bounds; the low edge never drops below 0.4. */
  lemma GeneratedRowsBounded()
    ensures forall k :: 0 <= k < |GeneratedTable()| ==>
      var p := GeneratedTable()[k];
      && MinRpm <= p.rpm <= MaxRpm
      && MinFuelFlow <= 0.4 <= p.minFuelFlow <= p.medianFuelFlow <= p.maxFuelFlow <= MaxFuelFlow
      && MinGeneratedMedian <= p.medianFuelFlow <= MaxGeneratedMedian
  {
    var t := GeneratedTable();
    forall k | 0 <= k < |t|
      ensures var p := t[k];
        && MinRpm <= p.rpm <= MaxRpm
        && MinFuelFlow <= 0.4 <= p.minFuelFlow <= p.medianFuelFlow <= p.maxFuelFlow <= MaxFuelFlow
        && MinGeneratedMedian <= p.medianFuelFlow <= MaxGeneratedMedian
    {
      SampleRowBounds(RpmStep * k);
    }
  }

  /** Consecutive generated rows are exactly 50 RPM apart, so the engine
      speeds are strictly increasing. */
  lemma GeneratedRpmStep()
    ensures forall k :: 0 <= k < |GeneratedTable()| - 1 ==>
      GeneratedTable()[k + 1].rpm - GeneratedTable()[k].rpm == 50.0
    ensures forall j, k :: 0 <= j < k < |GeneratedTable()| ==>
      GeneratedTable()[j].rpm < GeneratedTable()[k].rpm
  {
  }

  /** The median series of the generated table is strictly increasing. */
  lemma GeneratedMediansIncreasing()
    ensures forall j, k :: 0 <= j < k < |GeneratedTable()| ==>
      GeneratedTable()[j].medianFuelFlow < GeneratedTable()[k].medianFuelFlow
  {
    var t := GeneratedTable();
    forall j, k | 0 <= j < k < |t|
      ensures t[j].medianFuelFlow < t[k].medianFuelFlow
    {
      SampleRowMedianIncreasing(RpmStep * j, RpmStep * k);
    }
  }
}
