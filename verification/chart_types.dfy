/** Shared vocabulary of the fuel-flow chart model: one table row, the
    fixed axis bounds the chart advertises, the optional value returned by
    the list-model projection and the change notifications the model emits.
    Doubles are modelled as `real`; rounding is not modelled. */
module ChartTypes {

  /** One row of the fuel-flow table: an engine speed and the four flow
      figures (litres per hour) the chart draws for it. */
  datatype DataPoint = DataPoint(
    rpm: real,
    minFuelFlow: real,
    maxFuelFlow: real,
    medianFuelFlow: real,
    currentFuelFlow: real)

  /** The optional value of a list-model lookup: `None` stands for an
      empty (invalid) variant. */
  datatype Option<+T> = None | Some(value: T)

  /** The change notifications the data model emits. `ModelReset` stands
      for the begin/end pair around a table rebuild. */
  datatype Signal =
    | ModelReset
    | CurrentRpmChanged
    | CurrentFuelFlowChanged
    | EcoModeChanged

  /** The fixed axis bounds the chart advertises. */
  const MinRpm: real := 0.0
  const MaxRpm: real := 6000.0
  const MinFuelFlow: real := 0.0
  const MaxFuelFlow: real := 50.0

  /** The change test the model applies before storing a new value. The
      toolkit's relative tolerance (about one part in 10^12) is not
      modelled: two values are the same exactly when they are equal. */
  predicate SameValue(a: real, b: real) {
    a == b
  }

  /** `x` forced into the closed interval [lo, hi]. */
  function Clamp(lo: real, x: real, hi: real): (r: real)
    requires lo <= hi
    ensures lo <= r <= hi
    ensures lo <= x <= hi ==> r == x
    ensures x < lo ==> r == lo
    ensures hi < x ==> r == hi
  {
    if x < lo then lo else if hi < x then hi else x
  }

  function Min(a: real, b: real): (r: real)
    ensures r <= a && r <= b
    ensures r == a || r == b
  {
    if a <= b then a else b
  }

  function Max(a: real, b: real): (r: real)
    ensures a <= r && b <= r
    ensures r == a || r == b
  {
    if a <= b then b else a
  }
}
