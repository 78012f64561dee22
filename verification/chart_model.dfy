/** The chart's data model: the table, the live operating point (engine
    speed, jittered fuel flow, eco flag) and the list-model projections the
    chart reads. Each mutating operation is a step from one model value to
    the next, returning the notifications it emits in emission order. The
    random draw of the flow jitter is a parameter `g` in [0, 1). */
module ChartModel {
  import opened ChartTypes
  import opened SampleTable
  import opened TableSearch
  import opened Interpolation

  /** The model's state. `currentRpm` is the only field written from
      outside; the other two live values are derived by the model. */
  datatype Model = Model(
    dataPoints: seq<DataPoint>,
    currentRpm: real,
    currentFuelFlow: real,
    isEcoMode: bool)

  /** A new model value together with the notifications emitted on the way
      to it. */
  datatype Update = Update(model: Model, signals: seq<Signal>)

  /** An index into the list model: either invalid or a row. */
  datatype ModelIndex = Invalid | Index(row: nat)

  /** Engine speed the model starts at. */
  const InitialRpm: real := 1500.0

  /** An upper bound on the flow of the live operating point: the top
      generated median (44.24) raised by 15 %, a jitter the draw never quite
      reaches. */
  const MaxLiveFuelFlow: real := 1.15 * MaxGeneratedMedian

  /** Role numbers of the list model, counted up from the toolkit's first
      user role (256); role 0 is the display role. */
  const DisplayRole: int := 0
  const RpmRole: int := 257
  const MinFuelFlowRole: int := 258
  const MaxFuelFlowRole: int := 259
  const MedianFuelFlowRole: int := 260
  const CurrentFuelFlowRole: int := 261

  /** The states the model can be in: the speed within the chart's speed
      axis, the table either not yet built or the generated one, the flow
      and flag still at their initial values while the table is empty, and
      the flow within [0, MaxLiveFuelFlow]. */
  predicate Valid(m: Model) {
    && MinRpm <= m.currentRpm <= MaxRpm
    && (m.dataPoints == [] || m.dataPoints == GeneratedTable())
    && (m.dataPoints == [] ==> m.currentFuelFlow == 0.0 && !m.isEcoMode)
    && 0.0 <= m.currentFuelFlow <= MaxLiveFuelFlow
  }

  /** The stored flow tracks the interpolated flow at the stored speed: it
      lies within 15 % of it either way. */
  predicate FlowNearInterpolation(m: Model) {
    var base := Interpolate(m.dataPoints, m.currentRpm);
    0.85 * base <= m.currentFuelFlow <= 1.15 * base
  }

  /** The freshly constructed model: no table, speed 1500, flow 0, not in
      eco mode. */
  function Init(): (m: Model)
    ensures Valid(m) && FlowNearInterpolation(m)
    ensures m.dataPoints == [] && m.currentRpm == InitialRpm
  {
    Model([], InitialRpm, 0.0, false)
  }

  /** The relative jitter drawn from `g`: symmetric around zero, at most
      15 % either way, negative exactly for draws below one half. */
  function Jitter(g: real): (v: real)
    requires 0.0 <= g < 1.0
    ensures -0.15 <= v < 0.15
    ensures v < 0.0 <==> g < 0.5
  {
    (g - 0.5) * 0.3
  }

  /** The jittered flow at engine speed `rpm`: within 15 % of the
      interpolated flow, and below it exactly when the jitter is negative
      and the interpolated flow positive. */
  function JitteredFuelFlow(t: seq<DataPoint>, rpm: real, g: real): (f: real)
    requires 0.0 <= g < 1.0
    ensures var base := Interpolate(t, rpm);
      && (0.0 <= base ==> 0.85 * base <= f <= 1.15 * base)
      && (base <= 0.0 ==> 1.15 * base <= f <= 0.85 * base)
      && (0.0 < base ==> (f < base <==> Jitter(g) < 0.0))
  {
    var base := Interpolate(t, rpm, false);
    var v := Jitter(g);
    JitterBand(base, v);
    base * (1.0 + v)
  }

  /** Scaling `base` by `1 + v` with |v| <= 0.15 stays within 15 % of it,
      and for a positive base falls below it exactly when `v` is negative. */
  lemma JitterBand(base: real, v: real)
    requires -0.15 <= v <= 0.15
    ensures 0.0 <= base ==> 0.85 * base <= base * (1.0 + v) <= 1.15 * base
    ensures base <= 0.0 ==> 1.15 * base <= base * (1.0 + v) <= 0.85 * base
    ensures 0.0 < base ==> (base * (1.0 + v) < base <==> v < 0.0)
  {
    if 0.0 <= base {
      MulNonneg(base, v + 0.15);
      MulNonneg(base, 0.15 - v);
    } else {
      MulNonneg(-base, v + 0.15);
      MulNonneg(-base, 0.15 - v);
    }
  }

  /** Draws a new flow for the stored speed. When the draw lands on the
      stored flow nothing changes and nothing is emitted; otherwise the flow
      is stored, the eco flag is recomputed against the median at the
      stored speed, and the flag's notification (only if it flipped) is
      followed by the flow's. The table and the speed never change. */
  function UpdateCurrentFuelFlow(m: Model, g: real): (u: Update)
    requires 0.0 <= g < 1.0
    ensures u.model.dataPoints == m.dataPoints && u.model.currentRpm == m.currentRpm
    ensures var f := JitteredFuelFlow(m.dataPoints, m.currentRpm, g);
      if SameValue(m.currentFuelFlow, f) then u == Update(m, [])
      else
        && u.model.currentFuelFlow == f
        && u.model.isEcoMode == (f < Interpolate(m.dataPoints, m.currentRpm, true))
        && u.signals ==
             (if u.model.isEcoMode != m.isEcoMode then [EcoModeChanged] else [])
             + [CurrentFuelFlowChanged]
  {
    var newFuelFlow := JitteredFuelFlow(m.dataPoints, m.currentRpm, g);
    if SameValue(m.currentFuelFlow, newFuelFlow) then
      Update(m, [])
    else
      var medianAtCurrentRpm := Interpolate(m.dataPoints, m.currentRpm, true);
      var newEcoMode := newFuelFlow < medianAtCurrentRpm;
      var eco := if m.isEcoMode != newEcoMode then [EcoModeChanged] else [];
      Update(m.(currentFuelFlow := newFuelFlow, isEcoMode := newEcoMode),
             eco + [CurrentFuelFlowChanged])
  }

  /** Writes the engine speed. An argument equal to the stored speed is
      ignored; any other argument is clamped to the speed axis, stored, a
      new flow is drawn, and the speed notification comes last. The test
      uses the argument before clamping. */
  function SetCurrentRpm(m: Model, rpm: real, g: real): (u: Update)
    requires 0.0 <= g < 1.0
    ensures u.model.dataPoints == m.dataPoints
    ensures SameValue(m.currentRpm, rpm) ==> u == Update(m, [])
    ensures !SameValue(m.currentRpm, rpm) ==>
      && MinRpm <= u.model.currentRpm <= MaxRpm
      && (MinRpm <= rpm <= MaxRpm ==> u.model.currentRpm == rpm)
      && (rpm < MinRpm ==> u.model.currentRpm == MinRpm)
      && (MaxRpm < rpm ==> u.model.currentRpm == MaxRpm)
      && |u.signals| > 0 && u.signals[|u.signals| - 1] == CurrentRpmChanged
    ensures !SameValue(m.currentRpm, rpm) ==>
      var stored := m.(currentRpm := Clamp(MinRpm, rpm, MaxRpm));
      var flow := UpdateCurrentFuelFlow(stored, g);
      && u.model == flow.model
      && u.signals == flow.signals + [CurrentRpmChanged]
      && u.model.currentFuelFlow == JitteredFuelFlow(m.dataPoints, u.model.currentRpm, g)
  {
    if SameValue(m.currentRpm, rpm) then
      Update(m, [])
    else
      var stored := m.(currentRpm := Clamp(MinRpm, rpm, MaxRpm));
      var flow := UpdateCurrentFuelFlow(stored, g);
      Update(flow.model, flow.signals + [CurrentRpmChanged])
  }

  /** Rebuilds the table (announced as a model reset) and then draws a new
      flow for the stored speed. The speed is untouched. */
  function GenerateSampleData(m: Model, g: real): (u: Update)
    requires 0.0 <= g < 1.0
    ensures u.model.dataPoints == GeneratedTable()
    ensures u.model.currentRpm == m.currentRpm
    ensures |u.signals| > 0 && u.signals[0] == ModelReset
    ensures var flow := UpdateCurrentFuelFlow(m.(dataPoints := GeneratedTable()), g);
      && u.model == flow.model
      && u.signals == [ModelReset] + flow.signals
      && u.model.currentFuelFlow == JitteredFuelFlow(GeneratedTable(), m.currentRpm, g)
  {
    var rebuilt := m.(dataPoints := GeneratedTable());
    var flow := UpdateCurrentFuelFlow(rebuilt, g);
    Update(flow.model, [ModelReset] + flow.signals)
  }

  /** The point query the chart offers: the interpolated flow at any speed,
      with no jitter. Asking for the median variant gives the same value. */
  function CurrentFuelFlowAtRpm(m: Model, rpm: real): (r: real)
    ensures r == Interpolate(m.dataPoints, rpm, true)
    ensures Valid(m) && m.dataPoints != [] ==> MinGeneratedMedian <= r <= MaxGeneratedMedian
  {
    UseMedianIrrelevant(m.dataPoints, rpm);
    ValidQueryBounded(m, rpm);
    Interpolate(m.dataPoints, rpm, false)
  }

  /** On a valid model with a table, the interpolated flow at any speed lies
      within the range of the generated medians. */
  lemma ValidQueryBounded(m: Model, rpm: real)
    ensures Valid(m) && m.dataPoints != [] ==>
      MinGeneratedMedian <= Interpolate(m.dataPoints, rpm) <= MaxGeneratedMedian
  {
    if Valid(m) && m.dataPoints != [] {
      GeneratedRowsBounded();
      InterpolateBounded(m.dataPoints, rpm, MinGeneratedMedian, MaxGeneratedMedian);
    }
  }


  /** Number of rows the list model reports: exactly the rows the lookup
      answers for. */
  function RowCount(m: Model): (n: nat)
    ensures Valid(m) ==> n == 0 || n == GeneratedRowCount
    ensures forall k: nat :: k < n <==> Data(m, Index(k), RpmRole).Some?
  {
    |m.dataPoints|
  }

  /** The role numbers the list model answers to, with the name each is
      published under. */
  function RoleNames(): (names: map<int, string>)
    ensures names.Keys ==
      {RpmRole, MinFuelFlowRole, MaxFuelFlowRole, MedianFuelFlowRole, CurrentFuelFlowRole}
    ensures DisplayRole !in names
  {
    map[RpmRole := "rpm",
        MinFuelFlowRole := "minFuelFlow",
        MaxFuelFlowRole := "maxFuelFlow",
        MedianFuelFlowRole := "medianFuelFlow",
        CurrentFuelFlowRole := "currentFuelFlow"]
  }

  /** One field of a row, by role; `None` for a role that names no field. */
  function Field(p: DataPoint, role: int): Option<real> {
    if role == RpmRole then Some(p.rpm)
    else if role == MinFuelFlowRole then Some(p.minFuelFlow)
    else if role == MaxFuelFlowRole then Some(p.maxFuelFlow)
    else if role == MedianFuelFlowRole then Some(p.medianFuelFlow)
    else if role == CurrentFuelFlowRole then Some(p.currentFuelFlow)
    else None
  }

  /** The list-model lookup: a value exactly for a valid index on an
      existing row and a published role, and then that row's field. */
  function Data(m: Model, index: ModelIndex, role: int := DisplayRole): (r: Option<real>)
    ensures r.Some? <==>
      index.Index? && index.row < |m.dataPoints| && role in RoleNames()
    ensures r.Some? ==> r == Field(m.dataPoints[index.row], role)
  {
    if index.Invalid? || index.row >= |m.dataPoints| then None
    else Field(m.dataPoints[index.row], role)
  }

  /** One row as the name-to-value map handed to the chart. */
  function PointMap(p: DataPoint): (pm: map<string, real>)
    ensures pm.Keys == RoleNames().Values
    ensures forall role :: role in RoleNames() ==>
      Field(p, role) == Some(pm[RoleNames()[role]])
  {
    map["rpm" := p.rpm,
        "minFuelFlow" := p.minFuelFlow,
        "maxFuelFlow" := p.maxFuelFlow,
        "medianFuelFlow" := p.medianFuelFlow,
        "currentFuelFlow" := p.currentFuelFlow]
  }

  /** The whole table as a list of name-to-value maps, in table order. */
  method GetDataPoints(m: Model) returns (result: seq<map<string, real>>)
    ensures |result| == |m.dataPoints|
    ensures forall k :: 0 <= k < |result| ==> result[k] == PointMap(m.dataPoints[k])
  {
    result := [];
    for k := 0 to |m.dataPoints|
      invariant |result| == k
      invariant forall j :: 0 <= j < k ==> result[j] == PointMap(m.dataPoints[j])
    {
      result := result + [PointMap(m.dataPoints[k])];
    }
  }

  /** The generated table meets the interpolator's ordering needs: strictly
      increasing speeds and non-decreasing medians. */
  lemma GeneratedTableOrdered()
    ensures RpmIncreasing(GeneratedTable())
    ensures RpmNondecreasing(GeneratedTable())
    ensures MediansNondecreasing(GeneratedTable())
  {
    GeneratedRpmStep();
    GeneratedMediansIncreasing();
  }

  /** On the generated table the point query rises with the engine speed,
      and at every multiple of 50 RPM it returns that row's median. */
  lemma GeneratedQueryProperties(q1: real, q2: real, k: int)
    requires q1 <= q2
    requires 0 <= k < GeneratedRowCount
    ensures var m := Init().(dataPoints := GeneratedTable());
      && CurrentFuelFlowAtRpm(m, q1) <= CurrentFuelFlowAtRpm(m, q2)
      && CurrentFuelFlowAtRpm(m, (RpmStep * k) as real) == SampleRow(RpmStep * k).medianFuelFlow
  {
    var t := GeneratedTable();
    GeneratedTableOrdered();
    UseMedianIrrelevant(t, q1);
    UseMedianIrrelevant(t, q2);
    UseMedianIrrelevant(t, t[k].rpm);
    InterpolateMonotone(t, q1, q2);
    InterpolateAtRow(t, k);
  }

  /** The live flow is not confined to the advertised flow axis: at the top
      speed the median is 44.24, and a draw of 0.99 lifts it above 50. */
  lemma LiveFlowCanExceedFlowAxis()
    ensures JitteredFuelFlow(GeneratedTable(), MaxRpm, 0.99) > MaxFuelFlow
  {
    var t := GeneratedTable();
    GeneratedTableOrdered();
    InterpolateAtRow(t, |t| - 1);
    TopRowMedian();
    assert t[|t| - 1] == SampleRow(LastRpm);
    var base := Interpolate(t, MaxRpm);
    assert base == MaxGeneratedMedian;
    assert Jitter(0.99) == 0.147;
    assert JitteredFuelFlow(t, MaxRpm, 0.99) == base * 1.147;
  }

  /** After a flow update the stored flow is always the fresh draw: when
      the draw equals the old flow, keeping the old flow keeps the draw. */
  lemma UpdateStoresJitteredFlow(m: Model, g: real)
    requires 0.0 <= g < 1.0
    ensures UpdateCurrentFuelFlow(m, g).model.currentFuelFlow ==
      JitteredFuelFlow(m.dataPoints, m.currentRpm, g)
  {
  }

  /** On the generated table, whenever the flow changes the eco flag holds
      exactly when the jitter draw lies below one half, that is when the
      jitter is negative. */
  lemma EcoModeIffNegativeJitter(m: Model, g: real)
    requires 0.0 <= g < 1.0
    requires m.dataPoints == GeneratedTable()
    ensures !SameValue(m.currentFuelFlow, JitteredFuelFlow(m.dataPoints, m.currentRpm, g)) ==>
      (UpdateCurrentFuelFlow(m, g).model.isEcoMode <==> g < 0.5)
  {
    GeneratedRowsBounded();
    InterpolateBounded(m.dataPoints, m.currentRpm, MinGeneratedMedian, MaxGeneratedMedian);
    UseMedianIrrelevant(m.dataPoints, m.currentRpm);
  }

  /** A flow update keeps the model valid. */
  lemma UpdatePreservesValid(m: Model, g: real)
    requires 0.0 <= g < 1.0
    requires Valid(m)
    ensures Valid(UpdateCurrentFuelFlow(m, g).model)
  {
    var u := UpdateCurrentFuelFlow(m, g);
    if m.dataPoints != [] {
      GeneratedRowsBounded();
      InterpolateBounded(m.dataPoints, m.currentRpm, MinGeneratedMedian, MaxGeneratedMedian);
      UseMedianIrrelevant(m.dataPoints, m.currentRpm);
    }
  }

  /** Writing the speed keeps the model valid; in particular the stored
      speed never leaves [0, 6000]. */
  lemma SetCurrentRpmPreservesValid(m: Model, rpm: real, g: real)
    requires 0.0 <= g < 1.0
    requires Valid(m)
    ensures Valid(SetCurrentRpm(m, rpm, g).model)
  {
    if !SameValue(m.currentRpm, rpm) {
      UpdatePreservesValid(m.(currentRpm := Clamp(MinRpm, rpm, MaxRpm)), g);
    }
  }

  /** Rebuilding the table keeps the model valid. */
  lemma GenerateSampleDataPreservesValid(m: Model, g: real)
    requires 0.0 <= g < 1.0
    requires Valid(m)
    ensures Valid(GenerateSampleData(m, g).model)
  {
    var rebuilt := m.(dataPoints := GeneratedTable());
    GeneratedRowsBounded();
    InterpolateBounded(rebuilt.dataPoints, rebuilt.currentRpm, MinGeneratedMedian, MaxGeneratedMedian);
    UseMedianIrrelevant(rebuilt.dataPoints, rebuilt.currentRpm);
  }

  /** Writing an in-range speed twice: the second write is ignored and
      emits nothing. */
  lemma SetCurrentRpmRepeatInRange(m: Model, rpm: real, g1: real, g2: real)
    requires 0.0 <= g1 < 1.0 && 0.0 <= g2 < 1.0
    requires MinRpm <= rpm <= MaxRpm
    ensures var first := SetCurrentRpm(m, rpm, g1).model;
      SetCurrentRpm(first, rpm, g2) == Update(first, [])
  {
  }

  /** Writing an out-of-range speed twice: because the ignore test uses the
      argument before clamping, the second write redraws the flow and emits
      the speed notification again although the stored speed stays put. */
  lemma SetCurrentRpmRepeatOutOfRange(m: Model, rpm: real, g1: real, g2: real)
    requires 0.0 <= g1 < 1.0 && 0.0 <= g2 < 1.0
    requires m.currentRpm <= MaxRpm < rpm
    ensures var first := SetCurrentRpm(m, rpm, g1).model;
      var second := SetCurrentRpm(first, rpm, g2);
      && first.currentRpm == MaxRpm
      && second.model.currentRpm == MaxRpm
      && second.signals != []
      && second.signals[|second.signals| - 1] == CurrentRpmChanged
      && second.model.currentFuelFlow == JitteredFuelFlow(first.dataPoints, MaxRpm, g2)
  {
  }

  /** After a speed write that is not ignored, on the generated table, the
      stored flow lies within 15 % of the interpolated flow at the new
      speed, and so within [0.408, 50.876]. */
  lemma SetCurrentRpmFlowNearInterpolation(m: Model, rpm: real, g: real)
    requires 0.0 <= g < 1.0
    requires m.dataPoints == GeneratedTable()
    ensures var u := SetCurrentRpm(m, rpm, g).model;
      var base := Interpolate(GeneratedTable(), u.currentRpm);
      !SameValue(m.currentRpm, rpm) ==>
        && 0.85 * base <= u.currentFuelFlow <= 1.15 * base
        && 0.85 * MinGeneratedMedian <= u.currentFuelFlow <= MaxLiveFuelFlow
  {
    var u := SetCurrentRpm(m, rpm, g).model;
    GeneratedRowsBounded();
    InterpolateBounded(GeneratedTable(), u.currentRpm, MinGeneratedMedian, MaxGeneratedMedian);
  }

  /** After a table rebuild the stored flow lies within 15 % of the
      interpolated flow at the stored speed, whatever the flow was before. */
  lemma GenerateSampleDataFlowNearInterpolation(m: Model, g: real)
    requires 0.0 <= g < 1.0
    ensures var u := GenerateSampleData(m, g).model;
      var base := Interpolate(GeneratedTable(), m.currentRpm);
      && 0.85 * base <= u.currentFuelFlow <= 1.15 * base
      && 0.85 * MinGeneratedMedian <= u.currentFuelFlow <= MaxLiveFuelFlow
  {
    GeneratedRowsBounded();
    InterpolateBounded(GeneratedTable(), m.currentRpm, MinGeneratedMedian, MaxGeneratedMedian);
  }

  /** A call the host can make on the model: a speed write or a table
      rebuild, each with the draw its flow update uses. */
  datatype Command = SetRpm(rpm: real, draw: real) | Generate(draw: real)

  predicate DrawsInRange(cmds: seq<Command>) {
    forall k :: 0 <= k < |cmds| ==> 0.0 <= cmds[k].draw < 1.0
  }

  /** The model after running the commands in order. */
  function Run(m: Model, cmds: seq<Command>): Model
    requires DrawsInRange(cmds)
    decreases |cmds|
  {
    if cmds == [] then m
    else
      var next := match cmds[0]
        case SetRpm(rpm, g) => SetCurrentRpm(m, rpm, g).model
        case Generate(g) => GenerateSampleData(m, g).model;
      Run(next, cmds[1..])
  }

  /** Every sequence of commands keeps a valid model valid; from the
      constructed model the speed therefore stays in [0, 6000], the table is
      empty or the generated one, and the flow stays in [0, 50.876]. */
  lemma {:induction false} RunPreservesValid(m: Model, cmds: seq<Command>)
    requires DrawsInRange(cmds)
    requires Valid(m)
    ensures Valid(Run(m, cmds))
    decreases |cmds|
  {
    if cmds != [] {
      match cmds[0]
      case SetRpm(rpm, g) =>
        SetCurrentRpmPreservesValid(m, rpm, g);
        RunPreservesValid(SetCurrentRpm(m, rpm, g).model, cmds[1..]);
      case Generate(g) =>
        GenerateSampleDataPreservesValid(m, g);
        RunPreservesValid(GenerateSampleData(m, g).model, cmds[1..]);
    }
  }

  /** On a valid model the interpolated flow at the stored speed is never
      negative: 0 before generation, a generated median after. */
  lemma ValidBaseNonnegative(m: Model, rpm: real)
    requires Valid(m)
    ensures 0.0 <= Interpolate(m.dataPoints, rpm)
  {
    if m.dataPoints != [] {
      GeneratedRowsBounded();
      InterpolateBounded(m.dataPoints, rpm, MinGeneratedMedian, MaxGeneratedMedian);
    }
  }

  /** A flow update leaves the stored flow within 15 % of the interpolated
      flow at the stored speed, whatever the flow was before. */
  lemma UpdateKeepsFlowNear(m: Model, g: real)
    requires 0.0 <= g < 1.0
    requires Valid(m)
    ensures FlowNearInterpolation(UpdateCurrentFuelFlow(m, g).model)
  {
    UpdateStoresJitteredFlow(m, g);
    ValidBaseNonnegative(m, m.currentRpm);
  }

  /** Every call keeps the flow within 15 % of the interpolated flow at the
      stored speed: an ignored speed write changes nothing, every other call
      ends with a fresh draw at the stored speed. */
  lemma {:induction false} RunKeepsFlowNear(m: Model, cmds: seq<Command>)
    requires DrawsInRange(cmds)
    requires Valid(m) && FlowNearInterpolation(m)
    ensures FlowNearInterpolation(Run(m, cmds))
    decreases |cmds|
  {
    if cmds != [] {
      match cmds[0]
      case SetRpm(rpm, g) =>
        var next := SetCurrentRpm(m, rpm, g).model;
        if !SameValue(m.currentRpm, rpm) {
          ValidBaseNonnegative(m, next.currentRpm);
        }
        SetCurrentRpmPreservesValid(m, rpm, g);
        RunKeepsFlowNear(next, cmds[1..]);
      case Generate(g) =>
        var next := GenerateSampleData(m, g).model;
        GenerateSampleDataFlowNearInterpolation(m, g);
        GenerateSampleDataPreservesValid(m, g);
        RunKeepsFlowNear(next, cmds[1..]);
    }
  }

  /** The list-model lookup and the list of maps agree field for field:
      for every row and published role, the lookup returns the map's value
      under the role's published name. */
  lemma DataMatchesDataPoints(m: Model, k: nat, role: int)
    requires k < |m.dataPoints|
    requires role in RoleNames()
    ensures Data(m, Index(k), role) == Some(PointMap(m.dataPoints[k])[RoleNames()[role]])
  {
  }
}
