# Fuel-flow chart data model in Dafny

This project models the data side of a boat-engine fuel-flow chart: the
`ChartDataModel` list model that the chart draws from. It has three parts.

- **Sample table** (`SampleTable`). `GeneratedTable` states the table in
  closed form; `SampleTableFrom` follows the generator loop, and the two are
  proved equal. The generator writes one `DataPoint` every
  50 RPM from 0 to 6000, so the table has 121 rows. Each row is derived from the
  base flow `0.5 + 45·n + 5·n²`, where `n = rpm / 6000`. The row has:
  - a low edge of `max(0, 0.8·base)`;
  - a high edge of `min(50, 1.2·base)`;
  - a median 40 % of the way from the low edge to the high edge;
  - the base flow itself as its "current" value.

  The generator is deterministic.
- **Lower-bound search and interpolation** (`TableSearch`, `Interpolation`).
  - `LowerBound` is the functional reference: the first row whose speed is not
    below the query.
  - `BinarySearch` is the halving search. It is proved to agree with
    `LowerBound` on every table ordered by speed.
  - `Interpolate` returns 0 on an empty table.
  - A query at or before the first row returns the first row's median. A query
    past the last row returns the last row's median.
  - Any other query is linearly interpolated on the median series between the
    two rows around it.
  - The `useMedian` flag defaults to `false` and never changes the result.
- **Operating point** (`ChartModel`). The model value holds the table, the
  current speed, the jittered current flow and the eco flag. Each operation
  returns the next model value and the notifications it emits, in order.
  - `SetCurrentRpm` ignores an argument equal to the stored speed. Otherwise it
    clamps the argument to [0, 6000], stores it and draws a new flow.
  - `UpdateCurrentFuelFlow` multiplies the interpolated flow by `1 + v`, with
    `v = (g − 0.5)·0.3 ∈ [−0.15, 0.15)`. Only when the result differs from the
    stored flow does it store it and recompute eco mode as
    `flow < interpolated median`.
  - `GenerateSampleData` rebuilds the table and then runs the flow update.
  - `RowCount`, `Data`, `RoleNames` and `GetDataPoints` are the list-model
    projections of the table.

Doubles are modelled as `real`. The random draw `g ∈ [0, 1)` is a parameter of
every operation that consumes one. The toolkit's fuzzy comparison is modelled as
exact equality, in the single predicate `ChartTypes.SameValue`. The advertised
axis bounds (speed 0–6000, flow 0–50) are the constants `MinRpm`, `MaxRpm`,
`MinFuelFlow` and `MaxFuelFlow` in `ChartTypes` (src/chartdatamodel.h:44-47).
The three live values are the fields of `ChartModel.Model`:
- `currentRpm` can be written only through `SetCurrentRpm`;
- `currentFuelFlow` and `isEcoMode` change only through the flow update.

Two choices in the code are worth spelling out, because a reader might expect
otherwise:

- A rule that clamps the speed first and then compares it with the stored speed
  would ignore a second write of 7000. The code compares the raw argument, so
  writing 7000 while the stored speed is 6000 stores 6000 again, redraws the
  flow and emits the speed notification again
  (`SetCurrentRpmRepeatOutOfRange`). Repeated in-range writes are ignored
  (`SetCurrentRpmRepeatInRange`).
- The table generator has no random part: every row has a fixed 20 % band
  around the base flow and its median at a fixed 40 % of that band.

Two consequences of the code worth knowing:
- The live flow can exceed the advertised flow axis maximum of 50. At 6000 RPM
  the median is 44.24, and the largest jitter lifts it to about 50.9
  (`LiveFlowCanExceedFlowAxis`).
- When a draw reproduces the stored flow exactly, the eco flag is not
  recomputed for the new speed (the unchanged case of
  `UpdateCurrentFuelFlow`'s contract).

## Model

| member | source | states |
|---|---|---|
| ChartTypes.Clamp | src/chartdatamodel.cpp:59 | The result lies in [lo, hi]. It equals the argument inside the interval and the nearer bound outside it. |
| SampleTable.SampleTableFrom | src/chartdatamodel.cpp:70-89 | Starting the loop counter at `rpm` gives (6000 − rpm)/50 + 1 rows, or none past 6000. Row k is `SampleRow(rpm + 50·k)`, where `SampleRow` is the loop body (lines 71-86) that turns one speed into one row. |
| SampleTable.GeneratedTable | src/chartdatamodel.cpp:67-72 | The generated table has exactly 121 rows. Row k has speed 50·k, so the speeds run from 0 to 6000. |
| SampleTable.LoopBuildsGeneratedTable | src/chartdatamodel.cpp:70-89 | The generator loop started at speed 0 builds exactly the closed-form table of 121 rows, row k being the row for 50·k RPM. |
| SampleTable.BaseFuelFlowBounds | src/chartdatamodel.cpp:75 | On [0, 6000] the base flow lies in [0.5, 50.5]. |
| SampleTable.BaseFuelFlowIncreasing | src/chartdatamodel.cpp:75 | The base flow strictly increases with engine speed. |
| SampleTable.SampleRowBounds | src/chartdatamodel.cpp:75-86 | A row's low edge is 80 % of the base flow and its high edge is 120 % of it capped at 50. The row is ordered 0.4 ≤ low ≤ median ≤ high ≤ 50, with the median in [0.48, 44.24]. |
| SampleTable.TopRowMedian | src/chartdatamodel.cpp:75-83 | At 6000 RPM the high edge is capped at 50, the low edge is 40.4 and the median is 44.24. |
| SampleTable.SampleRowMedianIncreasing | src/chartdatamodel.cpp:75-83 | The median of a row strictly increases with its speed, even where the high edge is capped. |
| SampleTable.GeneratedRowsBounded | src/chartdatamodel.cpp:70-86 | Every generated row lies inside the advertised axis bounds (speed 0–6000, flow 0–50), with 0.4 ≤ low ≤ median ≤ high. |
| SampleTable.GeneratedRpmStep | src/chartdatamodel.cpp:70-72 | Consecutive generated rows are exactly 50 RPM apart, and speeds strictly increase along the table. |
| SampleTable.GeneratedMediansIncreasing | src/chartdatamodel.cpp:75-83 | The median series of the generated table strictly increases. |
| TableSearch.LowerBound | src/chartdatamodel.cpp:146-149 | The index is at most the table size. Every row before it is below the query, and the row at it (if any) is not below the query. |
| TableSearch.LowerBoundUnique | src/chartdatamodel.cpp:146-149 | Any index meeting the three lower-bound conditions is the lower bound, so the search result is fully determined. |
| TableSearch.LowerBoundPartition | src/chartdatamodel.cpp:146-149 | On a table ordered by speed, a row lies before the lower bound exactly when its speed is below the query. |
| TableSearch.LowerBoundAtRow | src/chartdatamodel.cpp:146-149 | With strictly increasing speeds, a query equal to row k's speed finds row k. |
| TableSearch.LowerBoundInGap | src/chartdatamodel.cpp:146-149 | On an ordered table, a query after row k and not after row k+1 finds row k+1. |
| TableSearch.LowerBoundMonotone | src/chartdatamodel.cpp:146-149 | On an ordered table, the lower bound never moves backwards as the query grows. |
| TableSearch.BinarySearch | src/chartdatamodel.cpp:146-149 | On every table ordered by speed, the halving search returns exactly the functional lower bound. |
| Interpolation.Ratio | src/chartdatamodel.cpp:163 | For a query after the earlier row and not after the later one, the fraction lies in (0, 1]. It is 1 at the later row, and it recovers the query as lo + ratio·(hi − lo). |
| Interpolation.Interpolate | src/chartdatamodel.cpp:140-172 | Empty table gives 0. A query at or before the first row gives the first median. On any table, ordered or not, a query past every row's speed (where the search returns the end) gives the last median. |
| Interpolation.UseMedianIrrelevant | src/chartdatamodel.cpp:151-171 | Both values of the `useMedian` flag give the same result for every table and speed. |
| Interpolation.InterpolateOnSegment | src/chartdatamodel.cpp:159-170 | Inside the table the result is `p1.median + ratio·(p2.median − p1.median)` with ratio in (0, 1]. It equals the independently written weighted average of the two medians (`Segment`). |
| Interpolation.InterpolateAtRow | src/chartdatamodel.cpp:146-170 | With strictly increasing speeds, a query at any row's speed returns exactly that row's median. |
| Interpolation.InterpolateBetweenNeighbours | src/chartdatamodel.cpp:159-170 | A query between two rows returns a value between their two medians. |
| Interpolation.InterpolateBounded | src/chartdatamodel.cpp:140-172 | On a non-empty table, every result lies in any interval that holds all the medians (no extrapolation). |
| Interpolation.InterpolateNearLowerBound | src/chartdatamodel.cpp:151-170 | With rising medians, the result is the first or last median at the clamps. Otherwise it lies between the medians of the rows just before and at the lower bound. |
| Interpolation.InterpolateMonotoneInGap | src/chartdatamodel.cpp:163-170 | Within one gap whose later median is not lower, the result does not fall as the query rises. |
| Interpolation.InterpolateMonotone | src/chartdatamodel.cpp:140-172 | On an ordered table with non-decreasing medians, the interpolated flow never falls as the speed rises. |
| Interpolation.InterpolateFuelFlow | src/chartdatamodel.cpp:140-172 | The interpolator computed with the halving search equals the functional `Interpolate` on every ordered table, for both flag values. |
| Interpolation.MidpointExample | src/chartdatamodel.cpp:163-166 | Halfway between rows with medians 10 and 20 the result is 15. |
| ChartModel.Init | src/chartdatamodel.cpp:6-12 | The constructed model has no table and speed 1500. It satisfies the model invariant `Valid` and has its flow within ±15 % of the interpolated flow (`FlowNearInterpolation`). |
| ChartModel.Jitter | src/chartdatamodel.cpp:120-121 | The jitter lies in [−0.15, 0.15) and is negative exactly for draws below one half. |
| ChartModel.JitteredFuelFlow | src/chartdatamodel.cpp:117-122 | The drawn flow is within ±15 % of the interpolated flow. For a positive interpolated flow, it is below that flow exactly when the jitter is negative. |
| ChartModel.JitterBand | src/chartdatamodel.cpp:120-122 | Scaling a flow by `1 + v` with v in [−0.15, 0.15] keeps it within 15 % of the original (in the right order for either sign), and for a positive flow lowers it exactly when `v` is negative. |
| ChartModel.UpdateCurrentFuelFlow | src/chartdatamodel.cpp:115-138 | The table and speed are untouched. If the draw equals the stored flow, nothing changes and nothing is emitted. Otherwise the flow is stored, eco mode is `flow < median at speed`, and the eco notification (only if eco mode flipped) precedes the flow notification. |
| ChartModel.SetCurrentRpm | src/chartdatamodel.cpp:54-62 | The table is untouched. An argument equal to the stored speed changes nothing and emits nothing. Otherwise the stored speed becomes the argument clamped to [0, 6000]; the flow update then runs at that clamped speed, so the stored flow is the fresh draw there, eco mode and its notifications are the update's, and the speed notification follows them last. |
| ChartModel.GenerateSampleData | src/chartdatamodel.cpp:64-93 | The table becomes the generated one and the speed is unchanged. The flow update then runs over the new table: the stored flow is the fresh draw at the stored speed, and the notifications are the model reset followed by the update's. |
| ChartModel.CurrentFuelFlowAtRpm | src/chartdatamodel.cpp:110-113 | The point query equals the median-flag interpolation. On the generated table it lies in [0.48, 44.24]. |
| ChartModel.RowCount | src/chartdatamodel.cpp:14-22 | The count is exactly the number of rows the lookup answers for: row k has data iff k is below the count. A valid model reports either 0 rows (before generation) or 121. |
| ChartModel.RoleNames | src/chartdatamodel.cpp:43-52 | Exactly the five data roles are published. The display role is not among them. |
| ChartModel.Data | src/chartdatamodel.cpp:20-41 | A value is returned exactly for a valid index on an existing row and a published role. The value is that row's field for the role, as selected by `Field`, the role switch of lines 27-40. Invalid indices, rows past the end and unknown roles give nothing. |
| ChartModel.PointMap | src/chartdatamodel.cpp:98-105 | A row's map has exactly the five published names as keys. Under each role's name it holds that role's field. |
| ChartModel.GetDataPoints | src/chartdatamodel.cpp:95-108 | There is one map per table row, in table order, each exposing its row field for field. |
| ChartModel.DataMatchesDataPoints | src/chartdatamodel.cpp:20-41 | For every row and published role, the list-model lookup equals the list-of-maps value under the role's name. |
| ChartModel.GeneratedTableOrdered | src/chartdatamodel.cpp:70-83 | The generated table has strictly increasing speeds and non-decreasing medians, which the interpolator's search needs. |
| ChartModel.GeneratedQueryProperties | src/chartdatamodel.cpp:110-113 | On the generated table the point query never falls as the speed rises. At 50·k RPM it returns row k's median exactly. |
| ChartModel.LiveFlowCanExceedFlowAxis | src/chartdatamodel.cpp:117-122 | At 6000 RPM a draw of 0.99 yields a live flow above the advertised flow maximum of 50. |
| ChartModel.UpdateStoresJitteredFlow | src/chartdatamodel.cpp:117-125 | After a flow update the stored flow is always the fresh draw. |
| ChartModel.EcoModeIffNegativeJitter | src/chartdatamodel.cpp:121-129 | On the generated table, whenever the flow changes, eco mode holds exactly when the draw is below one half (negative jitter). |
| ChartModel.UpdatePreservesValid | src/chartdatamodel.cpp:115-138 | A flow update keeps the model invariant. |
| ChartModel.SetCurrentRpmPreservesValid | src/chartdatamodel.cpp:54-62 | A speed write keeps the invariant, so the stored speed never leaves [0, 6000]. |
| ChartModel.GenerateSampleDataPreservesValid | src/chartdatamodel.cpp:64-93 | A table rebuild keeps the model invariant. |
| ChartModel.SetCurrentRpmRepeatInRange | src/chartdatamodel.cpp:54-59 | Writing the same in-range speed twice: the second write changes nothing and emits nothing. |
| ChartModel.SetCurrentRpmRepeatOutOfRange | src/chartdatamodel.cpp:54-62 | Writing the same speed above 6000 twice stores 6000 both times. The second write still redraws the flow at 6000 and emits the speed notification, because the ignore test uses the unclamped argument. |
| ChartModel.SetCurrentRpmFlowNearInterpolation | src/chartdatamodel.cpp:54-62 | On the generated table, after a speed write that is not ignored, the stored flow is within ±15 % of the interpolated flow at the new speed, hence in [0.408, 1.15·44.24]. |
| ChartModel.GenerateSampleDataFlowNearInterpolation | src/chartdatamodel.cpp:64-93 | After a table rebuild, whatever the flow was before, the stored flow is within ±15 % of the interpolated flow at the stored speed, hence in [0.408, 1.15·44.24]. |
| ChartModel.RunPreservesValid | src/chartdatamodel.cpp:54-93 | Any sequence of speed writes and table rebuilds from a valid model ends in a valid one. So the speed stays in [0, 6000], the table is empty or the generated one, and the flow stays in [0, 1.15·44.24]. |
| ChartModel.UpdateKeepsFlowNear | src/chartdatamodel.cpp:115-125 | On a valid model, after a flow update the stored flow is within ±15 % of the interpolated flow at the stored speed, whatever it was before. |
| ChartModel.RunKeepsFlowNear | src/chartdatamodel.cpp:54-125 | Along any sequence of speed writes and table rebuilds from a valid model whose flow tracks the interpolation, the flow stays within ±15 % of the interpolated flow at the stored speed after every call. From the constructed model this holds for every run. |

## Left out

- The chart renderer (src/chartrenderer.cpp, src/chartrenderer.h) and the application entry point (src/main.cpp) are not part of this model. They are drawing and start-up code.
- Qt model machinery is not modelled. Signal emission is recorded as a list of `Signal` values. The begin/end reset pair is recorded as a single `ModelReset`. `QVariant` boxing becomes `Option<real>` and `map<string, real>`. Role names are strings instead of byte arrays.
- `QModelIndex` is reduced to "invalid or a row". The lookup ignores the column and the owning model.
- The random source is replaced by the draw `g ∈ [0, 1)`, passed as a parameter.
- IEEE double rounding is not modelled. Values are exact reals, and `qPow(x, 2)` is `x·x`.
- The tolerance of the toolkit's fuzzy comparison (about one part in 10^12) is not modelled. Two values count as the same only when they are equal.
- The property getters are not separate members. They return the `Model` fields and the `ChartTypes` axis constants unchanged.
