# Weighted Aalen-Johansen estimator in Dafny

This project models `weighted_aalen_johansen(times, reals, weights)` from
`src/weightedstate/survival.py` and proves what it promises. The function
estimates, for time-to-event data with case weights, two things:

- the overall survival;
- the cumulative incidence of two competing causes (code 1 is the event of
  interest, code 2 the competing event, code 0 censored).

The source is one pipeline of whole-column derivations:

1. group the observations by distinct time, sorted ascending, with the weighted
   count of each code;
2. add the three counts into the events at each time;
3. a reverse running sum gives the risk set;
4. each count divided by the risk set gives the cause-specific hazard;
5. `1 - csh_1 - csh_2` gives the conditional survival;
6. a running product gives the overall survival;
7. a shift by one row (filled with 1) gives the previous survival;
8. hazard times previous survival gives the transition probabilities;
9. a running sum gives the cumulative incidences.

The model is pure, like the source:

- `values.dfy` (`Values`): the numeric cells. Numbers are exact `real`s. A
  cell after the hazard division is `Finite(x)` or `NonFinite`, because a zero
  risk set makes the division produce NaN or an infinity rather than fail.
- `scans.dfy` (`Scans`): `cum_sum`, `cum_sum(reverse=True)`, `cum_prod` and
  `shift`. Each of the three cumulative scans is proved equal to a fold over a
  prefix or suffix, and to a one-row recurrence. `shift` is specified row by
  row.
- `grouping.dfy` (`Grouping`): observations, the sorted distinct times, the
  weighted counts, and a reference definition of the risk set (the weight of
  everybody with code 0, 1 or 2 observed at or after a time).
- `survival.dfy` (`Survival`): the pipeline column by column (`Tabulate`), the
  estimator (`Estimate`, `WeightedAalenJohansen`), and the same table stated
  row by row as a backward and a forward scan (`Recurrences`).
  `TabulateRecurrences` proves that the two agree.
- `properties.dfy` (`SurvivalProperties`): what every table that follows the
  scans satisfies:
  - partition of unity;
  - bounds and monotonicity;
  - propagation of a non-finite cell;
  - the single-cause reduction;
  - invariance under scaling the counts.
- `estimates.dfy` (`EstimateProperties`): the same guarantees stated on the
  observations:
  - one row per distinct time, in ascending order;
  - the risk set is everybody with code 0, 1 or 2 observed at or after that
    row's time;
  - the result does not depend on the order of the observations;
  - unknown codes count nowhere;
  - scaling the weights by a non-zero factor changes no estimate.
- `scenarios.dfy` (`Scenarios`): the hand-computed three-subject example, the
  tie of both causes at one time, and a table without competing events.

A zero risk set makes the float division at `survival.py:47-48` give NaN
(`0/0`) or an infinity (`c/0` with `c != 0`, of the sign of `c`) instead of
failing. The model treats all of these as `NonFinite`.

## Model

| member | source | states |
|---|---|---|
| Values.Add | src/weightedstate/survival.py:77-78 | a sum is finite exactly when both operands are, and then it is their exact sum |
| Values.Sub | src/weightedstate/survival.py:52 | a difference is finite exactly when both operands are, and then it is the exact difference |
| Values.Mul | src/weightedstate/survival.py:69-70 | a product is finite exactly when both factors are |
| Values.Div | src/weightedstate/survival.py:47-48 | a hazard is finite exactly when its risk set is not zero, and then it times the risk set gives back the count, that is, it is c/r |
| Scans.CumSum | src/weightedstate/survival.py:77-78 | `cum_sum` keeps the column's length; row i is the sum of rows 0..i (`CumSumPrefix`) and adds its own cell to the previous total (`CumSumStep`) |
| Scans.CumProd | src/weightedstate/survival.py:58 | `cum_prod` keeps the column's length; row i is the product of rows 0..i (`CumProdPrefix`) and multiplies the previous product by its own cell (`CumProdStep`) |
| Scans.ReverseCumSum | src/weightedstate/survival.py:41 | `cum_sum(reverse=True)` keeps the column's length; row i is the sum of rows i to the end (`ReverseCumSumSuffix`) and adds its own cell to the next row's total (`ReverseCumSumStep`) |
| Scans.CumSumPrefix | src/weightedstate/survival.py:77-78 | row i of the running sum is the sum of rows 0..i |
| Scans.CumProdPrefix | src/weightedstate/survival.py:58 | row i of the running product is the product of rows 0..i |
| Scans.ReverseCumSumSuffix | src/weightedstate/survival.py:41 | row i of the reverse running sum is the sum of rows i to the end |
| Scans.CumSumStep | src/weightedstate/survival.py:77-78 | each row of the running sum adds its own cell to the previous row's total, to 0 on the first row |
| Scans.CumProdStep | src/weightedstate/survival.py:58 | each row of the running product multiplies the previous row's product, 1 on the first row, by its own cell |
| Scans.ReverseCumSumStep | src/weightedstate/survival.py:41 | each row of the reverse running sum adds its own cell to the next row's total, to 0 on the last row |
| Scans.Shift | src/weightedstate/survival.py:63 | the shifted column keeps its length, starts with the fill value, and row i holds row i-1 |
| Grouping.Insert | src/weightedstate/survival.py:23-31 | inserting a time into a sorted, repeat-free sequence keeps it sorted and repeat-free, and adds exactly that time |
| Grouping.DistinctTimes | src/weightedstate/survival.py:23-31 | the group keys are strictly increasing and are exactly the values of the time column |
| Grouping.WeightedCount | src/weightedstate/survival.py:26-28 | `count_k` at time t, the summed weight of the observations at t with code k; its properties are `WeightedCountAppend`, `WeightedCountPermutation`, `WeightedCountSingle`, `WeightedCountNonNegative`, `WeightedCountScaled`, `UnknownCodeCountsNowhere` and `NoCode2CountsZero` |
| Grouping.AtOrAfterWeight | src/weightedstate/survival.py:41 | the reference risk set at u, the summed weight of the known-code observations at or after u; `EstimateProperties.AtRiskIsRiskSet` proves the reverse running sum equal to it, and `AtOrAfterWeightNonNegative` and `AtOrAfterWeightPositive` bound it |
| Grouping.SortedUnique | src/weightedstate/survival.py:23-31 | two strictly increasing sequences with the same elements are equal, so the sorted keys are unique |
| Grouping.SortedCardinality | src/weightedstate/survival.py:23-31 | a strictly increasing sequence has as many elements as distinct values |
| Grouping.WeightedCountAppend | src/weightedstate/survival.py:26-28 | a count over two tables joined together is the sum of the two counts |
| Grouping.WeightedCountPermutation | src/weightedstate/survival.py:26-28 | a count does not depend on the order of the observations |
| Grouping.WeightedCountSingle | src/weightedstate/survival.py:26-28 | a one-observation table counts that observation's weight when its time and code match, and 0 otherwise |
| Grouping.WeightedCountNonNegative | src/weightedstate/survival.py:26-28 | with non-negative weights every count is non-negative |
| Grouping.WeightedCountScaled | src/weightedstate/survival.py:26-28 | multiplying every weight by c multiplies every count by c |
| Grouping.UnknownCodeCountsNowhere | src/weightedstate/survival.py:26-28 | an observation with a code other than 0, 1, 2 changes none of the three counts |
| Grouping.NoCode2CountsZero | src/weightedstate/survival.py:28 | without code 2 every count of code 2 is 0 |
| Grouping.WeightOverSplit | src/weightedstate/survival.py:36-41 | summing the groups of several times splits into the first observation's share plus the rest's |
| Grouping.WeightOverSingle | src/weightedstate/survival.py:36-41 | over repeat-free times one observation is counted once if its time is among them and its code is known, else not at all |
| Grouping.WeightOverRiskSet | src/weightedstate/survival.py:36-41 | summing the groups of a run of times gives the risk set when those times are exactly the ones at or after u |
| Grouping.WeightOverEmpty | src/weightedstate/survival.py:36-41 | no observations carry no weight |
| Grouping.AtOrAfterWeightNonNegative | src/weightedstate/survival.py:41 | with non-negative weights a risk set is never negative |
| Grouping.AtOrAfterWeightPositive | src/weightedstate/survival.py:41 | with non-negative weights, a risk set holding one observation of positive weight and known code is positive |
| Survival.Zip | src/weightedstate/survival.py:19 | the input table's row i is (times[i], reals[i], weights[i]) |
| Survival.EventsAtTimes | src/weightedstate/survival.py:36 | one total per row; `TabulateRiskRow` states it is the three counts added up |
| Survival.Hazards | src/weightedstate/survival.py:47-48 | one hazard per row, finite exactly when that row's risk set is not zero; its value is count/risk set by `Values.Div` |
| Survival.ConditionalSurvival | src/weightedstate/survival.py:52 | one cell per row, finite exactly when both hazards of the row are |
| Survival.TransitionProbs | src/weightedstate/survival.py:69-70 | one cell per row, finite exactly when the hazard and the previous survival of the row are |
| Survival.Tabulate | src/weightedstate/survival.py:35-80 | one row per distinct time; `TabulateRecurrences` states every column of every row as the backward and forward scans define it |
| Survival.Estimate | src/weightedstate/survival.py:19-80 | one row per sorted distinct time; `GroupedRows` gives the times, counts and scans, `AtRiskIsRiskSet` the risk sets, `EstimateOrderInvariant` and `EstimateScaleInvariant` the invariances |
| Survival.WeightedAalenJohansen | src/weightedstate/survival.py:19 | columns of different lengths fail with a shape error naming the three lengths; equal lengths always succeed |
| Survival.TabulateRecurrences | src/weightedstate/survival.py:35-80 | the column pipeline has one row per time with its counts, and every row satisfies the backward risk-set scan and the forward estimate scan |
| Survival.TabulateRiskRow | src/weightedstate/survival.py:35-42 | row i's events are the three counts added up, and its risk set is its events plus the next row's risk set |
| Survival.TabulateEstimateRow | src/weightedstate/survival.py:45-80 | row i's hazards, conditional survival, survival, previous survival, transition probabilities and incidences update the previous row's as the forward scan says |
| SurvivalProperties.PartitionOfUnity | src/weightedstate/survival.py:45-80 | while no risk set so far is zero, survival and the two incidences are finite and add up to exactly 1 |
| SurvivalProperties.EstimateStep | src/weightedstate/survival.py:45-80 | at a non-zero risk set r, survival becomes s(1 - c1/r - c2/r) and incidence k grows by (ck/r)s, from s = 1 and incidences 0 before the first row |
| SurvivalProperties.NonFinitePropagates | src/weightedstate/survival.py:45-80 | a zero risk set makes that row's hazards and conditional survival non-finite, and survival, transition probabilities and incidences non-finite from that row on |
| SurvivalProperties.AtRiskNonNegative | src/weightedstate/survival.py:41 | with non-negative counts the risk set is at least the row's events, and those are at least 0 |
| SurvivalProperties.AtRiskBounds | src/weightedstate/survival.py:41 | with non-negative counts the risk set never grows from one time to the next and holds at least count_1 + count_2 |
| SurvivalProperties.HazardBounds | src/weightedstate/survival.py:47-52 | two hazards whose counts fit in a positive risk set are each at least 0 and together at most 1 |
| SurvivalProperties.EstimateBounds | src/weightedstate/survival.py:45-80 | with non-negative counts and positive risk sets, survival and both incidences lie in [0, 1], survival never rises and the incidences never fall |
| SurvivalProperties.NoCompetingEvents | src/weightedstate/survival.py:45-80 | without events of cause 2, while no risk set so far is zero, the cause-2 incidence stays 0 and the cause-1 incidence is 1 minus survival |
| SurvivalProperties.DivScaled | src/weightedstate/survival.py:47-48 | scaling a count and its risk set by the same non-zero factor leaves the hazard unchanged |
| SurvivalProperties.ScaledRiskSets | src/weightedstate/survival.py:35-42 | counts scaled by c give events and risk sets scaled by c |
| SurvivalProperties.ScaledHazards | src/weightedstate/survival.py:47-48 | counts scaled by a non-zero c give the same hazards |
| SurvivalProperties.ScaledEstimatesAgree | src/weightedstate/survival.py:45-80 | counts scaled by a non-zero c give the same hazards, conditional and overall survival, transition probabilities and incidences |
| SurvivalProperties.HazardsAt | src/weightedstate/survival.py:47-48 | each hazard of a row is its count divided by its risk set |
| EstimateProperties.DistinctTimesCount | src/weightedstate/survival.py:23-31 | there are as many group keys as distinct values in the time column |
| EstimateProperties.ObservedTimesCovered | src/weightedstate/survival.py:23-31 | every observation's time is one of the group keys |
| EstimateProperties.GroupedRows | src/weightedstate/survival.py:22-32 | one row per distinct observed time, in strictly ascending order; each row's counts are its time's weighted sums by code; the rows follow both scans |
| EstimateProperties.RowsAreObservedTimes | src/weightedstate/survival.py:22-32 | every row's time is observed, and every observation has a row at its time |
| EstimateProperties.EmptyInput | tests/test_survival.py:41-48 | three empty columns give an empty table, not an error |
| EstimateProperties.AtRiskSumsGroups | src/weightedstate/survival.py:35-42 | the risk set of row i is the known-code weight of the groups at row i's time and every later time |
| EstimateProperties.RowRiskSet | src/weightedstate/survival.py:35-42 | over sorted times covering every observation, the risk set of row i is the known-code weight observed at or after row i's time |
| EstimateProperties.AtRiskIsRiskSet | src/weightedstate/survival.py:35-42 | every row's risk set is the summed weight of the known-code observations at or after that row's time |
| EstimateProperties.PositiveRiskSets | src/weightedstate/survival.py:35-42 | with positive weights and known codes every risk set is positive |
| EstimateProperties.RowRiskPositive | src/weightedstate/survival.py:35-42 | with positive weights and known codes, the risk set of any one row is positive |
| EstimateProperties.SameTimes | src/weightedstate/survival.py:23-31 | rearranged observations give the same group keys |
| EstimateProperties.EstimateOrderInvariant | src/weightedstate/survival.py:22-32 | any rearrangement of the same observations gives the same table |
| EstimateProperties.UnknownCodeIgnored | src/weightedstate/survival.py:26-28 | adding an observation with an unknown code at an existing time changes nothing in the table |
| EstimateProperties.ScaledTables | src/weightedstate/survival.py:26-80 | counting the same observations with weights scaled by a non-zero c scales counts, events and risk sets by c and leaves hazards, conditional, overall and previous survival, transition probabilities and incidences unchanged |
| EstimateProperties.EstimateScaleInvariant | src/weightedstate/survival.py:26-80 | scaling every weight by a non-zero c scales counts, events and risk sets by c and leaves hazards, conditional, overall and previous survival, transition probabilities and incidences unchanged |
| EstimateProperties.CountsNonNegative | src/weightedstate/survival.py:26-28 | non-negative weights give non-negative counts in every row |
| EstimateProperties.EstimatePartitionOfUnity | src/weightedstate/survival.py:45-80 | for any weights, while no risk set so far is zero, survival and both incidences are finite and add up to exactly 1 |
| EstimateProperties.EstimateGuarantees | src/weightedstate/survival.py:35-80 | with non-negative weights and positive risk sets so far: partition of unity, all three estimates in [0, 1], survival non-increasing, incidences non-decreasing, risk sets non-increasing |
| EstimateProperties.NoCompetingEventsEstimate | src/weightedstate/survival.py:45-80 | without code 2 and with non-zero risk sets so far, the cause-2 incidence is 0 and the cause-1 incidence is 1 minus survival |
| EstimateProperties.SingleCauseEstimate | tests/test_survival.py:18-29 | with positive weights and only codes 0 and 1, on every row the cause-2 incidence is 0 and the cause-1 incidence is 1 minus survival and lies in [0, 1] |
| Scenarios.ThreeSubjectsCounts | tests/test_survival.py:54-56 | the nine weighted counts of the three-subject table |
| Scenarios.ThreeSubjectsRows | tests/test_survival.py:60-65 | any scan table over those groups has survival 2/3, 1/3, 1/3, cause-1 incidence 1/3 throughout, and cause-2 incidence 0, 1/3, 1/3 |
| Scenarios.ThreeSubjects | tests/test_survival.py:50-73 | times [1, 2, 3], codes [1, 2, 0] and unit weights give exactly the hand-computed survival and incidences |
| Scenarios.TiedCausesRows | src/weightedstate/survival.py:22-80 | a scan table over one group of two tied events has risk set 2, hazards 1/2, conditional and overall survival 0, and incidences 1/2 |
| Scenarios.TiedCauses | src/weightedstate/survival.py:22-80 | two events at time 1, one of each cause, give one row with risk set 2, hazards 1/2, survival 0 and incidences 1/2 |
| Scenarios.NoCompetingScenario | tests/test_survival.py:18-29 | times 1 to 5, codes [1, 0, 1, 1, 0] and unit weights give cause-2 incidence 0 and cause-1 incidence in [0, 1] on every row |

## Left out

- Floating point: the model computes in exact rationals, so IEEE rounding, overflow and the tolerance of the numerical test are not modelled.
- Values.Div: NaN (from 0/0) and an infinity (from c/0) are both `NonFinite`; which of the two a cell holds is not modelled.
- Values.Mul: states only when a product is finite. Its value is the exact product of the two finite factors.
- polars data types: times are `real` whether the source column holds integers or floats; codes are `int`; weights are `real`.
- Null cells, NaN times and non-finite weights: polars Series can hold nulls, and a NaN time forms its own group. Weights are `real`, so a NaN or infinite input weight, which a Float64 column can hold, cannot be expressed. All of these are left out.
- Column names and column order of the result table: the columns are the fields of `Survival.Row`. The checks in tests/test_survival.py:6-16 and 31-39 that only look for column names or a non-null `at_risk` column are therefore not modelled as lemmas.
- Survival.WeightedAalenJohansen: the polars shape error is modelled as a `Failure` carrying the three lengths; the error's message text is not modelled.
- Negative weights are accepted, as in the source; the bounds and monotonicity lemmas require non-negative weights, and positive ones where a risk set must be non-zero.
