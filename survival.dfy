/**
  The weighted Aalen-Johansen estimator (`weighted_aalen_johansen`,
  `src/weightedstate/survival.py`).

  The estimator is one fixed pipeline of whole-column derivations over the
  table of distinct event times. `Tabulate` follows that pipeline column by
  column. `Recurrences` states the same table row by row, as a single scan
  with running accumulators; `TabulateRecurrences` proves that the two agree.
  Every property of the estimates is then proved from `Recurrences`.
*/
module Survival {
  import opened Values
  import opened Scans
  import opened Grouping

  /** One row of the result table: one distinct time, with every derived column. */
  datatype Row = Row(
    time: real,
    count0: real,
    count1: real,
    count2: real,
    eventsAtTimes: real,
    atRisk: real,
    csh1: Value,
    csh2: Value,
    conditionalSurvival: Value,
    overallSurvival: Value,
    previousOverallSurvival: Value,
    transitionProb1: Value,
    transitionProb2: Value,
    cif1: Value,
    cif2: Value)

  /** Building the input table from three columns of different lengths fails. */
  datatype EstimateError = ShapeMismatch(timesLength: nat, codesLength: nat, weightsLength: nat)

  datatype Result<T> = Success(value: T) | Failure(error: EstimateError)

  /** The input table: row i is (times[i], codes[i], weights[i]). */
  function Zip(times: seq<real>, codes: seq<int>, weights: seq<real>): (obs: seq<Observation>)
    requires |times| == |codes| == |weights|
    ensures |obs| == |times|
    ensures forall i :: 0 <= i < |obs| ==>
              obs[i].time == times[i] && obs[i].code == codes[i] && obs[i].weight == weights[i]
  {
    seq(|times|, i requires 0 <= i < |times| => Observation(times[i], codes[i], weights[i]))
  }

  /** The weighted count of code `k` for each of the given times. */
  function Counts(obs: seq<Observation>, times: seq<real>, k: int): seq<real>
  {
    seq(|times|, i requires 0 <= i < |times| => WeightedCount(obs, times[i], k))
  }

  /** `events_at_times`: the three counts added up, row by row. */
  function EventsAtTimes(c0: seq<real>, c1: seq<real>, c2: seq<real>): (r: seq<real>)
    requires |c1| == |c0| && |c2| == |c0|
    ensures |r| == |c0|
  {
    seq(|c0|, i requires 0 <= i < |c0| => c0[i] + c1[i] + c2[i])
  }

  /** `csh_k`: a cause-specific hazard, the count divided by the risk set. */
  function Hazards(counts: seq<real>, atRisk: seq<real>): (r: seq<Value>)
    requires |atRisk| == |counts|
    ensures |r| == |counts|
    ensures forall i :: 0 <= i < |r| ==> (r[i].Finite? <==> atRisk[i] != 0.0)
  {
    seq(|counts|, i requires 0 <= i < |counts| => Div(counts[i], atRisk[i]))
  }

  /** `conditional_survival`: `1 - csh_1 - csh_2`, row by row. */
  function ConditionalSurvival(csh1: seq<Value>, csh2: seq<Value>): (r: seq<Value>)
    requires |csh2| == |csh1|
    ensures |r| == |csh1|
    ensures forall i :: 0 <= i < |r| ==> (r[i].Finite? <==> csh1[i].Finite? && csh2[i].Finite?)
  {
    seq(|csh1|, i requires 0 <= i < |csh1| => Sub(Sub(Finite(1.0), csh1[i]), csh2[i]))
  }

  /** `transition_prob_k`: a hazard times the survival before that row. */
  function TransitionProbs(csh: seq<Value>, previous: seq<Value>): (r: seq<Value>)
    requires |previous| == |csh|
    ensures |r| == |csh|
    ensures forall i :: 0 <= i < |r| ==> (r[i].Finite? <==> csh[i].Finite? && previous[i].Finite?)
  {
    seq(|csh|, i requires 0 <= i < |csh| => Mul(csh[i], previous[i]))
  }

  /** Every stage after the grouping, one column at a time, from the sorted
      distinct times and their three weighted counts. */
  function Tabulate(times: seq<real>, c0: seq<real>, c1: seq<real>, c2: seq<real>): (r: seq<Row>)
    requires |c0| == |times| && |c1| == |times| && |c2| == |times|
    ensures |r| == |times|
  {
    var n := |times|;
    var events := EventsAtTimes(c0, c1, c2);
    var atRisk := ReverseCumSum(events);
    var csh1 := Hazards(c1, atRisk);
    var csh2 := Hazards(c2, atRisk);
    var conditional := ConditionalSurvival(csh1, csh2);
    var survival := CumProd(conditional);
    var previous := Shift(survival, Finite(1.0));
    var tp1 := TransitionProbs(csh1, previous);
    var tp2 := TransitionProbs(csh2, previous);
    var cif1 := CumSum(tp1);
    var cif2 := CumSum(tp2);
    seq(n, i requires 0 <= i < n =>
      Row(times[i], c0[i], c1[i], c2[i], events[i], atRisk[i], csh1[i], csh2[i], conditional[i],
          survival[i], previous[i], tp1[i], tp2[i], cif1[i], cif2[i]))
  }

  /** The estimate for a table of observations. */
  function Estimate(obs: seq<Observation>): (r: seq<Row>)
    ensures |r| == |DistinctTimes(TimeColumn(obs))|
  {
    var times := DistinctTimes(TimeColumn(obs));
    Tabulate(times, Counts(obs, times, 0), Counts(obs, times, 1), Counts(obs, times, 2))
  }

  /** `weighted_aalen_johansen(times, reals, weights)`: columns of different
      lengths cannot form a table; otherwise the estimate of that table. */
  function WeightedAalenJohansen(times: seq<real>, codes: seq<int>, weights: seq<real>): (r: Result<seq<Row>>)
    ensures r.Failure? <==> !(|times| == |codes| == |weights|)
    ensures r.Failure? ==> r.error == ShapeMismatch(|times|, |codes|, |weights|)
  {
    if |times| == |codes| == |weights| then Success(Estimate(Zip(times, codes, weights)))
    else Failure(ShapeMismatch(|times|, |codes|, |weights|))
  }

  /** The risk set of row i, stated as one step of a backward scan: this row's
      events added to the next row's risk set (to 0 after the last row). */
  ghost predicate RiskRecurrence(rows: seq<Row>, i: nat)
    requires i < |rows|
  {
    var row := rows[i];
    && row.eventsAtTimes == row.count0 + row.count1 + row.count2
    && row.atRisk == row.eventsAtTimes + (if i + 1 < |rows| then rows[i + 1].atRisk else 0.0)
  }

  /** The estimates of row i, stated as one step of a forward scan: the hazards
      divide this row's counts by its risk set, and survival and the two
      incidences update the previous row's values (1, 0 and 0 before the first
      row). */
  ghost predicate EstimateRecurrence(rows: seq<Row>, i: nat)
    requires i < |rows|
  {
    var row := rows[i];
    && row.csh1 == Div(row.count1, row.atRisk)
    && row.csh2 == Div(row.count2, row.atRisk)
    && row.conditionalSurvival == Sub(Sub(Finite(1.0), row.csh1), row.csh2)
    && row.previousOverallSurvival == (if i == 0 then Finite(1.0) else rows[i - 1].overallSurvival)
    && row.overallSurvival == Mul(row.previousOverallSurvival, row.conditionalSurvival)
    && row.transitionProb1 == Mul(row.csh1, row.previousOverallSurvival)
    && row.transitionProb2 == Mul(row.csh2, row.previousOverallSurvival)
    && row.cif1 == Add(if i == 0 then Finite(0.0) else rows[i - 1].cif1, row.transitionProb1)
    && row.cif2 == Add(if i == 0 then Finite(0.0) else rows[i - 1].cif2, row.transitionProb2)
  }

  /** Every row of the table is one step of each scan. */
  ghost predicate Recurrences(rows: seq<Row>)
  {
    && (forall i :: 0 <= i < |rows| ==> RiskRecurrence(rows, i))
    && (forall i :: 0 <= i < |rows| ==> EstimateRecurrence(rows, i))
  }

  /** The column pipeline and the row-by-row scan compute the same table: one
      row per time, carrying that time and its counts, and every other column
      as the scan defines it. */
  lemma TabulateRecurrences(times: seq<real>, c0: seq<real>, c1: seq<real>, c2: seq<real>)
    requires |c0| == |times| && |c1| == |times| && |c2| == |times|
    ensures var rows := Tabulate(times, c0, c1, c2);
      && |rows| == |times|
      && (forall i :: 0 <= i < |rows| ==>
            rows[i].time == times[i] && rows[i].count0 == c0[i]
            && rows[i].count1 == c1[i] && rows[i].count2 == c2[i])
      && Recurrences(rows)
  {
    forall i | 0 <= i < |times|
      ensures RiskRecurrence(Tabulate(times, c0, c1, c2), i)
      ensures EstimateRecurrence(Tabulate(times, c0, c1, c2), i)
    {
      TabulateRiskRow(times, c0, c1, c2, i);
      TabulateEstimateRow(times, c0, c1, c2, i);
    }
  }

  /** The risk-set part of one row of `TabulateRecurrences`. */
  lemma TabulateRiskRow(times: seq<real>, c0: seq<real>, c1: seq<real>, c2: seq<real>, i: nat)
    requires |c0| == |times| && |c1| == |times| && |c2| == |times|
    requires i < |times|
    ensures RiskRecurrence(Tabulate(times, c0, c1, c2), i)
  {
    var rows := Tabulate(times, c0, c1, c2);
    var events := EventsAtTimes(c0, c1, c2);
    var atRisk := ReverseCumSum(events);
    assert rows[i].eventsAtTimes == events[i] && rows[i].atRisk == atRisk[i];
    ReverseCumSumStep(events, i);
    if i + 1 < |times| {
      assert rows[i + 1].atRisk == atRisk[i + 1];
    }
  }

  /** The estimate part of one row of `TabulateRecurrences`. */
  lemma TabulateEstimateRow(times: seq<real>, c0: seq<real>, c1: seq<real>, c2: seq<real>, i: nat)
    requires |c0| == |times| && |c1| == |times| && |c2| == |times|
    requires i < |times|
    ensures EstimateRecurrence(Tabulate(times, c0, c1, c2), i)
  {
    var rows := Tabulate(times, c0, c1, c2);
    var events := EventsAtTimes(c0, c1, c2);
    var atRisk := ReverseCumSum(events);
    var csh1 := Hazards(c1, atRisk);
    var csh2 := Hazards(c2, atRisk);
    var conditional := ConditionalSurvival(csh1, csh2);
    var survival := CumProd(conditional);
    var previous := Shift(survival, Finite(1.0));
    var tp1 := TransitionProbs(csh1, previous);
    var tp2 := TransitionProbs(csh2, previous);
    var cif1 := CumSum(tp1);
    var cif2 := CumSum(tp2);
    var row := rows[i];
    assert row == Row(times[i], c0[i], c1[i], c2[i], events[i], atRisk[i], csh1[i], csh2[i],
      conditional[i], survival[i], previous[i], tp1[i], tp2[i], cif1[i], cif2[i]);
    assert row.previousOverallSurvival == (if i == 0 then Finite(1.0) else rows[i - 1].overallSurvival);
    assert row.overallSurvival == Mul(row.previousOverallSurvival, row.conditionalSurvival) by {
      CumProdStep(conditional, i);
    }
    assert row.cif1 == Add(if i == 0 then Finite(0.0) else rows[i - 1].cif1, row.transitionProb1) by {
      CumSumStep(tp1, i);
    }
    assert row.cif2 == Add(if i == 0 then Finite(0.0) else rows[i - 1].cif2, row.transitionProb2) by {
      CumSumStep(tp2, i);
    }
  }
}
