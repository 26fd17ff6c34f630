/**
  Concrete inputs worked through the estimator: the hand-computed three-subject
  table, a table where both causes happen at the same time, and a table without
  competing events.
*/
module Scenarios {
  import opened Values
  import opened Grouping
  import opened Survival
  import opened SurvivalProperties
  import opened EstimateProperties

  /** The expected result for times [1, 2, 3], codes [1, 2, 0], unit weights:
      survival 2/3, 1/3, 1/3; incidence of cause 1 stays at 1/3; incidence of
      cause 2 is 0, then 1/3, 1/3. */
  ghost predicate ThreeSubjectsExpected(rows: seq<Row>)
  {
    && |rows| == 3
    && rows[0].time == 1.0 && rows[1].time == 2.0 && rows[2].time == 3.0
    && rows[0].atRisk == 3.0 && rows[1].atRisk == 2.0 && rows[2].atRisk == 1.0
    && rows[0].overallSurvival == Finite(2.0 / 3.0)
    && rows[1].overallSurvival == Finite(1.0 / 3.0)
    && rows[2].overallSurvival == Finite(1.0 / 3.0)
    && rows[0].cif1 == Finite(1.0 / 3.0) && rows[1].cif1 == Finite(1.0 / 3.0) && rows[2].cif1 == Finite(1.0 / 3.0)
    && rows[0].cif2 == Finite(0.0) && rows[1].cif2 == Finite(1.0 / 3.0) && rows[2].cif2 == Finite(1.0 / 3.0)
  }

  /** The three subjects: one event of cause 1 at time 1, one of cause 2 at
      time 2 and one censored at time 3, all of weight 1. */
  function ThreeSubjectsTable(): (obs: seq<Observation>)
    ensures |obs| == 3
  {
    [Observation(1.0, 1, 1.0), Observation(2.0, 2, 1.0), Observation(3.0, 0, 1.0)]
  }

  /** The weighted counts of the three subjects' groups. */
  lemma ThreeSubjectsCounts()
    ensures var obs := ThreeSubjectsTable();
      && WeightedCount(obs, 1.0, 0) == 0.0 && WeightedCount(obs, 1.0, 1) == 1.0 && WeightedCount(obs, 1.0, 2) == 0.0
      && WeightedCount(obs, 2.0, 0) == 0.0 && WeightedCount(obs, 2.0, 1) == 0.0 && WeightedCount(obs, 2.0, 2) == 1.0
      && WeightedCount(obs, 3.0, 0) == 1.0 && WeightedCount(obs, 3.0, 1) == 0.0 && WeightedCount(obs, 3.0, 2) == 0.0
  {
    var obs := ThreeSubjectsTable();
    assert obs[1..] == [obs[1], obs[2]] && obs[1..][1..] == [obs[2]] && obs[1..][1..][1..] == [];
  }

  /** Any table of the three subjects' groups that follows the scans has the
      expected values. */
  lemma ThreeSubjectsRows(rows: seq<Row>)
    requires Recurrences(rows)
    requires GroupedBy(rows, [1.0, 2.0, 3.0], ThreeSubjectsTable())
    ensures ThreeSubjectsExpected(rows)
  {
    ThreeSubjectsCounts();
    assert RiskRecurrence(rows, 2);
    assert RiskRecurrence(rows, 1);
    assert RiskRecurrence(rows, 0);
    EstimateStep(rows, 0, 1.0, 0.0, 3.0, 1.0, 0.0, 0.0);
    EstimateStep(rows, 1, 0.0, 1.0, 2.0, 2.0 / 3.0, 1.0 / 3.0, 0.0);
    EstimateStep(rows, 2, 0.0, 0.0, 1.0, 1.0 / 3.0, 1.0 / 3.0, 1.0 / 3.0);
  }

  /** `weighted_aalen_johansen([1, 2, 3], [1, 2, 0], [1.0, 1.0, 1.0])`. */
  lemma ThreeSubjects()
    ensures var r := WeightedAalenJohansen([1.0, 2.0, 3.0], [1, 2, 0], [1.0, 1.0, 1.0]);
      r.Success? && ThreeSubjectsExpected(r.value)
  {
    var obs := Zip([1.0, 2.0, 3.0], [1, 2, 0], [1.0, 1.0, 1.0]);
    assert obs == ThreeSubjectsTable();
    assert TimeColumn(obs) == [1.0, 2.0, 3.0];
    SortedUnique(DistinctTimes(TimeColumn(obs)), [1.0, 2.0, 3.0]);
    GroupedRows(obs);
    ThreeSubjectsRows(Estimate(obs));
  }

  /** The expected result for two subjects failing at time 1, one from each
      cause: one row, both in the risk set, hazards 1/2 each, nobody survives
      and each incidence is 1/2. */
  ghost predicate TiedCausesExpected(rows: seq<Row>)
  {
    && |rows| == 1
    && rows[0].time == 1.0 && rows[0].atRisk == 2.0
    && rows[0].csh1 == Finite(0.5) && rows[0].csh2 == Finite(0.5)
    && rows[0].conditionalSurvival == Finite(0.0) && rows[0].overallSurvival == Finite(0.0)
    && rows[0].cif1 == Finite(0.5) && rows[0].cif2 == Finite(0.5)
  }

  /** Any table of the two tied observations' group that follows the scans has
      the expected values. */
  lemma TiedCausesRows(rows: seq<Row>)
    requires Recurrences(rows)
    requires GroupedBy(rows, [1.0], [Observation(1.0, 1, 1.0), Observation(1.0, 2, 1.0)])
    ensures TiedCausesExpected(rows)
  {
    assert RiskRecurrence(rows, 0);
    assert rows[0].atRisk == 2.0;
    assert EstimateRecurrence(rows, 0);
  }

  /** `weighted_aalen_johansen([1, 1], [1, 2], [1.0, 1.0])`. */
  lemma TiedCauses()
    ensures var r := WeightedAalenJohansen([1.0, 1.0], [1, 2], [1.0, 1.0]);
      r.Success? && TiedCausesExpected(r.value)
  {
    var obs := Zip([1.0, 1.0], [1, 2], [1.0, 1.0]);
    assert obs == [Observation(1.0, 1, 1.0), Observation(1.0, 2, 1.0)];
    assert TimeColumn(obs) == [1.0, 1.0];
    SortedUnique(DistinctTimes(TimeColumn(obs)), [1.0]);
    GroupedRows(obs);
    TiedCausesRows(Estimate(obs));
  }

  /** Without competing events (times 1..5, codes [1, 0, 1, 1, 0], unit
      weights): the incidence of cause 2 is 0 on every row, and the incidence
      of cause 1 lies in [0, 1] on every row. */
  lemma NoCompetingScenario()
    ensures var r := WeightedAalenJohansen([1.0, 2.0, 3.0, 4.0, 5.0], [1, 0, 1, 1, 0], [1.0, 1.0, 1.0, 1.0, 1.0]);
      && r.Success?
      && forall i :: 0 <= i < |r.value| ==>
           && r.value[i].cif2 == Finite(0.0)
           && r.value[i].cif1.Finite? && 0.0 <= r.value[i].cif1.x <= 1.0
  {
    var obs := Zip([1.0, 2.0, 3.0, 4.0, 5.0], [1, 0, 1, 1, 0], [1.0, 1.0, 1.0, 1.0, 1.0]);
    assert forall j :: 0 <= j < |obs| ==> obs[j].weight == 1.0 && obs[j].code in {0, 1};
    SingleCauseEstimate(obs);
  }
}
