/**
  What the estimates promise, proved for every table that follows the
  row-by-row scan (`Survival.Recurrences`), which is every table the estimator
  produces (`Survival.TabulateRecurrences`).

  Survival and the two cumulative incidences partition the probability mass,
  survival falls and the incidences rise, all three stay within [0, 1], a zero
  risk set makes every later estimate non-finite, a table without competing
  events has no competing incidence, and scaling every weight by a non-zero
  factor changes the counts but none of the estimates.
*/
module SurvivalProperties {
  import opened Values
  import opened Survival

  /** No row up to and including row i has an empty risk set. */
  ghost predicate NonZeroRiskUpTo(rows: seq<Row>, i: nat)
  {
    forall j :: 0 <= j <= i && j < |rows| ==> rows[j].atRisk != 0.0
  }

  /** Every row up to and including row i has a positive risk set. */
  ghost predicate PositiveRiskUpTo(rows: seq<Row>, i: nat)
  {
    forall j :: 0 <= j <= i && j < |rows| ==> rows[j].atRisk > 0.0
  }

  /** Every weighted count is non-negative (as with non-negative weights). */
  ghost predicate NonNegativeCounts(rows: seq<Row>)
  {
    forall j :: 0 <= j < |rows| ==> rows[j].count0 >= 0.0 && rows[j].count1 >= 0.0 && rows[j].count2 >= 0.0
  }

  /** Partition of unity: as long as no risk set so far is empty, survival and
      the two cumulative incidences are finite and add up to exactly 1. */
  lemma {:induction false} PartitionOfUnity(rows: seq<Row>, i: nat)
    requires Recurrences(rows) && i < |rows|
    requires NonZeroRiskUpTo(rows, i)
    ensures rows[i].overallSurvival.Finite? && rows[i].cif1.Finite? && rows[i].cif2.Finite?
    ensures rows[i].overallSurvival.x + rows[i].cif1.x + rows[i].cif2.x == 1.0
  {
    assert EstimateRecurrence(rows, i);
    var row := rows[i];
    if i > 0 {
      PartitionOfUnity(rows, i - 1);
    }
    var p := row.previousOverallSurvival.x;
    var h1, h2 := row.csh1.x, row.csh2.x;
    assert row.overallSurvival.x == p * (1.0 - h1 - h2) == p - h1 * p - h2 * p;
  }

  /** The Aalen-Johansen step in closed form: at a row with risk set `r` and
      `c1`, `c2` events of each cause, after survival `s` and incidences `f1`,
      `f2` (1, 0 and 0 before the first row), survival becomes
      `s * (1 - c1/r - c2/r)` and incidence k grows by `ck/r * s`. */
  lemma EstimateStep(rows: seq<Row>, i: nat, c1: real, c2: real, r: real, s: real, f1: real, f2: real)
    requires Recurrences(rows) && i < |rows|
    requires rows[i].count1 == c1 && rows[i].count2 == c2 && rows[i].atRisk == r && r != 0.0
    requires i == 0 ==> s == 1.0 && f1 == 0.0 && f2 == 0.0
    requires i > 0 ==> rows[i - 1].overallSurvival == Finite(s)
    requires i > 0 ==> rows[i - 1].cif1 == Finite(f1) && rows[i - 1].cif2 == Finite(f2)
    ensures rows[i].overallSurvival == Finite(s * (1.0 - c1 / r - c2 / r))
    ensures rows[i].cif1 == Finite(f1 + c1 / r * s) && rows[i].cif2 == Finite(f2 + c2 / r * s)
  {
    assert EstimateRecurrence(rows, i);
  }

  /** A zero risk set at row i gives non-finite hazards there, and non-finite
      survival, transition probabilities and incidences from row i on; the
      survival carried into every later row is non-finite too. */
  lemma {:induction false} NonFinitePropagates(rows: seq<Row>, i: nat, j: nat)
    requires Recurrences(rows) && i <= j < |rows|
    requires rows[i].atRisk == 0.0
    ensures rows[i].csh1 == NonFinite && rows[i].csh2 == NonFinite
    ensures rows[i].conditionalSurvival == NonFinite
    ensures rows[j].overallSurvival == NonFinite
    ensures rows[j].transitionProb1 == NonFinite && rows[j].transitionProb2 == NonFinite
    ensures rows[j].cif1 == NonFinite && rows[j].cif2 == NonFinite
    ensures j > i ==> rows[j].previousOverallSurvival == NonFinite
    decreases j
  {
    assert EstimateRecurrence(rows, i);
    assert EstimateRecurrence(rows, j);
    if j > i {
      NonFinitePropagates(rows, i, j - 1);
    }
  }

  /** The risk set is never negative when no count is. */
  lemma {:induction false} AtRiskNonNegative(rows: seq<Row>, i: nat)
    requires Recurrences(rows) && NonNegativeCounts(rows) && i < |rows|
    ensures rows[i].atRisk >= rows[i].eventsAtTimes >= 0.0
    decreases |rows| - i
  {
    assert RiskRecurrence(rows, i);
    if i + 1 < |rows| {
      AtRiskNonNegative(rows, i + 1);
    }
  }

  /** With non-negative counts the risk set never grows from one time to the
      next, and always holds at least this row's events of either cause. */
  lemma AtRiskBounds(rows: seq<Row>, i: nat)
    requires Recurrences(rows) && NonNegativeCounts(rows) && i < |rows|
    ensures rows[i].atRisk >= rows[i].count1 + rows[i].count2
    ensures i + 1 < |rows| ==> rows[i].atRisk >= rows[i + 1].atRisk
  {
    assert RiskRecurrence(rows, i);
    AtRiskNonNegative(rows, i);
    if i + 1 < |rows| {
      AtRiskNonNegative(rows, i + 1);
    }
  }

  /** Two hazards whose counts fit in a positive risk set are each at least 0
      and together at most 1. */
  lemma HazardBounds(c1: real, c2: real, r: real)
    requires 0.0 <= c1 && 0.0 <= c2 && c1 + c2 <= r && r > 0.0
    ensures 0.0 <= c1 / r && 0.0 <= c2 / r && c1 / r + c2 / r <= 1.0
  {
    assert c1 / r + c2 / r == (c1 + c2) / r;
    assert (r - (c1 + c2)) / r >= 0.0;
    assert (r - (c1 + c2)) / r == r / r - (c1 + c2) / r;
  }

  /** Multiplying by a factor in [0, 1] keeps a number in [0, 1] from growing. */
  lemma ScaleDown(p: real, q: real)
    requires 0.0 <= p <= 1.0 && 0.0 <= q <= 1.0
    ensures 0.0 <= p * q <= p
  {
    assert p * q + p * (1.0 - q) == p;
    assert p * (1.0 - q) >= 0.0;
    assert p * q >= 0.0;
  }

  /** With non-negative counts and positive risk sets so far: survival and the
      two incidences are finite and within [0, 1]; survival has not risen and
      neither incidence has fallen since the previous row. */
  lemma {:induction false} EstimateBounds(rows: seq<Row>, i: nat)
    requires Recurrences(rows) && NonNegativeCounts(rows) && i < |rows|
    requires PositiveRiskUpTo(rows, i)
    ensures rows[i].overallSurvival.Finite? && rows[i].cif1.Finite? && rows[i].cif2.Finite?
    ensures 0.0 <= rows[i].overallSurvival.x <= 1.0
    ensures 0.0 <= rows[i].cif1.x <= 1.0 && 0.0 <= rows[i].cif2.x <= 1.0
    ensures i > 0 ==> rows[i - 1].overallSurvival.Finite? && rows[i - 1].cif1.Finite? && rows[i - 1].cif2.Finite?
    ensures i > 0 ==> rows[i - 1].overallSurvival.Finite? && rows[i].overallSurvival.x <= rows[i - 1].overallSurvival.x
    ensures i > 0 ==> rows[i - 1].cif1.Finite? && rows[i].cif1.x >= rows[i - 1].cif1.x
    ensures i > 0 ==> rows[i - 1].cif2.Finite? && rows[i].cif2.x >= rows[i - 1].cif2.x
  {
    assert EstimateRecurrence(rows, i);
    var row := rows[i];
    PartitionOfUnity(rows, i);
    if i > 0 {
      EstimateBounds(rows, i - 1);
    }
    AtRiskBounds(rows, i);
    HazardBounds(row.count1, row.count2, row.atRisk);
    var p := row.previousOverallSurvival.x;
    var h1, h2 := row.csh1.x, row.csh2.x;
    assert 0.0 <= p <= 1.0;
    ScaleDown(p, 1.0 - h1 - h2);
    assert 0.0 <= h1 * p && 0.0 <= h2 * p;
  }

  /** Without competing events the competing incidence stays 0 while the risk
      sets are non-empty, and the incidence of the event of interest is the
      complement of survival. */
  lemma {:induction false} NoCompetingEvents(rows: seq<Row>, i: nat)
    requires Recurrences(rows) && i < |rows|
    requires forall j :: 0 <= j < |rows| ==> rows[j].count2 == 0.0
    requires NonZeroRiskUpTo(rows, i)
    ensures rows[i].cif2 == Finite(0.0)
    ensures rows[i].cif1.Finite? && rows[i].overallSurvival.Finite?
    ensures rows[i].cif1.x == 1.0 - rows[i].overallSurvival.x
  {
    assert EstimateRecurrence(rows, i);
    PartitionOfUnity(rows, i);
    if i > 0 {
      NoCompetingEvents(rows, i - 1);
    }
    assert rows[i].csh2 == Finite(0.0);
  }

  /** Scaling the counts and the divisor alike leaves a hazard unchanged. */
  lemma DivScaled(a: real, r: real, c: real)
    requires c != 0.0
    ensures Div(c * a, c * r) == Div(a, r)
  {
    if r != 0.0 {
      assert (c * a) / (c * r) == a / r;
    }
  }

  /** Two tables over the same times whose counts differ by a factor `c`: the
      events and risk sets differ by the same factor. */
  lemma {:induction false} ScaledRiskSets(rows: seq<Row>, scaled: seq<Row>, c: real, i: nat)
    requires Recurrences(rows) && Recurrences(scaled) && |scaled| == |rows| && i < |rows|
    requires forall j :: 0 <= j < |rows| ==>
               scaled[j].count0 == c * rows[j].count0 && scaled[j].count1 == c * rows[j].count1
               && scaled[j].count2 == c * rows[j].count2
    ensures scaled[i].eventsAtTimes == c * rows[i].eventsAtTimes
    ensures scaled[i].atRisk == c * rows[i].atRisk
    decreases |rows| - i
  {
    assert RiskRecurrence(rows, i);
    assert RiskRecurrence(scaled, i);
    var row := rows[i];
    assert c * row.count0 + c * row.count1 + c * row.count2 == c * (row.count0 + row.count1 + row.count2);
    if i + 1 < |rows| {
      ScaledRiskSets(rows, scaled, c, i + 1);
      assert c * row.eventsAtTimes + c * rows[i + 1].atRisk == c * (row.eventsAtTimes + rows[i + 1].atRisk);
    }
  }

  /** Two tables over the same times whose counts differ by a non-zero factor
      `c` have the same hazards, conditional and overall survival, transition
      probabilities and cumulative incidences. */
  lemma {:induction false} ScaledEstimatesAgree(rows: seq<Row>, scaled: seq<Row>, c: real, i: nat)
    requires Recurrences(rows) && Recurrences(scaled) && |scaled| == |rows| && i < |rows|
    requires c != 0.0
    requires forall j :: 0 <= j < |rows| ==>
               scaled[j].count0 == c * rows[j].count0 && scaled[j].count1 == c * rows[j].count1
               && scaled[j].count2 == c * rows[j].count2
    ensures scaled[i].csh1 == rows[i].csh1 && scaled[i].csh2 == rows[i].csh2
    ensures scaled[i].conditionalSurvival == rows[i].conditionalSurvival
    ensures scaled[i].overallSurvival == rows[i].overallSurvival
    ensures scaled[i].previousOverallSurvival == rows[i].previousOverallSurvival
    ensures scaled[i].transitionProb1 == rows[i].transitionProb1
    ensures scaled[i].transitionProb2 == rows[i].transitionProb2
    ensures scaled[i].cif1 == rows[i].cif1 && scaled[i].cif2 == rows[i].cif2
  {
    ScaledHazards(rows, scaled, c, i);
    if i > 0 {
      ScaledEstimatesAgree(rows, scaled, c, i - 1);
    }
    assert EstimateRecurrence(rows, i);
    assert EstimateRecurrence(scaled, i);
  }

  /** The hazard part of `ScaledEstimatesAgree`: scaling the counts scales the
      risk set alike, so both hazards are unchanged. */
  lemma ScaledHazards(rows: seq<Row>, scaled: seq<Row>, c: real, i: nat)
    requires Recurrences(rows) && Recurrences(scaled) && |scaled| == |rows| && i < |rows|
    requires c != 0.0
    requires forall j :: 0 <= j < |rows| ==>
               scaled[j].count0 == c * rows[j].count0 && scaled[j].count1 == c * rows[j].count1
               && scaled[j].count2 == c * rows[j].count2
    ensures scaled[i].csh1 == rows[i].csh1 && scaled[i].csh2 == rows[i].csh2
  {
    HazardsAt(rows, i);
    HazardsAt(scaled, i);
    ScaledRiskSets(rows, scaled, c, i);
    DivScaled(rows[i].count1, rows[i].atRisk, c);
    DivScaled(rows[i].count2, rows[i].atRisk, c);
  }

  /** The two hazards of row i of a table that follows the scans. */
  lemma HazardsAt(rows: seq<Row>, i: nat)
    requires Recurrences(rows) && i < |rows|
    ensures rows[i].csh1 == Div(rows[i].count1, rows[i].atRisk)
    ensures rows[i].csh2 == Div(rows[i].count2, rows[i].atRisk)
  {
    assert EstimateRecurrence(rows, i);
  }
}
