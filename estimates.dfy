/**
  What the estimator promises about its input: one row per distinct time in
  ascending order, counts that are the weighted sums by code, risk sets that
  hold everybody with code 0, 1 or 2 observed at or after the row's time,
  results that depend neither on the order of the observations nor on a
  non-zero scale of the weights, and the estimate guarantees of
  `SurvivalProperties` for every table of observations.
*/
module EstimateProperties {
  import opened Values
  import opened Grouping
  import opened Survival
  import opened SurvivalProperties

  /** There are as many distinct times as there are distinct values in the
      time column. */
  lemma DistinctTimesCount(column: seq<real>)
    ensures |DistinctTimes(column)| == |set t | t in column|
  {
    var times := DistinctTimes(column);
    assert (set t | t in times) == (set t | t in column) by {
      forall t ensures t in times <==> t in column { }
    }
    SortedCardinality(times);
  }

  /** Every observation's time is one of the distinct times. */
  lemma ObservedTimesCovered(obs: seq<Observation>)
    ensures forall j :: 0 <= j < |obs| ==> obs[j].time in DistinctTimes(TimeColumn(obs))
  {
    forall j | 0 <= j < |obs|
      ensures obs[j].time in DistinctTimes(TimeColumn(obs))
    {
      assert TimeColumn(obs)[j] == obs[j].time;
      assert obs[j].time in TimeColumn(obs);
    }
  }

  /** Row i of `rows` is the group of the observations at `times[i]`: it
      carries that time and the weighted count of each code there. */
  ghost predicate GroupedBy(rows: seq<Row>, times: seq<real>, obs: seq<Observation>)
  {
    && |rows| == |times|
    && forall i :: 0 <= i < |rows| ==>
         && rows[i].time == times[i]
         && rows[i].count0 == WeightedCount(obs, times[i], 0)
         && rows[i].count1 == WeightedCount(obs, times[i], 1)
         && rows[i].count2 == WeightedCount(obs, times[i], 2)
  }

  /** The grouping stage: the result has one row per distinct observed time,
      in strictly ascending order (so an empty input gives an empty result),
      each row's counts are the weighted sums of its time's observations by
      code, and the rows follow the scans of `Survival.Recurrences`. */
  lemma GroupedRows(obs: seq<Observation>)
    ensures var rows, times := Estimate(obs), DistinctTimes(TimeColumn(obs));
      && GroupedBy(rows, times, obs)
      && StrictlyIncreasing(times)
      && (forall i, j :: 0 <= i < j < |rows| ==> rows[i].time < rows[j].time)
      && |rows| == |set t | t in TimeColumn(obs)|
      && Recurrences(rows)
  {
    var times := DistinctTimes(TimeColumn(obs));
    TabulateRecurrences(times, Counts(obs, times, 0), Counts(obs, times, 1), Counts(obs, times, 2));
    DistinctTimesCount(TimeColumn(obs));
  }

  /** The rows are exactly the observed times: every row's time is observed,
      and every observation has a row at its time. */
  lemma RowsAreObservedTimes(obs: seq<Observation>)
    ensures var rows := Estimate(obs);
      && (forall i :: 0 <= i < |rows| ==> rows[i].time in TimeColumn(obs))
      && (forall j :: 0 <= j < |obs| ==> exists i :: 0 <= i < |rows| && rows[i].time == obs[j].time)
  {
    var rows, times := Estimate(obs), DistinctTimes(TimeColumn(obs));
    GroupedRows(obs);
    forall i | 0 <= i < |rows|
      ensures rows[i].time in TimeColumn(obs)
    {
      assert times[i] in times;
    }
    forall j | 0 <= j < |obs|
      ensures exists i :: 0 <= i < |rows| && rows[i].time == obs[j].time
    {
      ObservedTimesCovered(obs);
      var i :| 0 <= i < |times| && times[i] == obs[j].time;
      assert rows[i].time == obs[j].time;
    }
  }

  /** Columns of equal length make a table: no shape error, and an empty table
      gives an empty result. */
  lemma EmptyInput()
    ensures WeightedAalenJohansen([], [], []) == Success([])
  {
    assert Zip([], [], []) == [];
    GroupedRows([]);
    assert |set t | t in TimeColumn([])| == 0;
  }

  /** Summing the rows from i on: the risk set of row i is the known-code
      weight of the groups at row i's time and every later time. */
  lemma {:induction false} AtRiskSumsGroups(rows: seq<Row>, times: seq<real>, obs: seq<Observation>, i: nat)
    requires Recurrences(rows) && GroupedBy(rows, times, obs) && i < |rows|
    ensures rows[i].atRisk == WeightOver(times[i..], obs)
    decreases |rows| - i
  {
    assert RiskRecurrence(rows, i);
    assert times[i..][1..] == times[i + 1..];
    if i + 1 < |rows| {
      AtRiskSumsGroups(rows, times, obs, i + 1);
    } else {
      assert times[i + 1..] == [];
    }
  }

  /** Over strictly increasing times that cover every observation, the risk
      set of row i is the known-code weight of the observations at or after
      row i's time. */
  lemma {:induction false} RowRiskSet(rows: seq<Row>, times: seq<real>, obs: seq<Observation>, i: nat)
    requires Recurrences(rows) && GroupedBy(rows, times, obs) && i < |rows|
    requires StrictlyIncreasing(times)
    requires forall j :: 0 <= j < |obs| ==> obs[j].time in times
    ensures rows[i].atRisk == AtOrAfterWeight(obs, times[i])
  {
    AtRiskSumsGroups(rows, times, obs, i);
    var suffix := times[i..];
    forall j | 0 <= j < |obs|
      ensures obs[j].time in suffix <==> obs[j].time >= times[i]
    {
      var k :| 0 <= k < |times| && times[k] == obs[j].time;
      if k >= i {
        assert suffix[k - i] == obs[j].time;
      } else {
        assert forall m :: 0 <= m < |suffix| ==> suffix[m] == times[i + m] >= times[i];
      }
    }
    WeightOverRiskSet(suffix, obs, times[i]);
  }

  /** The risk set of every row is the summed weight of everybody with code
      0, 1 or 2 observed at or after that row's time. */
  lemma AtRiskIsRiskSet(obs: seq<Observation>, i: nat)
    requires i < |Estimate(obs)|
    ensures Estimate(obs)[i].atRisk == AtOrAfterWeight(obs, Estimate(obs)[i].time)
  {
    GroupedRows(obs);
    ObservedTimesCovered(obs);
    RowRiskSet(Estimate(obs), DistinctTimes(TimeColumn(obs)), obs, i);
  }

  /** When every observation has a positive weight and a known code, every
      risk set is positive: each row's own observations are at risk there. */
  lemma PositiveRiskSets(obs: seq<Observation>)
    requires forall j :: 0 <= j < |obs| ==> obs[j].weight > 0.0 && KnownCode(obs[j].code)
    ensures forall i :: 0 <= i < |Estimate(obs)| ==> Estimate(obs)[i].atRisk > 0.0
  {
    forall i | 0 <= i < |Estimate(obs)|
      ensures Estimate(obs)[i].atRisk > 0.0
    {
      RowRiskPositive(obs, i);
    }
  }

  /** One row of `PositiveRiskSets`: the row's own time is observed, so the
      observation there is in the row's risk set. */
  lemma RowRiskPositive(obs: seq<Observation>, i: nat)
    requires forall j :: 0 <= j < |obs| ==> obs[j].weight > 0.0 && KnownCode(obs[j].code)
    requires i < |Estimate(obs)|
    ensures Estimate(obs)[i].atRisk > 0.0
  {
    var rows := Estimate(obs);
    RowsAreObservedTimes(obs);
    AtRiskIsRiskSet(obs, i);
    assert rows[i].time in TimeColumn(obs);
    var j :| 0 <= j < |obs| && TimeColumn(obs)[j] == rows[i].time;
    AtOrAfterWeightPositive(obs, rows[i].time, j);
  }

  /** Two tables holding the same observations give the same distinct times. */
  lemma SameTimes(a: seq<Observation>, b: seq<Observation>)
    requires multiset(a) == multiset(b)
    ensures DistinctTimes(TimeColumn(a)) == DistinctTimes(TimeColumn(b))
  {
    forall t
      ensures t in TimeColumn(a) <==> t in TimeColumn(b)
    {
      if t in TimeColumn(a) {
        var j :| 0 <= j < |a| && TimeColumn(a)[j] == t;
        assert a[j] in multiset(b);
        var k :| 0 <= k < |b| && b[k] == a[j];
        assert TimeColumn(b)[k] == t;
      }
      if t in TimeColumn(b) {
        var k :| 0 <= k < |b| && TimeColumn(b)[k] == t;
        assert b[k] in multiset(a);
        var j :| 0 <= j < |a| && a[j] == b[k];
        assert TimeColumn(a)[j] == t;
      }
    }
    SortedUnique(DistinctTimes(TimeColumn(a)), DistinctTimes(TimeColumn(b)));
  }

  /** The order of the observations does not matter: any rearrangement of the
      same observations gives the same table. */
  lemma EstimateOrderInvariant(a: seq<Observation>, b: seq<Observation>)
    requires multiset(a) == multiset(b)
    ensures Estimate(a) == Estimate(b)
  {
    SameTimes(a, b);
    var times := DistinctTimes(TimeColumn(a));
    forall k | 0 <= k <= 2
      ensures Counts(a, times, k) == Counts(b, times, k)
    {
      forall i | 0 <= i < |times|
        ensures Counts(a, times, k)[i] == Counts(b, times, k)[i]
      {
        WeightedCountPermutation(a, b, times[i], k);
      }
    }
  }

  /** Adding an observation whose code is none of 0, 1, 2 at a time that is
      already present changes nothing in the result. */
  lemma UnknownCodeIgnored(obs: seq<Observation>, o: Observation)
    requires !KnownCode(o.code)
    requires exists j :: 0 <= j < |obs| && obs[j].time == o.time
    ensures Estimate(obs + [o]) == Estimate(obs)
  {
    var more := obs + [o];
    forall t
      ensures t in TimeColumn(more) <==> t in TimeColumn(obs)
    {
      var j :| 0 <= j < |obs| && obs[j].time == o.time;
      assert TimeColumn(more)[|obs|] == o.time == TimeColumn(obs)[j];
      if t in TimeColumn(more) {
        var m :| 0 <= m < |more| && TimeColumn(more)[m] == t;
        if m < |obs| {
          assert TimeColumn(obs)[m] == t;
        }
      }
      if t in TimeColumn(obs) {
        var m :| 0 <= m < |obs| && TimeColumn(obs)[m] == t;
        assert TimeColumn(more)[m] == t;
      }
    }
    SortedUnique(DistinctTimes(TimeColumn(more)), DistinctTimes(TimeColumn(obs)));
    var times := DistinctTimes(TimeColumn(obs));
    forall k | 0 <= k <= 2
      ensures Counts(more, times, k) == Counts(obs, times, k)
    {
      forall i | 0 <= i < |times|
        ensures Counts(more, times, k)[i] == Counts(obs, times, k)[i]
      {
        UnknownCodeCountsNowhere(obs, o, times[i]);
      }
    }
  }

  /** `scaled` is `rows` with every weight multiplied by `c`: the same times,
      the counts, events and risk sets `c` times as large, and the same hazards,
      conditional survival, overall and previous survival, transition
      probabilities and cumulative incidences. */
  ghost predicate ScaledAgree(rows: seq<Row>, scaled: seq<Row>, c: real)
  {
    && |scaled| == |rows|
    && forall i :: 0 <= i < |rows| ==>
         && scaled[i].time == rows[i].time
         && scaled[i].count0 == c * rows[i].count0
         && scaled[i].count1 == c * rows[i].count1
         && scaled[i].count2 == c * rows[i].count2
         && scaled[i].eventsAtTimes == c * rows[i].eventsAtTimes
         && scaled[i].atRisk == c * rows[i].atRisk
         && scaled[i].csh1 == rows[i].csh1 && scaled[i].csh2 == rows[i].csh2
         && scaled[i].conditionalSurvival == rows[i].conditionalSurvival
         && scaled[i].overallSurvival == rows[i].overallSurvival
         && scaled[i].previousOverallSurvival == rows[i].previousOverallSurvival
         && scaled[i].transitionProb1 == rows[i].transitionProb1
         && scaled[i].transitionProb2 == rows[i].transitionProb2
         && scaled[i].cif1 == rows[i].cif1 && scaled[i].cif2 == rows[i].cif2
  }

  /** Two tables over the same times, one counting the observations and one
      counting them with every weight scaled by a non-zero `c`: the counts, events
      and risk sets differ by the factor `c`, and every estimate agrees. */
  lemma ScaledTables(rows: seq<Row>, scaled: seq<Row>, times: seq<real>, obs: seq<Observation>, c: real)
    requires c != 0.0
    requires Recurrences(rows) && Recurrences(scaled)
    requires GroupedBy(rows, times, obs) && GroupedBy(scaled, times, Scale(obs, c))
    ensures ScaledAgree(rows, scaled, c)
  {
    forall i | 0 <= i < |rows|
      ensures scaled[i].count0 == c * rows[i].count0
      ensures scaled[i].count1 == c * rows[i].count1
      ensures scaled[i].count2 == c * rows[i].count2
    {
      WeightedCountScaled(obs, c, times[i], 0);
      WeightedCountScaled(obs, c, times[i], 1);
      WeightedCountScaled(obs, c, times[i], 2);
    }
    forall i | 0 <= i < |rows|
      ensures scaled[i].eventsAtTimes == c * rows[i].eventsAtTimes
      ensures scaled[i].atRisk == c * rows[i].atRisk
      ensures scaled[i].csh1 == rows[i].csh1 && scaled[i].csh2 == rows[i].csh2
      ensures scaled[i].conditionalSurvival == rows[i].conditionalSurvival
      ensures scaled[i].overallSurvival == rows[i].overallSurvival
      ensures scaled[i].previousOverallSurvival == rows[i].previousOverallSurvival
      ensures scaled[i].transitionProb1 == rows[i].transitionProb1
      ensures scaled[i].transitionProb2 == rows[i].transitionProb2
      ensures scaled[i].cif1 == rows[i].cif1 && scaled[i].cif2 == rows[i].cif2
    {
      ScaledRiskSets(rows, scaled, c, i);
      ScaledEstimatesAgree(rows, scaled, c, i);
    }
  }

  /** Scaling every weight by the same non-zero constant scales the counts,
      events and risk sets by it and leaves the hazards, conditional survival,
      overall and previous survival, transition probabilities and cumulative
      incidences unchanged. */
  lemma EstimateScaleInvariant(obs: seq<Observation>, c: real)
    requires c != 0.0
    ensures ScaledAgree(Estimate(obs), Estimate(Scale(obs, c)), c)
  {
    assert TimeColumn(Scale(obs, c)) == TimeColumn(obs);
    GroupedRows(obs);
    GroupedRows(Scale(obs, c));
    ScaledTables(Estimate(obs), Estimate(Scale(obs, c)), DistinctTimes(TimeColumn(obs)), obs, c);
  }

  /** Non-negative weights give non-negative counts. */
  lemma CountsNonNegative(obs: seq<Observation>)
    requires NonNegativeWeights(obs)
    ensures NonNegativeCounts(Estimate(obs))
  {
    var rows := Estimate(obs);
    GroupedRows(obs);
    forall j | 0 <= j < |rows|
      ensures rows[j].count0 >= 0.0 && rows[j].count1 >= 0.0 && rows[j].count2 >= 0.0
    {
      WeightedCountNonNegative(obs, rows[j].time, 0);
      WeightedCountNonNegative(obs, rows[j].time, 1);
      WeightedCountNonNegative(obs, rows[j].time, 2);
    }
  }

  /** Partition of unity for any table of observations, whatever the sign of
      the weights: while no risk set so far is zero, survival and the two
      cumulative incidences are finite and add up to exactly 1. */
  lemma EstimatePartitionOfUnity(obs: seq<Observation>, i: nat)
    requires i < |Estimate(obs)| && NonZeroRiskUpTo(Estimate(obs), i)
    ensures var rows := Estimate(obs);
      && rows[i].overallSurvival.Finite? && rows[i].cif1.Finite? && rows[i].cif2.Finite?
      && rows[i].overallSurvival.x + rows[i].cif1.x + rows[i].cif2.x == 1.0
  {
    GroupedRows(obs);
    PartitionOfUnity(Estimate(obs), i);
  }

  /** The estimator's guarantees for one row: with non-negative weights and
      positive risk sets up to this row, survival and the two incidences are
      finite, add up to 1, lie in [0, 1], and survival has not risen nor either
      incidence fallen since the previous row; the risk set has not grown. */
  lemma EstimateGuarantees(obs: seq<Observation>, i: nat)
    requires NonNegativeWeights(obs)
    requires i < |Estimate(obs)| && PositiveRiskUpTo(Estimate(obs), i)
    ensures var rows := Estimate(obs);
      && rows[i].overallSurvival.Finite? && rows[i].cif1.Finite? && rows[i].cif2.Finite?
      && rows[i].overallSurvival.x + rows[i].cif1.x + rows[i].cif2.x == 1.0
      && 0.0 <= rows[i].overallSurvival.x <= 1.0
      && 0.0 <= rows[i].cif1.x <= 1.0 && 0.0 <= rows[i].cif2.x <= 1.0
      && (i > 0 ==>
            && rows[i - 1].overallSurvival.Finite? && rows[i - 1].cif1.Finite? && rows[i - 1].cif2.Finite?
            && rows[i].overallSurvival.x <= rows[i - 1].overallSurvival.x
            && rows[i].cif1.x >= rows[i - 1].cif1.x && rows[i].cif2.x >= rows[i - 1].cif2.x
            && rows[i].atRisk <= rows[i - 1].atRisk)
  {
    var rows := Estimate(obs);
    GroupedRows(obs);
    CountsNonNegative(obs);
    PartitionOfUnity(rows, i);
    EstimateBounds(rows, i);
    if i > 0 {
      AtRiskBounds(rows, i - 1);
    }
  }

  /** Without any observation of code 2 the competing incidence is 0 on every
      row whose risk sets so far are non-empty, and the incidence of the event
      of interest is one minus survival there. */
  lemma NoCompetingEventsEstimate(obs: seq<Observation>, i: nat)
    requires forall j :: 0 <= j < |obs| ==> obs[j].code != 2
    requires i < |Estimate(obs)| && NonZeroRiskUpTo(Estimate(obs), i)
    ensures var rows := Estimate(obs);
      && rows[i].cif2 == Finite(0.0)
      && rows[i].cif1.Finite? && rows[i].overallSurvival.Finite?
      && rows[i].cif1.x == 1.0 - rows[i].overallSurvival.x
  {
    var rows := Estimate(obs);
    GroupedRows(obs);
    forall j | 0 <= j < |rows|
      ensures rows[j].count2 == 0.0
    {
      NoCode2CountsZero(obs, rows[j].time);
    }
    NoCompetingEvents(rows, i);
  }

  /** A table with positive weights, known codes and no event of cause 2 (a
      Kaplan-Meier setting): on every row the incidence of cause 2 is 0, and
      the incidence of cause 1 is the complement of survival and lies in
      [0, 1]. */
  lemma SingleCauseEstimate(obs: seq<Observation>)
    requires forall j :: 0 <= j < |obs| ==> obs[j].weight > 0.0 && obs[j].code in {0, 1}
    ensures forall i :: 0 <= i < |Estimate(obs)| ==>
      && Estimate(obs)[i].cif2 == Finite(0.0)
      && Estimate(obs)[i].cif1.Finite? && Estimate(obs)[i].overallSurvival.Finite?
      && Estimate(obs)[i].cif1.x == 1.0 - Estimate(obs)[i].overallSurvival.x
      && 0.0 <= Estimate(obs)[i].cif1.x <= 1.0
  {
    var rows := Estimate(obs);
    assert forall j :: 0 <= j < |obs| ==> obs[j].weight > 0.0 && KnownCode(obs[j].code);
    assert NonNegativeWeights(obs);
    PositiveRiskSets(obs);
    forall i | 0 <= i < |rows|
      ensures rows[i].cif2 == Finite(0.0)
      ensures rows[i].cif1.Finite? && rows[i].overallSurvival.Finite?
      ensures rows[i].cif1.x == 1.0 - rows[i].overallSurvival.x
      ensures 0.0 <= rows[i].cif1.x <= 1.0
    {
      assert PositiveRiskUpTo(rows, i);
      assert NonZeroRiskUpTo(rows, i);
      NoCompetingEventsEstimate(obs, i);
      EstimateGuarantees(obs, i);
    }
  }
}
