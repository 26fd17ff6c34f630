/**
  The first stage of the estimator: group the observations by distinct time,
  sort the groups by time, and give each group its weighted count per event
  code (`survival.py`, lines 22-32).

  Also the reference definition of a risk set: the weight of everybody with
  code 0, 1 or 2 whose observed time is at or after a given time.
*/
module Grouping {

  /** One input record: an observed time, an event code (0 censored, 1 event of
      interest, 2 competing event; any other code is accepted and counted
      nowhere) and a case weight. */
  datatype Observation = Observation(time: real, code: int, weight: real)

  /** The three event codes the estimator counts. */
  predicate KnownCode(code: int)
  {
    code == 0 || code == 1 || code == 2
  }

  predicate StrictlyIncreasing(s: seq<real>)
  {
    forall i, j :: 0 <= i < j < |s| ==> s[i] < s[j]
  }

  predicate NonNegativeWeights(obs: seq<Observation>)
  {
    forall i :: 0 <= i < |obs| ==> obs[i].weight >= 0.0
  }

  /** The `times` column of the input table. */
  function TimeColumn(obs: seq<Observation>): seq<real>
  {
    seq(|obs|, i requires 0 <= i < |obs| => obs[i].time)
  }

  /** Adds one time to a strictly increasing sequence of times, keeping it
      strictly increasing and free of repeats. */
  function Insert(s: seq<real>, t: real): (r: seq<real>)
    requires StrictlyIncreasing(s)
    ensures StrictlyIncreasing(r)
    ensures forall u :: u in r <==> u in s || u == t
  {
    if s == [] then [t]
    else if t < s[0] then [t] + s
    else if t == s[0] then s
    else
      var rest := Insert(s[1..], t);
      assert forall j :: 0 <= j < |rest| ==> s[0] < rest[j] by {
        forall j | 0 <= j < |rest|
          ensures s[0] < rest[j]
        {
          assert rest[j] in rest;
          if rest[j] != t {
            var k :| 0 <= k < |s[1..]| && s[1..][k] == rest[j];
            assert s[k + 1] == rest[j];
          }
        }
      }
      [s[0]] + rest
  }

  /** The distinct values of a time column in ascending order: the group keys
      of `group_by("times")` after `sort("times")`. */
  function DistinctTimes(times: seq<real>): (r: seq<real>)
    ensures StrictlyIncreasing(r)
    ensures forall t :: t in r <==> t in times
  {
    if times == [] then []
    else
      assert forall t :: t in times <==> t == times[0] || t in times[1..];
      Insert(DistinctTimes(times[1..]), times[0])
  }

  /** The weight one observation adds to the count of code `k` at time `t`
      (`when(reals == k).then(weights).otherwise(0)`). */
  function Contribution(o: Observation, t: real, k: int): real
  {
    if o.time == t && o.code == k then o.weight else 0.0
  }

  /** `count_k` of the group at time `t`: the summed weight of the
      observations at `t` whose code is `k`. */
  function WeightedCount(obs: seq<Observation>, t: real, k: int): real
  {
    if obs == [] then 0.0 else Contribution(obs[0], t, k) + WeightedCount(obs[1..], t, k)
  }

  /** The weight at time `t` carried by the three known codes together. */
  function KnownWeightAt(obs: seq<Observation>, t: real): real
  {
    WeightedCount(obs, t, 0) + WeightedCount(obs, t, 1) + WeightedCount(obs, t, 2)
  }

  /** The risk set at time `u`, by definition: the summed weight of every
      observation with a known code whose observed time is `u` or later. */
  function AtOrAfterWeight(obs: seq<Observation>, u: real): real
  {
    if obs == [] then 0.0
    else (if obs[0].time >= u && KnownCode(obs[0].code) then obs[0].weight else 0.0)
         + AtOrAfterWeight(obs[1..], u)
  }

  /** The same observations with every weight multiplied by `c`. */
  function Scale(obs: seq<Observation>, c: real): (r: seq<Observation>)
    ensures |r| == |obs|
    ensures forall i :: 0 <= i < |obs| ==>
              r[i].time == obs[i].time && r[i].code == obs[i].code && r[i].weight == c * obs[i].weight
  {
    seq(|obs|, i requires 0 <= i < |obs| => obs[i].(weight := c * obs[i].weight))
  }

  /** A strictly increasing sequence is determined by the set of its elements:
      whatever order the observations come in, the sorted group keys agree. */
  lemma {:induction false} SortedUnique(a: seq<real>, b: seq<real>)
    requires StrictlyIncreasing(a) && StrictlyIncreasing(b)
    requires forall t :: t in a <==> t in b
    ensures a == b
    decreases |a|
  {
    if a != [] {
      assert a[0] in a;
    }
    if b != [] {
      assert b[0] in b;
    }
    if a != [] && b != [] {
      assert a[0] == b[0] by {
        var i :| 0 <= i < |a| && a[i] == b[0];
        var j :| 0 <= j < |b| && b[j] == a[0];
      }
      forall t
        ensures t in a[1..] <==> t in b[1..]
      {
        assert t in a[1..] <==> t in a && t != a[0];
        assert t in b[1..] <==> t in b && t != b[0];
      }
      SortedUnique(a[1..], b[1..]);
    }
  }

  /** A strictly increasing sequence repeats no element: it has as many
      elements as there are distinct values. */
  lemma {:induction false} SortedCardinality(s: seq<real>)
    requires StrictlyIncreasing(s)
    ensures |set t | t in s| == |s|
  {
    if s != [] {
      SortedCardinality(s[1..]);
      assert (set t | t in s) == {s[0]} + (set t | t in s[1..]);
      assert s[0] !in s[1..];
    }
  }

  /** Counting distributes over concatenation of observation tables. */
  lemma {:induction false} WeightedCountAppend(a: seq<Observation>, b: seq<Observation>, t: real, k: int)
    ensures WeightedCount(a + b, t, k) == WeightedCount(a, t, k) + WeightedCount(b, t, k)
  {
    if a == [] {
      assert a + b == b;
    } else {
      assert (a + b)[1..] == a[1..] + b;
      WeightedCountAppend(a[1..], b, t, k);
    }
  }

  /** The counts do not depend on the order of the observations. */
  lemma {:induction false} WeightedCountPermutation(a: seq<Observation>, b: seq<Observation>, t: real, k: int)
    requires multiset(a) == multiset(b)
    ensures WeightedCount(a, t, k) == WeightedCount(b, t, k)
    decreases |a|
  {
    if a == [] {
      assert |b| == |multiset(b)| == 0;
    } else {
      var x := a[0];
      assert x in multiset(b);
      var j :| 0 <= j < |b| && b[j] == x;
      var rest := b[..j] + b[j + 1..];
      assert b == b[..j] + [x] + b[j + 1..];
      assert a == [x] + a[1..];
      assert multiset(b) == multiset(b[..j]) + multiset{x} + multiset(b[j + 1..]);
      assert multiset(rest) == multiset(b[..j]) + multiset(b[j + 1..]);
      assert multiset(a) == multiset{x} + multiset(a[1..]);
      assert multiset(a[1..]) == multiset(a) - multiset{x};
      assert multiset(rest) == multiset(b) - multiset{x};
      WeightedCountPermutation(a[1..], rest, t, k);
      WeightedCountAppend(b[..j] + [x], b[j + 1..], t, k);
      WeightedCountAppend(b[..j], [x], t, k);
      WeightedCountAppend(b[..j], b[j + 1..], t, k);
      WeightedCountSingle(x, t, k);
    }
  }

  /** A table of one observation counts that observation's contribution. */
  lemma WeightedCountSingle(o: Observation, t: real, k: int)
    ensures WeightedCount([o], t, k) == Contribution(o, t, k)
  {
    assert [o][1..] == [];
  }

  /** With non-negative weights every count is non-negative. */
  lemma {:induction false} WeightedCountNonNegative(obs: seq<Observation>, t: real, k: int)
    requires NonNegativeWeights(obs)
    ensures WeightedCount(obs, t, k) >= 0.0
  {
    if obs != [] {
      WeightedCountNonNegative(obs[1..], t, k);
    }
  }

  /** Scaling every weight by `c` scales every count by `c`. */
  lemma {:induction false} WeightedCountScaled(obs: seq<Observation>, c: real, t: real, k: int)
    ensures WeightedCount(Scale(obs, c), t, k) == c * WeightedCount(obs, t, k)
  {
    if obs != [] {
      assert forall i :: 0 <= i < |obs| - 1 ==> Scale(obs, c)[1..][i] == Scale(obs[1..], c)[i];
      assert Scale(obs, c)[1..] == Scale(obs[1..], c);
      WeightedCountScaled(obs[1..], c, t, k);
      assert Contribution(Scale(obs, c)[0], t, k) == c * Contribution(obs[0], t, k);
    }
  }

  /** An observation whose code is none of 0, 1, 2 adds to none of the three
      counts. */
  lemma UnknownCodeCountsNowhere(obs: seq<Observation>, o: Observation, t: real)
    requires !KnownCode(o.code)
    ensures WeightedCount(obs + [o], t, 0) == WeightedCount(obs, t, 0)
    ensures WeightedCount(obs + [o], t, 1) == WeightedCount(obs, t, 1)
    ensures WeightedCount(obs + [o], t, 2) == WeightedCount(obs, t, 2)
  {
    WeightedCountAppend(obs, [o], t, 0);
    WeightedCountAppend(obs, [o], t, 1);
    WeightedCountAppend(obs, [o], t, 2);
  }

  /** If no observation has code 2, every code-2 count is zero. */
  lemma {:induction false} NoCode2CountsZero(obs: seq<Observation>, t: real)
    requires forall i :: 0 <= i < |obs| ==> obs[i].code != 2
    ensures WeightedCount(obs, t, 2) == 0.0
  {
    if obs != [] {
      NoCode2CountsZero(obs[1..], t);
    }
  }

  /** The known-code weight summed over the times `ts`, one group per time. */
  function WeightOver(ts: seq<real>, obs: seq<Observation>): real
  {
    if ts == [] then 0.0 else KnownWeightAt(obs, ts[0]) + WeightOver(ts[1..], obs)
  }

  /** Summing over the groups splits off the first observation's share. */
  lemma {:induction false} WeightOverSplit(ts: seq<real>, obs: seq<Observation>)
    requires obs != []
    ensures WeightOver(ts, obs) == WeightOver(ts, [obs[0]]) + WeightOver(ts, obs[1..])
  {
    if ts != [] {
      WeightOverSplit(ts[1..], obs);
      assert [obs[0]][1..] == [];
      WeightedCountSingle(obs[0], ts[0], 0);
      WeightedCountSingle(obs[0], ts[0], 1);
      WeightedCountSingle(obs[0], ts[0], 2);
    }
  }

  /** Over times without repeats, one observation is counted once if its time
      is among them and its code is known, and not at all otherwise. */
  lemma {:induction false} WeightOverSingle(ts: seq<real>, o: Observation)
    requires StrictlyIncreasing(ts)
    ensures WeightOver(ts, [o]) == if o.time in ts && KnownCode(o.code) then o.weight else 0.0
  {
    if ts != [] {
      WeightOverSingle(ts[1..], o);
      assert [o][1..] == [];
      WeightedCountSingle(o, ts[0], 0);
      WeightedCountSingle(o, ts[0], 1);
      WeightedCountSingle(o, ts[0], 2);
      assert o.time == ts[0] ==> o.time !in ts[1..];
      assert o.time in ts <==> o.time == ts[0] || o.time in ts[1..];
    }
  }

  /** Summing the groups of the times `ts` gives the risk set at `u` when the
      observations whose time is among `ts` are exactly those at or after `u`. */
  lemma {:induction false} WeightOverRiskSet(ts: seq<real>, obs: seq<Observation>, u: real)
    requires StrictlyIncreasing(ts)
    requires forall i :: 0 <= i < |obs| ==> (obs[i].time in ts <==> obs[i].time >= u)
    ensures WeightOver(ts, obs) == AtOrAfterWeight(obs, u)
    decreases |obs|
  {
    if obs == [] {
      WeightOverEmpty(ts);
    } else {
      WeightOverSplit(ts, obs);
      WeightOverSingle(ts, obs[0]);
      WeightOverRiskSet(ts, obs[1..], u);
    }
  }

  /** No observations, no weight. */
  lemma {:induction false} WeightOverEmpty(ts: seq<real>)
    ensures WeightOver(ts, []) == 0.0
  {
    if ts != [] {
      WeightOverEmpty(ts[1..]);
    }
  }

  /** With non-negative weights a risk set is never negative. */
  lemma {:induction false} AtOrAfterWeightNonNegative(obs: seq<Observation>, u: real)
    requires NonNegativeWeights(obs)
    ensures AtOrAfterWeight(obs, u) >= 0.0
  {
    if obs != [] {
      AtOrAfterWeightNonNegative(obs[1..], u);
    }
  }

  /** With non-negative weights, a risk set that holds one observation of
      positive weight and known code, at or after its time, is positive. */
  lemma {:induction false} AtOrAfterWeightPositive(obs: seq<Observation>, u: real, j: nat)
    requires NonNegativeWeights(obs) && j < |obs|
    requires obs[j].time >= u && KnownCode(obs[j].code) && obs[j].weight > 0.0
    ensures AtOrAfterWeight(obs, u) > 0.0
  {
    if j == 0 {
      AtOrAfterWeightNonNegative(obs[1..], u);
    } else {
      AtOrAfterWeightPositive(obs[1..], u, j - 1);
    }
  }
}
