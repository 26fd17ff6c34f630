/**
  The whole-column scans the estimator is built from: a running sum
  (`cum_sum`), a running sum from the end (`cum_sum(reverse=True)`), a running
  product (`cum_prod`) and a shift by one row with a fill value
  (`shift(1, fill_value=...)`).

  Each of the three cumulative scans is defined as a single pass over the
  column and is proved equal to a fold over the corresponding prefix or
  suffix, and to a one-row-at-a-time recurrence. The shift is specified row
  by row.
*/
module Scans {
  import opened Values

  /** Sum of a column of cells, folded from the first row to the last. */
  function Sum(s: seq<Value>): Value
  {
    if s == [] then Finite(0.0) else Add(Sum(s[..|s| - 1]), s[|s| - 1])
  }

  /** Product of a column of cells, folded from the first row to the last. */
  function Product(s: seq<Value>): Value
  {
    if s == [] then Finite(1.0) else Mul(Product(s[..|s| - 1]), s[|s| - 1])
  }

  /** Sum of a column of plain numbers. */
  function RealSum(s: seq<real>): real
  {
    if s == [] then 0.0 else s[0] + RealSum(s[1..])
  }

  /** Running sum: row i holds the sum of rows 0..i (`CumSumPrefix`). */
  function CumSum(s: seq<Value>): (r: seq<Value>)
    ensures |r| == |s|
  {
    if s == [] then []
    else
      var front := CumSum(s[..|s| - 1]);
      front + [Add(if front == [] then Finite(0.0) else front[|front| - 1], s[|s| - 1])]
  }

  /** Running product: row i holds the product of rows 0..i (`CumProdPrefix`). */
  function CumProd(s: seq<Value>): (r: seq<Value>)
    ensures |r| == |s|
  {
    if s == [] then []
    else
      var front := CumProd(s[..|s| - 1]);
      front + [Mul(if front == [] then Finite(1.0) else front[|front| - 1], s[|s| - 1])]
  }

  /** Running sum from the end: row i holds the sum of rows i..|s|-1
      (`ReverseCumSumSuffix`). */
  function ReverseCumSum(s: seq<real>): (r: seq<real>)
    ensures |r| == |s|
  {
    if s == [] then []
    else
      var rest := ReverseCumSum(s[1..]);
      [s[0] + (if rest == [] then 0.0 else rest[0])] + rest
  }

  /** Shift down by one row: the first row takes `fill`, row i takes row i-1,
      and the last row's value is dropped. */
  function Shift<T>(s: seq<T>, fill: T): (r: seq<T>)
    ensures |r| == |s|
    ensures |s| > 0 ==> r[0] == fill
    ensures forall i :: 0 < i < |s| ==> r[i] == s[i - 1]
  {
    if s == [] then [] else [fill] + s[..|s| - 1]
  }

  /** Row i of the running sum is the sum of rows 0..i. */
  lemma {:induction false} CumSumPrefix(s: seq<Value>, i: nat)
    requires i < |s|
    ensures CumSum(s)[i] == Sum(s[..i + 1])
    decreases |s|
  {
    var init := s[..|s| - 1];
    if i < |s| - 1 {
      CumSumPrefix(init, i);
      assert init[..i + 1] == s[..i + 1];
    } else {
      assert s[..i + 1] == s && s[..i + 1][..i] == init;
      if i > 0 {
        CumSumPrefix(init, i - 1);
        assert init[..i] == init;
      }
    }
  }

  /** Row i of the running product is the product of rows 0..i. */
  lemma {:induction false} CumProdPrefix(s: seq<Value>, i: nat)
    requires i < |s|
    ensures CumProd(s)[i] == Product(s[..i + 1])
    decreases |s|
  {
    var init := s[..|s| - 1];
    if i < |s| - 1 {
      CumProdPrefix(init, i);
      assert init[..i + 1] == s[..i + 1];
    } else {
      assert s[..i + 1] == s && s[..i + 1][..i] == init;
      if i > 0 {
        CumProdPrefix(init, i - 1);
        assert init[..i] == init;
      }
    }
  }

  /** The running sum as a recurrence: each row adds its own cell to the
      previous row's total (to 0 on the first row). */
  lemma CumSumStep(s: seq<Value>, i: nat)
    requires i < |s|
    ensures CumSum(s)[i] == Add(if i == 0 then Finite(0.0) else CumSum(s)[i - 1], s[i])
  {
    var prefix := s[..i + 1];
    assert prefix[..i] == s[..i] && prefix[i] == s[i];
    CumSumPrefix(s, i);
    assert Sum(prefix) == Add(Sum(prefix[..i]), s[i]);
    if i > 0 {
      CumSumPrefix(s, i - 1);
    } else {
      assert Sum(prefix[..i]) == Finite(0.0);
    }
  }

  /** The running product as a recurrence: each row multiplies the previous
      row's product (1 on the first row) by its own cell. */
  lemma CumProdStep(s: seq<Value>, i: nat)
    requires i < |s|
    ensures CumProd(s)[i] == Mul(if i == 0 then Finite(1.0) else CumProd(s)[i - 1], s[i])
  {
    var prefix := s[..i + 1];
    assert prefix[..i] == s[..i] && prefix[i] == s[i];
    CumProdPrefix(s, i);
    assert Product(prefix) == Mul(Product(prefix[..i]), prefix[i]);
    if i > 0 {
      CumProdPrefix(s, i - 1);
    } else {
      assert Product(prefix[..i]) == Finite(1.0);
    }
  }

  /** Row i of the reverse running sum is the sum of rows i..|s|-1. */
  lemma {:induction false} ReverseCumSumSuffix(s: seq<real>, i: nat)
    requires i < |s|
    ensures ReverseCumSum(s)[i] == RealSum(s[i..])
    decreases |s|
  {
    if i > 0 {
      ReverseCumSumSuffix(s[1..], i - 1);
      assert s[1..][i - 1..] == s[i..];
    } else if |s| > 1 {
      ReverseCumSumSuffix(s[1..], 0);
      assert s[0..] == s && s[1..][0..] == s[1..];
    } else {
      assert s[0..] == s && s[1..] == [];
    }
  }

  /** The reverse running sum as a recurrence: each row adds its own cell to
      the next row's total (to 0 on the last row). */
  lemma ReverseCumSumStep(s: seq<real>, i: nat)
    requires i < |s|
    ensures ReverseCumSum(s)[i] == s[i] + (if i + 1 < |s| then ReverseCumSum(s)[i + 1] else 0.0)
  {
    var suffix := s[i..];
    assert suffix[1..] == s[i + 1..] && suffix[0] == s[i];
    ReverseCumSumSuffix(s, i);
    assert RealSum(suffix) == s[i] + RealSum(s[i + 1..]);
    if i + 1 < |s| {
      ReverseCumSumSuffix(s, i + 1);
    } else {
      assert s[i + 1..] == [];
    }
  }
}
