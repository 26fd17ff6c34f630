/**
  Numeric cells of the estimator's result table.

  The estimator works in floating point; this model uses exact rational arithmetic
  (`real`) instead. The one place where floating point matters for the behaviour
  is the hazard division `count_k / at_risk`: when `at_risk` is zero it yields
  NaN (or an infinity) instead of failing, and every column computed from that
  cell afterwards is non-finite too. `Value` keeps exactly that distinction.
*/
module Values {

  /** A finite number, or a non-finite one (IEEE NaN, +inf or -inf). */
  datatype Value = Finite(x: real) | NonFinite

  /** Addition; a non-finite operand gives a non-finite sum. */
  function Add(a: Value, b: Value): (r: Value)
    ensures r.Finite? <==> a.Finite? && b.Finite?
    ensures r.Finite? ==> r.x - a.x == b.x
  {
    if a.Finite? && b.Finite? then Finite(a.x + b.x) else NonFinite
  }

  /** Subtraction; a non-finite operand gives a non-finite difference. */
  function Sub(a: Value, b: Value): (r: Value)
    ensures r.Finite? <==> a.Finite? && b.Finite?
    ensures r.Finite? ==> r.x + b.x == a.x
  {
    if a.Finite? && b.Finite? then Finite(a.x - b.x) else NonFinite
  }

  /** Multiplication; a non-finite operand gives a non-finite product
      (in IEEE arithmetic infinity times zero is NaN, never a finite number). */
  function Mul(a: Value, b: Value): (r: Value)
    ensures r.Finite? <==> a.Finite? && b.Finite?
  {
    if a.Finite? && b.Finite? then Finite(a.x * b.x) else NonFinite
  }

  /** Division of two finite numbers: finite exactly when the divisor is not
      zero (0/0 is NaN and c/0 is an infinity otherwise). */
  function Div(a: real, b: real): (r: Value)
    ensures r.Finite? <==> b != 0.0
    ensures r.Finite? ==> r.x * b == a
  {
    if b == 0.0 then NonFinite else Finite(a / b)
  }
}
