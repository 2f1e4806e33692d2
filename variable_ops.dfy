/**
 * The operators on a variable handle. Each one promotes the variable to the
 * one-term expression `1·x` and then applies the expression operator — except
 * unary minus, which promotes and stops (see `Neg` and `NegCorrected`).
 */
module VariableOps {
  import opened Wrappers
  import opened Variables
  import E = Expressions
  import C = Constraints

  /** `x.le(expr)`: the constraint `1·x <= expr`. */
  function Le(x: Variable, expr: E.Expression): (c: C.Constraint)
    ensures c == C.Le(E.FromVar(x), expr)
    ensures c.lhs.terms == [E.Term(1.0, Some(x))] && c.rel == C.Less && c.rhs == expr
  {
    C.Le(E.FromVar(x), expr)
  }

  /** `x.eq(expr)`: the constraint `1·x = expr`. */
  function Eq(x: Variable, expr: E.Expression): (c: C.Constraint)
    ensures c == C.Eq(E.FromVar(x), expr)
    ensures c.lhs.terms == [E.Term(1.0, Some(x))] && c.rel == C.Equal && c.rhs == expr
  {
    C.Eq(E.FromVar(x), expr)
  }

  /** `x.ge(expr)`: the constraint `1·x >= expr`. */
  function Ge(x: Variable, expr: E.Expression): (c: C.Constraint)
    ensures c == C.Ge(E.FromVar(x), expr)
    ensures c.lhs.terms == [E.Term(1.0, Some(x))] && c.rel == C.Greater && c.rhs == expr
  {
    C.Ge(E.FromVar(x), expr)
  }

  /** `x + e`: the term `1·x` followed by the terms of `e`. */
  function Add(x: Variable, e: E.Expression): (r: E.Expression)
    ensures r == E.Add(E.FromVar(x), e)
    ensures r.terms == [E.Term(1.0, Some(x))] + e.terms
  {
    E.Add(E.FromVar(x), e)
  }

  /** `x - e`: the term `1·x` followed by the terms of `e` negated. */
  function Sub(x: Variable, e: E.Expression): (r: E.Expression)
    ensures r == E.Sub(E.FromVar(x), e)
    ensures r.terms == [E.Term(1.0, Some(x))] + E.Neg(e).terms
  {
    E.Sub(E.FromVar(x), e)
  }

  /** `x * s`: the single term `s·x`. */
  function Mul(x: Variable, s: real): (r: E.Expression)
    ensures r == E.Mul(E.FromVar(x), s)
    ensures r.terms == [E.Term(s, Some(x))]
  {
    E.Mul(E.FromVar(x), s)
  }

  /** `x / s`: the single term `(1/s)·x`. */
  function Div(x: Variable, s: real): (r: E.Expression)
    requires s != 0.0
    ensures r == E.Div(E.FromVar(x), s)
    ensures r.terms == [E.Term(1.0 / s, Some(x))]
  {
    E.Div(E.FromVar(x), s)
  }

  /** `-x` as the source has it: the variable promoted to `1·x`, with no negation. */
  function Neg(x: Variable): (r: E.Expression)
    ensures r.terms == [E.Term(1.0, Some(x))]
  {
    E.FromVar(x)
  }

  /** `-x` as an expression negation would give it: the single term `-1·x`. */
  function NegCorrected(x: Variable): (r: E.Expression)
    ensures r == E.Neg(E.FromVar(x))
    ensures r.terms == [E.Term(-1.0, Some(x))]
  {
    E.Neg(E.FromVar(x))
  }

  /**
   * The discrepancy: for every variable, the source's `-x` differs from the
   * negation of `x` as an expression, and equals `x` itself.
   */
  lemma NegDoesNotNegate(x: Variable)
    ensures Neg(x) == E.FromVar(x)
    ensures Neg(x) != E.Neg(E.FromVar(x))
  {
    assert Neg(x).terms[0].coef == 1.0;
    assert NegCorrected(x).terms[0].coef == -1.0;
  }
}
