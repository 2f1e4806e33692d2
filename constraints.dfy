/**
 * Two-sided linear constraints and their normal form: every variable term on
 * the left, one constant on the right.
 */
module Constraints {
  import opened Wrappers
  import opened Variables
  import opened Expressions

  /** `std::cmp::Ordering` as the constraint relation: Less is `<=`, Equal `=`, Greater `>=`. */
  datatype Relation = Less | Equal | Greater

  datatype Constraint = Constraint(lhs: Expression, rel: Relation, rhs: Expression)

  /** `Expression::le`: `self <= expr`. */
  function Le(self: Expression, expr: Expression): (c: Constraint)
    ensures c.lhs == self && c.rel == Less && c.rhs == expr
  {
    Constraint(self, Less, expr)
  }

  /** `Expression::eq`: `self = expr`. */
  function Eq(self: Expression, expr: Expression): (c: Constraint)
    ensures c.lhs == self && c.rel == Equal && c.rhs == expr
  {
    Constraint(self, Equal, expr)
  }

  /** `Expression::ge`: `self >= expr`. */
  function Ge(self: Expression, expr: Expression): (c: Constraint)
    ensures c.lhs == self && c.rel == Greater && c.rhs == expr
  {
    Constraint(self, Greater, expr)
  }

  /** The terms that carry a variable, in their original order. */
  function VarTerms(ts: seq<Term>): (r: seq<Term>)
    ensures |r| <= |ts|
    ensures forall i :: 0 <= i < |r| ==> r[i].variable.Some?
  {
    if ts == [] then []
    else (if ts[0].variable.Some? then [ts[0]] else []) + VarTerms(ts[1..])
  }

  /** The filter keeps exactly the input's terms that carry a variable: none is dropped and none is added. */
  lemma {:induction false} VarTermsMembers(ts: seq<Term>)
    ensures forall t :: t in VarTerms(ts) <==> t in ts && t.variable.Some?
  {
    if ts != [] {
      VarTermsMembers(ts[1..]);
      assert ts == [ts[0]] + ts[1..];
    }
  }

  /** The constant terms, in their original order. */
  function ConstTerms(ts: seq<Term>): seq<Term> {
    if ts == [] then []
    else (if ts[0].variable.None? then [ts[0]] else []) + ConstTerms(ts[1..])
  }

  /** `fold(N::zero(), |r, (b, _)| r + b)`: left-to-right running sum of coefficients. */
  function FoldCoefs(acc: real, ts: seq<Term>): real
    decreases |ts|
  {
    if ts == [] then acc else FoldCoefs(acc + ts[0].coef, ts[1..])
  }

  /** Reference definition: the sum of the coefficients of the constant terms. */
  function ConstantSum(ts: seq<Term>): real {
    if ts == [] then 0.0
    else (if ts[0].variable.None? then ts[0].coef else 0.0) + ConstantSum(ts[1..])
  }

  /**
   * `Constraint::to_normalized`: compute `lhs - rhs`, keep its variable terms in
   * order as the new left side, fold its constants and move the negated sum to
   * the right side. The relation is carried through.
   */
  function Normalize(c: Constraint): (n: Constraint)
    ensures n.rel == c.rel
    ensures forall i :: 0 <= i < |n.lhs.terms| ==> n.lhs.terms[i].variable.Some?
    ensures |n.rhs.terms| == 1 && n.rhs.terms[0].variable.None?
  {
    var delta := Sub(c.lhs, c.rhs);
    var v := VarTerms(delta.terms);
    var k := FoldCoefs(0.0, ConstTerms(delta.terms));
    Constraint(Expression(v), c.rel, FromConst(-k))
  }

  // ---------------------------------------------------------------------------
  // Properties of the partition and the fold.

  lemma {:induction false} FoldCoefsShift(acc: real, ts: seq<Term>)
    ensures FoldCoefs(acc, ts) == acc + FoldCoefs(0.0, ts)
    decreases |ts|
  {
    if ts != [] {
      FoldCoefsShift(acc + ts[0].coef, ts[1..]);
      FoldCoefsShift(ts[0].coef, ts[1..]);
    }
  }

  /** Folding the filtered constants gives the reference sum. */
  lemma {:induction false} FoldConstTermsIsConstantSum(ts: seq<Term>)
    ensures FoldCoefs(0.0, ConstTerms(ts)) == ConstantSum(ts)
    decreases |ts|
  {
    if ts != [] {
      FoldConstTermsIsConstantSum(ts[1..]);
      if ts[0].variable.None? {
        assert ConstTerms(ts) == [ts[0]] + ConstTerms(ts[1..]);
        assert ([ts[0]] + ConstTerms(ts[1..]))[1..] == ConstTerms(ts[1..]);
        FoldCoefsShift(0.0 + ts[0].coef, ConstTerms(ts[1..]));
      } else {
        assert ConstTerms(ts) == ConstTerms(ts[1..]);
      }
    }
  }

  lemma {:induction false} VarTermsAppend(a: seq<Term>, b: seq<Term>)
    ensures VarTerms(a + b) == VarTerms(a) + VarTerms(b)
    decreases |a|
  {
    if a == [] {
      assert a + b == b;
    } else {
      assert (a + b)[1..] == a[1..] + b;
      VarTermsAppend(a[1..], b);
    }
  }

  lemma {:induction false} ConstantSumAppend(a: seq<Term>, b: seq<Term>)
    ensures ConstantSum(a + b) == ConstantSum(a) + ConstantSum(b)
    decreases |a|
  {
    if a == [] {
      assert a + b == b;
    } else {
      assert (a + b)[1..] == a[1..] + b;
      ConstantSumAppend(a[1..], b);
    }
  }

  /** Scaling scales the constant sum. */
  lemma {:induction false} ConstantSumMul(e: Expression, s: real)
    ensures ConstantSum(Mul(e, s).terms) == s * ConstantSum(e.terms)
    decreases |e.terms|
  {
    if e.terms != [] {
      var tail := Expression(e.terms[1..]);
      assert Mul(e, s).terms[1..] == Mul(tail, s).terms;
      ConstantSumMul(tail, s);
    }
  }

  /** The variable terms of a scaled expression are the scaled variable terms. */
  lemma {:induction false} VarTermsMul(e: Expression, s: real)
    ensures VarTerms(Mul(e, s).terms) == Mul(Expression(VarTerms(e.terms)), s).terms
    decreases |e.terms|
  {
    if e.terms != [] {
      var tail := Expression(e.terms[1..]);
      assert Mul(e, s).terms[1..] == Mul(tail, s).terms;
      VarTermsMul(tail, s);
      var head := if e.terms[0].variable.Some? then [e.terms[0]] else [];
      assert VarTerms(e.terms) == head + VarTerms(tail.terms);
      MulAdd(Expression(head), Expression(VarTerms(tail.terms)), s);
      assert Expression(VarTerms(e.terms)) == Add(Expression(head), Expression(VarTerms(tail.terms)));
    }
  }

  /** An expression made only of variable terms is its own variable part and has no constant. */
  lemma {:induction false} AllVariableTerms(ts: seq<Term>)
    requires forall i :: 0 <= i < |ts| ==> ts[i].variable.Some?
    ensures VarTerms(ts) == ts && ConstantSum(ts) == 0.0
    decreases |ts|
  {
    if ts != [] {
      AllVariableTerms(ts[1..]);
    }
  }

  // ---------------------------------------------------------------------------
  // What normalisation produces.

  /**
   * The normalised left side: the left side's variable terms, then the right
   * side's variable terms negated, each in its original order.
   */
  lemma NormalizeLhs(c: Constraint)
    ensures Normalize(c).lhs.terms == VarTerms(c.lhs.terms) + VarTerms(Neg(c.rhs).terms)
    ensures Normalize(c).lhs.terms == VarTerms(c.lhs.terms) + Neg(Expression(VarTerms(c.rhs.terms))).terms
  {
    VarTermsAppend(c.lhs.terms, Neg(c.rhs).terms);
    VarTermsMul(c.rhs, 0.0 - 1.0);
  }

  /**
   * The normalised right side: one constant, the right side's constants
   * minus the left side's.
   */
  lemma NormalizeRhs(c: Constraint)
    ensures Normalize(c).rhs == FromConst(ConstantSum(c.rhs.terms) - ConstantSum(c.lhs.terms))
  {
    var delta := Sub(c.lhs, c.rhs);
    FoldConstTermsIsConstantSum(delta.terms);
    ConstantSumAppend(c.lhs.terms, Neg(c.rhs).terms);
    ConstantSumMul(c.rhs, 0.0 - 1.0);
  }

  /** Normalising a normalised constraint changes nothing (exact arithmetic). */
  lemma NormalizeIdempotent(c: Constraint)
    ensures Normalize(Normalize(c)) == Normalize(c)
  {
    var n := Normalize(c);
    assert n.rhs == FromConst(n.rhs.terms[0].coef);
    NormalizeFixesNormalForm(n.lhs.terms, n.rel, n.rhs.terms[0].coef);
  }

  /** A constraint already in normal form (variable terms only, one constant) is left as it is. */
  lemma NormalizeFixesNormalForm(ts: seq<Term>, rel: Relation, k: real)
    requires forall i :: 0 <= i < |ts| ==> ts[i].variable.Some?
    ensures Normalize(Constraint(Expression(ts), rel, FromConst(k))) == Constraint(Expression(ts), rel, FromConst(k))
  {
    var n := Constraint(Expression(ts), rel, FromConst(k));
    NormalizeLhs(n);
    NormalizeRhs(n);
    AllVariableTerms(ts);
    NegConst(k);
    assert VarTerms([Term(-k, None)]) == [];
  }

  /** `2x + 3 <= y + 1` normalises to `2x - 1y <= -2`. */
  lemma NormalizeExample(x: Variable, y: Variable)
    ensures
      var c := Le(Add(Mul(FromVar(x), 2.0), FromConst(3.0)), Add(FromVar(y), FromConst(1.0)));
      Normalize(c) == Constraint(Expression([Term(2.0, Some(x)), Term(-1.0, Some(y))]), Less, FromConst(-2.0))
  {
    var c := Le(Add(Mul(FromVar(x), 2.0), FromConst(3.0)), Add(FromVar(y), FromConst(1.0)));
    NormalizeLhs(c);
    NormalizeRhs(c);
    assert c.lhs.terms == [Term(2.0, Some(x)), Term(3.0, None)];
    assert c.rhs.terms == [Term(1.0, Some(y)), Term(1.0, None)];
    assert Neg(c.rhs).terms == [Term(-1.0, Some(y)), Term(-1.0, None)];
  }

  // ---------------------------------------------------------------------------
  // Rendering (`Display for Constraint`).

  function RelationText(r: Relation): string {
    match r
    case Greater => " >= "
    case Equal => " = "
    case Less => " <= "
  }

  function RenderConstraint(c: Constraint, fmt: real -> string): string {
    Render(c.lhs, fmt) + RelationText(c.rel) + Render(c.rhs, fmt)
  }

  /** A normalised row renders as its variable terms, the relation token, and the single constant. */
  lemma RenderNormalized(c: Constraint, fmt: real -> string)
    ensures RenderConstraint(Normalize(c), fmt) ==
      Render(Normalize(c).lhs, fmt) + RelationText(c.rel) + fmt(ConstantSum(c.rhs.terms) - ConstantSum(c.lhs.terms))
  {
    var k := ConstantSum(c.rhs.terms) - ConstantSum(c.lhs.terms);
    NormalizeRhs(c);
    RenderConst(k, fmt);
  }
}
