/**
 * Solver results: the name-to-value map read from a solution file, and the
 * value of an expression under it.
 */
module Solutions {
  import opened Wrappers
  import opened Variables
  import opened Expressions
  import opened Constraints
  import VariableOps

  /** Values keyed by variable display name. */
  datatype Solution = Solution(values: map<string, real>)

  /** The value recorded for a variable's name, or zero when the solver did not report it. */
  function Lookup(sol: Solution, x: Variable): real {
    var n := Name(x);
    if n in sol.values then sol.values[n] else 0.0
  }

  /** One term's contribution: the looked-up value (one for a constant term) times the coefficient. */
  function TermValue(sol: Solution, t: Term): real {
    (match t.variable
     case Some(x) => Lookup(sol, x)
     case None => 1.0) * t.coef
  }

  /**
   * A term's contribution in each case: a constant counts its coefficient, a
   * variable its recorded value times the coefficient, or zero when the
   * solution does not name it.
   */
  lemma TermValueCases(sol: Solution, t: Term)
    ensures t.variable.None? ==> TermValue(sol, t) == t.coef
    ensures t.variable.Some? && Name(t.variable.value) !in sol.values ==> TermValue(sol, t) == 0.0
    ensures t.variable.Some? && Name(t.variable.value) in sol.values ==>
      TermValue(sol, t) == sol.values[Name(t.variable.value)] * t.coef
  {
  }

  /** The `map` step of `get_value`: each term's contribution, in order. */
  function Contributions(sol: Solution, ts: seq<Term>): (r: seq<real>)
    ensures |r| == |ts|
    ensures forall i :: 0 <= i < |ts| ==> r[i] == TermValue(sol, ts[i])
  {
    seq(|ts|, i requires 0 <= i < |ts| => TermValue(sol, ts[i]))
  }

  /** The `reduce(+)` step, left to right, with zero for the empty sequence. */
  function Sum(xs: seq<real>): real {
    if xs == [] then 0.0 else Sum(xs[..|xs| - 1]) + xs[|xs| - 1]
  }

  /** `Solution::get_value`: the sum of the term contributions. */
  function GetValue(sol: Solution, e: Expression): real {
    Sum(Contributions(sol, e.terms))
  }

  lemma {:induction false} SumAppend(a: seq<real>, b: seq<real>)
    ensures Sum(a + b) == Sum(a) + Sum(b)
    decreases |b|
  {
    if b == [] {
      assert a + b == a;
    } else {
      assert (a + b)[..|a + b| - 1] == a + b[..|b| - 1];
      SumAppend(a, b[..|b| - 1]);
    }
  }

  /** Scaling every element scales the sum. */
  lemma {:induction false} SumScale(xs: seq<real>, ys: seq<real>, s: real)
    requires |ys| == |xs|
    requires forall i :: 0 <= i < |xs| ==> ys[i] == s * xs[i]
    ensures Sum(ys) == s * Sum(xs)
    decreases |xs|
  {
    if xs != [] {
      var n := |xs| - 1;
      SumScale(xs[..n], ys[..n], s);
      ScaledSum(Sum(ys), Sum(ys[..n]), ys[n], Sum(xs), Sum(xs[..n]), xs[n], s);
    }
  }

  /** The arithmetic of the inductive step: a sum of two scaled parts is the scaled sum. */
  lemma ScaledSum(total: real, first: real, last: real, x: real, a: real, b: real, s: real)
    requires total == first + last && first == s * a && last == s * b && x == a + b
    ensures total == s * x
  {
  }

  /** A single term is worth its contribution. */
  lemma GetValueSingle(sol: Solution, t: Term)
    ensures GetValue(sol, Expression([t])) == TermValue(sol, t)
  {
    var c := Contributions(sol, [t]);
    assert c[..|c| - 1] == [];
    assert Sum(c) == 0.0 + TermValue(sol, t);
  }

  /** The empty expression is worth zero; a constant is worth itself; a variable its recorded value or zero. */
  lemma GetValueBasics(sol: Solution, k: real, x: Variable)
    ensures GetValue(sol, Default()) == 0.0
    ensures GetValue(sol, FromConst(k)) == k
    ensures GetValue(sol, FromVar(x)) == (if Name(x) in sol.values then sol.values[Name(x)] else 0.0)
  {
    GetValueSingle(sol, Term(k, None));
    GetValueSingle(sol, Term(1.0, Some(x)));
  }

  /** `get_value` is additive over `+`. */
  lemma GetValueAdd(sol: Solution, a: Expression, b: Expression)
    ensures GetValue(sol, Add(a, b)) == GetValue(sol, a) + GetValue(sol, b)
  {
    assert Add(a, b).terms == a.terms + b.terms;
    ContributionsAppend(sol, a.terms, b.terms);
    SumAppend(Contributions(sol, a.terms), Contributions(sol, b.terms));
  }

  lemma ContributionsAppend(sol: Solution, a: seq<Term>, b: seq<Term>)
    ensures Contributions(sol, a + b) == Contributions(sol, a) + Contributions(sol, b)
  {
    var ca, cb, cab := Contributions(sol, a), Contributions(sol, b), Contributions(sol, a + b);
    forall i | 0 <= i < |cab|
      ensures cab[i] == (ca + cb)[i]
    {
      if i < |a| {
        assert (a + b)[i] == a[i];
      } else {
        assert (a + b)[i] == b[i - |a|];
      }
    }
  }

  /** Appending one term adds that term's contribution. */
  lemma GetValueSnoc(sol: Solution, e: Expression, t: Term)
    ensures GetValue(sol, Expression(e.terms + [t])) == GetValue(sol, e) + TermValue(sol, t)
  {
    GetValueAdd(sol, e, Expression([t]));
    GetValueSingle(sol, t);
  }

  /** Scaling an expression scales its value. */
  lemma GetValueMul(sol: Solution, e: Expression, s: real)
    ensures GetValue(sol, Mul(e, s)) == s * GetValue(sol, e)
  {
    ContributionsMul(sol, e, s);
    SumScale(Contributions(sol, e.terms), Contributions(sol, Mul(e, s).terms), s);
  }

  /** Scaling an expression scales each term's contribution. */
  lemma ContributionsMul(sol: Solution, e: Expression, s: real)
    ensures |Contributions(sol, Mul(e, s).terms)| == |Contributions(sol, e.terms)|
    ensures forall i :: 0 <= i < |e.terms| ==>
      Contributions(sol, Mul(e, s).terms)[i] == s * Contributions(sol, e.terms)[i]
  {
    forall i | 0 <= i < |e.terms|
      ensures Contributions(sol, Mul(e, s).terms)[i] == s * Contributions(sol, e.terms)[i]
    {
      TermValueScale(sol, e.terms[i], s);
    }
  }

  lemma TermValueScale(sol: Solution, t: Term, s: real)
    ensures TermValue(sol, ScaleTerm(t, s)) == s * TermValue(sol, t)
  {
    var w := match t.variable case Some(x) => Lookup(sol, x) case None => 1.0;
    assert w * (s * t.coef) == s * (w * t.coef);
  }

  lemma GetValueNeg(sol: Solution, e: Expression)
    ensures GetValue(sol, Neg(e)) == -GetValue(sol, e)
  {
    GetValueMul(sol, e, 0.0 - 1.0);
  }

  lemma GetValueSub(sol: Solution, a: Expression, b: Expression)
    ensures GetValue(sol, Sub(a, b)) == GetValue(sol, a) - GetValue(sol, b)
  {
    GetValueAdd(sol, a, Neg(b));
    GetValueNeg(sol, b);
  }

  lemma GetValueDiv(sol: Solution, e: Expression, s: real)
    requires s != 0.0
    ensures GetValue(sol, Div(e, s)) == GetValue(sol, e) / s
  {
    GetValueMul(sol, e, 1.0 / s);
    ReciprocalScale(s, GetValue(sol, e));
  }

  lemma ReciprocalScale(s: real, x: real)
    requires s != 0.0
    ensures (1.0 / s) * x == x / s
  {
  }

  /** The value of an expression is the value of its variable terms plus the sum of its constants. */
  lemma {:induction false} GetValueSplit(sol: Solution, ts: seq<Term>)
    ensures GetValue(sol, Expression(ts)) == GetValue(sol, Expression(VarTerms(ts))) + ConstantSum(ts)
    decreases |ts|
  {
    if ts != [] {
      var head := if ts[0].variable.Some? then [ts[0]] else [];
      GetValueSplit(sol, ts[1..]);
      assert ts == [ts[0]] + ts[1..];
      GetValueAdd(sol, Expression([ts[0]]), Expression(ts[1..]));
      GetValueAdd(sol, Expression(head), Expression(VarTerms(ts[1..])));
      assert Expression(VarTerms(ts)) == Add(Expression(head), Expression(VarTerms(ts[1..])));
      assert Expression([ts[0]]).terms[..0] == [];
      if head != [] {
        assert Expression(head).terms[..0] == [];
      }
    }
  }

  /** Normalisation keeps `value(lhs) - value(rhs)` for every assignment of values. */
  lemma NormalizePreservesValue(sol: Solution, c: Constraint)
    ensures GetValue(sol, Normalize(c).lhs) - GetValue(sol, Normalize(c).rhs)
         == GetValue(sol, c.lhs) - GetValue(sol, c.rhs)
  {
    var delta := Sub(c.lhs, c.rhs);
    var k := ConstantSum(delta.terms);
    FoldConstTermsIsConstantSum(delta.terms);
    assert Normalize(c).lhs == Expression(VarTerms(delta.terms));
    assert Normalize(c).rhs == FromConst(-k);
    GetValueBasics(sol, -k, Variable(0, None));
    GetValueSplit(sol, delta.terms);
    GetValueSub(sol, c.lhs, c.rhs);
  }

  /** Whether the values satisfy a constraint. */
  predicate Satisfies(sol: Solution, c: Constraint) {
    match c.rel
    case Less => GetValue(sol, c.lhs) <= GetValue(sol, c.rhs)
    case Equal => GetValue(sol, c.lhs) == GetValue(sol, c.rhs)
    case Greater => GetValue(sol, c.lhs) >= GetValue(sol, c.rhs)
  }

  /** A constraint and its normal form are satisfied by exactly the same values. */
  lemma NormalizePreservesSatisfaction(sol: Solution, c: Constraint)
    ensures Satisfies(sol, Normalize(c)) <==> Satisfies(sol, c)
  {
    NormalizePreservesValue(sol, c);
  }

  /** The source's `-x` is worth `x`, not `-x`: with `x` recorded as one, it evaluates to one. */
  lemma NegVariableValueAsWritten(x: Variable)
    ensures GetValue(Solution(map[Name(x) := 1.0]), VariableOps.Neg(x)) == 1.0
    ensures GetValue(Solution(map[Name(x) := 1.0]), VariableOps.NegCorrected(x)) == -1.0
  {
    var sol := Solution(map[Name(x) := 1.0]);
    GetValueBasics(sol, 0.0, x);
    GetValueNeg(sol, FromVar(x));
  }

  /** The corrected `-x` is worth minus the value of `x` under every solution. */
  lemma NegCorrectedValue(sol: Solution, x: Variable)
    ensures GetValue(sol, VariableOps.NegCorrected(x)) == -GetValue(sol, FromVar(x))
  {
    GetValueNeg(sol, FromVar(x));
  }

}
