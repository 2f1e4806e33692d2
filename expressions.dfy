/**
 * Sparse linear expressions: an ordered list of (coefficient, optional
 * variable) terms. A term without a variable is a constant. Composition never
 * merges or reorders terms; only constraint normalisation folds constants.
 */
module Expressions {
  import opened Wrappers
  import opened Variables
  import opened Sequences

  datatype Term = Term(coef: real, variable: Option<Variable>)

  datatype Expression = Expression(terms: seq<Term>)

  /** `Default`: the zero expression has no terms. */
  function Default(): (e: Expression)
    ensures |e.terms| == 0
  {
    Expression([])
  }

  /** `From<N>`: a single constant term. */
  function FromConst(bias: real): (e: Expression)
    ensures |e.terms| == 1 && e.terms[0].coef == bias && e.terms[0].variable.None?
  {
    Expression([Term(bias, None)])
  }

  /** `From<Variable>`: a single term with coefficient one. */
  function FromVar(v: Variable): (e: Expression)
    ensures |e.terms| == 1 && e.terms[0].coef == 1.0 && e.terms[0].variable == Some(v)
  {
    Expression([Term(1.0, Some(v))])
  }

  /** `Add`: the left operand's terms followed by the right operand's. */
  function Add(a: Expression, b: Expression): (r: Expression)
    ensures |r.terms| == |a.terms| + |b.terms|
    ensures r.terms[..|a.terms|] == a.terms && r.terms[|a.terms|..] == b.terms
  {
    Expression(a.terms + b.terms)
  }

  /** The term `w` scaled by `s`, computed as `s * w` like the source. */
  function ScaleTerm(t: Term, s: real): Term {
    Term(s * t.coef, t.variable)
  }

  /** `Mul`: every coefficient multiplied by the scalar; variables untouched. */
  function Mul(e: Expression, s: real): (r: Expression)
    ensures |r.terms| == |e.terms|
  {
    Expression(seq(|e.terms|, i requires 0 <= i < |e.terms| => ScaleTerm(e.terms[i], s)))
  }

  /** `Neg`: scaling by `0 - 1`. */
  function Neg(e: Expression): (r: Expression)
    ensures |r.terms| == |e.terms|
    ensures forall i :: 0 <= i < |e.terms| ==>
      r.terms[i].coef == -e.terms[i].coef && r.terms[i].variable == e.terms[i].variable
  {
    Mul(e, 0.0 - 1.0)
  }

  /** `Sub`: `a + (-b)`. */
  function Sub(a: Expression, b: Expression): (r: Expression)
    ensures |r.terms| == |a.terms| + |b.terms|
    ensures r.terms[..|a.terms|] == a.terms
    ensures forall i :: 0 <= i < |b.terms| ==>
      r.terms[|a.terms| + i].coef == -b.terms[i].coef &&
      r.terms[|a.terms| + i].variable == b.terms[i].variable
  {
    Add(a, Neg(b))
  }

  /** `Div`: scaling by `1 / s`. A zero divisor panics inside the rational type. */
  function Div(e: Expression, s: real): (r: Expression)
    requires s != 0.0
    ensures |r.terms| == |e.terms|
  {
    Mul(e, 1.0 / s)
  }

  /**
   * `Mul` on the owned term vector: every coefficient is replaced in place
   * by `s * w`, in one pass.
   */
  method MulInPlace(terms: array<Term>, s: real)
    modifies terms
    ensures terms[..] == Mul(Expression(old(terms[..])), s).terms
  {
    var i := 0;
    while i < terms.Length
      invariant 0 <= i <= terms.Length
      invariant forall k :: 0 <= k < i ==> terms[k] == ScaleTerm(old(terms[k]), s)
      invariant forall k :: i <= k < terms.Length ==> terms[k] == old(terms[k])
    {
      terms[i] := terms[i].(coef := s * terms[i].coef);
      i := i + 1;
    }
  }

  /** Scaling twice is scaling once by the product (outer factor on the left). */
  lemma MulMul(e: Expression, s: real, t: real)
    ensures Mul(Mul(e, s), t) == Mul(e, t * s)
  {
    forall i | 0 <= i < |e.terms|
      ensures Mul(Mul(e, s), t).terms[i] == Mul(e, t * s).terms[i]
    {
      assert t * (s * e.terms[i].coef) == (t * s) * e.terms[i].coef;
    }
    assert Mul(Mul(e, s), t).terms == Mul(e, t * s).terms;
  }

  /** Negating twice gives back the same terms. */
  lemma {:induction false} NegNeg(e: Expression)
    ensures Neg(Neg(e)) == e
  {
    MulMul(e, 0.0 - 1.0, 0.0 - 1.0);
    assert Mul(e, 1.0).terms == e.terms;
  }

  /** In exact arithmetic, dividing by a nonzero scalar and multiplying back is the identity. */
  lemma {:induction false} DivThenMul(e: Expression, s: real)
    requires s != 0.0
    ensures Mul(Div(e, s), s) == e
  {
    var u := 1.0 / s;
    assert s * u == 1.0;
    MulMul(e, u, s);
    forall i | 0 <= i < |e.terms| ensures Mul(e, s * u).terms[i] == e.terms[i] {
      assert (s * u) * e.terms[i].coef == e.terms[i].coef;
    }
    assert Mul(e, s * u).terms == e.terms;
  }

  /** Negating a constant negates its value. */
  lemma NegConst(k: real)
    ensures Neg(FromConst(k)) == FromConst(-k)
  {
    assert Neg(FromConst(k)).terms == FromConst(-k).terms;
  }

  /** Scaling distributes over concatenation. */
  lemma MulAdd(a: Expression, b: Expression, s: real)
    ensures Mul(Add(a, b), s) == Add(Mul(a, s), Mul(b, s))
  {
    assert Mul(Add(a, b), s).terms == Add(Mul(a, s), Mul(b, s)).terms;
  }

  // ---------------------------------------------------------------------------
  // Rendering (`Display for Expression`). Number-to-text is the parameter `fmt`,
  // which stands for the source's `{:.64}` rendering of a coefficient.

  function Abs(x: real): real {
    if x < 0.0 then -x else x
  }

  /** The ` name` suffix of a variable term; nothing for a constant term. */
  function VariableSuffix(v: Option<Variable>): string {
    match v
    case Some(x) => " " + Display(x)
    case None => ""
  }

  /** The first term: its signed coefficient, then the variable name if any. */
  function FirstTermText(t: Term, fmt: real -> string): string {
    fmt(t.coef) + VariableSuffix(t.variable)
  }

  /** A later term: ` + w` when `w == |w|`, else ` - |w|`, then the variable name if any. */
  function LaterTermText(t: Term, fmt: real -> string): string {
    (if t.coef == Abs(t.coef) then " + " + fmt(t.coef) else " - " + fmt(Abs(t.coef)))
    + VariableSuffix(t.variable)
  }

  /** The per-term text of later terms, for a given number rendering. */
  function LaterText(fmt: real -> string): Term -> string {
    t => LaterTermText(t, fmt)
  }

  /** The texts of `ts`, written left to right. */
  function JoinTexts(ts: seq<Term>, text: Term -> string): string {
    if ts == [] then "" else JoinTexts(ts[..|ts| - 1], text) + text(ts[|ts| - 1])
  }

  /** The text of a run of later terms. */
  function LaterTermsText(ts: seq<Term>, fmt: real -> string): string {
    JoinTexts(ts, LaterText(fmt))
  }

  function Render(e: Expression, fmt: real -> string): string {
    if e.terms == [] then "" else FirstTermText(e.terms[0], fmt) + LaterTermsText(e.terms[1..], fmt)
  }

  /** `Display::fmt`: walks the terms once, appending each term's text. */
  method Write(e: Expression, fmt: real -> string) returns (out: string)
    ensures out == Render(e, fmt)
  {
    out := "";
    if |e.terms| == 0 {
      return;
    }
    out := FirstTermText(e.terms[0], fmt);
    var i := 1;
    while i < |e.terms|
      invariant 1 <= i <= |e.terms|
      invariant out == FirstTermText(e.terms[0], fmt) + LaterTermsText(e.terms[1..i], fmt)
    {
      assert e.terms[1..i + 1] == e.terms[1..i] + [e.terms[i]];
      JoinTextsSnoc(e.terms[1..i], e.terms[i], LaterText(fmt));
      ConcatAssoc(FirstTermText(e.terms[0], fmt), LaterTermsText(e.terms[1..i], fmt), LaterText(fmt)(e.terms[i]));
      out := out + LaterText(fmt)(e.terms[i]);
      i := i + 1;
    }
    assert e.terms[1..i] == e.terms[1..];
  }

  /** The sign written before a later term follows the coefficient's sign. */
  lemma LaterTermSign(t: Term, fmt: real -> string)
    ensures t.coef >= 0.0 ==> LaterTermText(t, fmt) == " + " + fmt(t.coef) + VariableSuffix(t.variable)
    ensures t.coef < 0.0 ==> LaterTermText(t, fmt) == " - " + fmt(-t.coef) + VariableSuffix(t.variable)
  {
  }

  /** Writing one more term appends its text. */
  lemma JoinTextsSnoc(ts: seq<Term>, t: Term, text: Term -> string)
    ensures JoinTexts(ts + [t], text) == JoinTexts(ts, text) + text(t)
  {
    assert (ts + [t])[..|ts|] == ts;
  }

  lemma {:induction false} JoinTextsAppend(a: seq<Term>, b: seq<Term>, text: Term -> string)
    ensures JoinTexts(a + b, text) == JoinTexts(a, text) + JoinTexts(b, text)
    decreases |b|
  {
    if b == [] {
      assert a + b == a;
    } else {
      var b' := b[..|b| - 1];
      assert (a + b)[..|a + b| - 1] == a + b';
      JoinTextsAppend(a, b', text);
    }
  }

  /**
   * Rendering a sum: the left operand's text followed by the right operand's
   * terms, each written as a later term (no merging, no reordering).
   */
  lemma {:induction false} RenderAdd(a: Expression, b: Expression, fmt: real -> string)
    requires a.terms != []
    ensures Render(Add(a, b), fmt) == Render(a, fmt) + LaterTermsText(b.terms, fmt)
  {
    assert Add(a, b).terms[1..] == a.terms[1..] + b.terms;
    JoinTextsAppend(a.terms[1..], b.terms, LaterText(fmt));
  }

  /** The zero expression renders as the empty text. */
  lemma RenderDefault(fmt: real -> string)
    ensures Render(Default(), fmt) == ""
  {
  }

  /** A single constant renders as its number text alone. */
  lemma RenderConst(bias: real, fmt: real -> string)
    ensures Render(FromConst(bias), fmt) == fmt(bias)
  {
    assert FromConst(bias).terms[1..] == [];
  }

  /** A single variable renders as the number one, a space and the variable's name. */
  lemma RenderVar(v: Variable, fmt: real -> string)
    ensures Render(FromVar(v), fmt) == fmt(1.0) + " " + Name(v)
  {
    assert FromVar(v).terms[1..] == [];
    DisplayIsName(v);
  }
}
