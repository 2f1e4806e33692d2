/**
 * The model container: a variable table filled through a fluent builder, an
 * objective with a direction, append-only constraint and command lists, the
 * LP-format export of all of it, and the exact-rational solution import.
 */
module Models {
  import opened Wrappers
  import opened Decimal
  import opened Variables
  import opened Expressions
  import opened Constraints
  import opened Solutions
  import opened SolutionImport

  datatype VariableType = Binary | Integer | Continuous

  /** What the model records about a variable; the handle returned to the caller holds only the id and name. */
  datatype InternalVariable = InternalVariable(kind: VariableType, name: Option<string>, lb: Option<real>, ub: Option<real>)

  datatype OptimizationDirection = Maximize | Minimize

  /** `OptimizationDirection::default`. */
  function DefaultDirection(): (d: OptimizationDirection)
    ensures d != OptimizationDirection.Maximize
  {
    OptimizationDirection.Minimize
  }

  /** The metadata a fresh builder starts from: continuous, unnamed, unbounded. */
  function FreshVariable(): (v: InternalVariable)
    ensures v.kind == Continuous && v.name.None? && v.lb.None? && v.ub.None?
  {
    InternalVariable(Continuous, None, None, None)
  }

  class Model {
    var commands: seq<string>
    var objective: Expression
    var direction: OptimizationDirection
    var variables: seq<InternalVariable>
    var constraints: seq<Constraint>

    /** `Model::new` / `Model::default`: everything empty, minimising the zero objective. */
    constructor ()
      ensures commands == [] && objective.terms == [] && direction == OptimizationDirection.Minimize
      ensures variables == [] && constraints == []
    {
      commands := [];
      objective := Default();
      direction := DefaultDirection();
      variables := [];
      constraints := [];
    }

    method Maximize()
      modifies this`direction
      ensures direction == OptimizationDirection.Maximize
    {
      direction := OptimizationDirection.Maximize;
    }

    method Minimize()
      modifies this`direction
      ensures direction == OptimizationDirection.Minimize
    {
      direction := OptimizationDirection.Minimize;
    }

    /** Commands are kept in the order given; they are passed on to the solver untouched. */
    method AddCommand(command: string)
      modifies this`commands
      ensures commands == old(commands) + [command]
    {
      commands := commands + [command];
    }

    /** Constraints are kept in the order added; the export numbers them by position. */
    method AddConst(c: Constraint)
      modifies this`constraints
      ensures constraints == old(constraints) + [c]
    {
      constraints := constraints + [c];
    }

    method SetObjective(obj: Expression)
      modifies this`objective
      ensures objective == obj
    {
      objective := obj;
    }

    /**
     * `Model::add_var`: a builder over this model. Making one records nothing;
     * only `Build` touches the variable table.
     */
    function AddVar(): (b: VariableBuilder)
      ensures b.model == this && b.variable == FreshVariable()
    {
      VariableBuilder.New(this)
    }

    /**
     * `Model::export`: the LP text, as its lines. `fmt` renders coefficients
     * and `show` renders bounds.
     */
    method Export(fmt: real -> string, show: real -> string) returns (lines: seq<string>)
      ensures lines == ExportLines(direction, objective, constraints, variables, fmt, show)
    {
      lines := [DirectionLine(direction), ObjectiveLine(objective, fmt), "Subject To"];
      var rows := NumberedSection(constraints, ConstraintRowOf(fmt));
      lines := lines + rows + ["Bounds"];
      rows := NumberedSection(variables, BoundRowOf(show));
      lines := lines + rows + ["General"];
      rows := KindSection(variables, Integer);
      lines := lines + rows + ["Binary"];
      rows := KindSection(variables, Binary);
      lines := lines + rows + ["End"];
    }

    /**
     * `Model<BigRational>::import`, on the lines of the solution file: each
     * matching line records its value under its name, later lines winning.
     */
    method Import(lines: seq<string>) returns (r: Result<Solution, ImportError>)
      ensures r == ImportLines(lines)
    {
      var values: map<string, real> := map[];
      var i := 0;
      while i < |lines|
        invariant 0 <= i <= |lines|
        invariant ImportLines(lines[..i]) == Success(Solution(values))
      {
        ImportLinesSnoc(lines, i);
        var step := ReadLine(values, lines[i]);
        if step.Failure? {
          ImportStopsAtFailure(lines[..i + 1], lines[i + 1..]);
          assert lines[..i + 1] + lines[i + 1..] == lines;
          return Failure(step.error);
        }
        values := step.value.values;
        i := i + 1;
      }
      assert lines[..i] == lines;
      r := Success(Solution(values));
    }
  }

  /**
   * The body of the import loop, written as the statements the loop runs: a
   * matching line inserts its value under its name. `ImportLine` is the
   * function that specifies it; the import lemmas are stated about that.
   */
  method ReadLine(values: map<string, real>, l: string) returns (r: Result<Solution, ImportError>)
    ensures r == ImportLine(Solution(values), l)
  {
    match MatchLine(l) {
      case None =>
        return Success(Solution(values));
      case Some(cap) =>
        var v := CaptureValue(cap);
        if v.Failure? {
          return Failure(v.error);
        }
        return Success(Solution(values[cap.name := v.value]));
    }
  }

  /**
   * `VariableBuilder`: a borrowed model and the metadata being assembled.
   * The setters return an updated builder; `Build` commits it.
   */
  datatype VariableBuilder = VariableBuilder(model: Model, variable: InternalVariable)
  {
    static function New(model: Model): (b: VariableBuilder)
      ensures b.model == model && b.variable == FreshVariable()
    {
      VariableBuilder(model, FreshVariable())
    }

    function Binary(): (b: VariableBuilder)
      ensures b.model == model && b.variable.kind == VariableType.Binary
      ensures b.variable.name == variable.name && b.variable.lb == variable.lb && b.variable.ub == variable.ub
    {
      this.(variable := variable.(kind := VariableType.Binary))
    }

    function Integer(): (b: VariableBuilder)
      ensures b.model == model && b.variable.kind == VariableType.Integer
      ensures b.variable.name == variable.name && b.variable.lb == variable.lb && b.variable.ub == variable.ub
    {
      this.(variable := variable.(kind := VariableType.Integer))
    }

    function Name(name: string): (b: VariableBuilder)
      ensures b.model == model && b.variable.name == Some(name)
      ensures b.variable.kind == variable.kind && b.variable.lb == variable.lb && b.variable.ub == variable.ub
    {
      this.(variable := variable.(name := Some(name)))
    }

    function Lb(lb: real): (b: VariableBuilder)
      ensures b.model == model && b.variable.lb == Some(lb)
      ensures b.variable.kind == variable.kind && b.variable.name == variable.name && b.variable.ub == variable.ub
    {
      this.(variable := variable.(lb := Some(lb)))
    }

    function Ub(ub: real): (b: VariableBuilder)
      ensures b.model == model && b.variable.ub == Some(ub)
      ensures b.variable.kind == variable.kind && b.variable.name == variable.name && b.variable.lb == variable.lb
    {
      this.(variable := variable.(ub := Some(ub)))
    }

    /**
     * `VariableBuilder::build`: the new variable's id is the number of
     * variables already in the table, and its metadata is appended. The name
     * the export writes for that row is the variable's own name.
     */
    method Build() returns (v: Variable)
      modifies model`variables
      ensures v.id == old(|model.variables|) && v.name == variable.name
      ensures model.variables == old(model.variables) + [variable]
      ensures RowName(v.id, model.variables[v.id]) == Variables.Name(v)
    {
      v := Variables.New(|model.variables|, variable.name);
      model.variables := model.variables + [variable];
      RowNameIsVariableName(v.id, variable);
    }
  }

  // ---------------------------------------------------------------------------
  // The export text.

  function DirectionLine(d: OptimizationDirection): string {
    match d
    case Maximize => "Maximize"
    case Minimize => "Minimize"
  }

  /** The objective row: only the variable terms are written; constants are dropped. */
  function ObjectiveLine(obj: Expression, fmt: real -> string): string {
    " obj: " + Render(Expression(VarTerms(obj.terms)), fmt)
  }

  /** Row `i` of `Subject To`: ` c<i>: ` and the normalised constraint. */
  function ConstraintRow(i: nat, c: Constraint, fmt: real -> string): string {
    " c" + NatToString(i) + ": " + RenderConstraint(Normalize(c), fmt)
  }

  /** Row `i` of `xs` written by `row`, for each `i` in order: an enumerated loop's output. */
  function Numbered<T>(xs: seq<T>, row: (nat, T) -> string): seq<string> {
    if xs == [] then []
    else Numbered(xs[..|xs| - 1], row) + [row(|xs| - 1, xs[|xs| - 1])]
  }

  function ConstraintRowOf(fmt: real -> string): (nat, Constraint) -> string {
    (i: nat, c: Constraint) => ConstraintRow(i, c, fmt)
  }

  function ConstraintRows(cs: seq<Constraint>, fmt: real -> string): seq<string> {
    Numbered(cs, ConstraintRowOf(fmt))
  }

  /** The name written for table row `i`: the stored name, else `v<i>`. */
  function RowName(i: nat, v: InternalVariable): string {
    match v.name
    case Some(n) => n
    case None => FallbackName(i)
  }

  /** The bounds row of table row `i`, in one of its four forms. */
  function BoundRow(i: nat, v: InternalVariable, show: real -> string): string {
    match (v.lb, v.ub)
    case (Some(lb), Some(ub)) => " " + show(lb) + " <= " + RowName(i, v) + " <= " + show(ub)
    case (Some(lb), None) => " " + show(lb) + " <= " + RowName(i, v) + " <= +inf"
    case (None, Some(ub)) => " -inf <= " + RowName(i, v) + " <= " + show(ub)
    case (None, None) => " " + RowName(i, v) + " free"
  }

  function BoundRowOf(show: real -> string): (nat, InternalVariable) -> string {
    (i: nat, v: InternalVariable) => BoundRow(i, v, show)
  }

  function BoundRows(vs: seq<InternalVariable>, show: real -> string): seq<string> {
    Numbered(vs, BoundRowOf(show))
  }

  /** A `General` or `Binary` entry: a stored name as it is, an unnamed row as ` v<i>`. */
  function KindRow(i: nat, v: InternalVariable): string {
    match v.name
    case Some(n) => n
    case None => " " + FallbackName(i)
  }

  /** The entries of the rows of kind `k`, in table order. */
  function KindRows(vs: seq<InternalVariable>, k: VariableType): seq<string> {
    if vs == [] then []
    else KindRows(vs[..|vs| - 1], k) + (if vs[|vs| - 1].kind == k then [KindRow(|vs| - 1, vs[|vs| - 1])] else [])
  }

  /** The section markers around the rendered pieces of an export. */
  function Assemble(first: string, objective: string, rows: seq<string>, bounds: seq<string>,
                    general: seq<string>, binary: seq<string>): seq<string>
  {
    [first, objective, "Subject To"] + rows
    + ["Bounds"] + bounds
    + ["General"] + general
    + ["Binary"] + binary
    + ["End"]
  }

  /** The whole export. */
  function ExportLines(d: OptimizationDirection, obj: Expression, cs: seq<Constraint>,
                       vs: seq<InternalVariable>, fmt: real -> string, show: real -> string): seq<string>
  {
    Assemble(DirectionLine(d), ObjectiveLine(obj, fmt), ConstraintRows(cs, fmt),
             BoundRows(vs, show), KindRows(vs, Integer), KindRows(vs, Binary))
  }

  /** An enumerated loop writing one row per element. */
  method NumberedSection<T>(xs: seq<T>, row: (nat, T) -> string) returns (rows: seq<string>)
    ensures rows == Numbered(xs, row)
  {
    rows := [];
    var i := 0;
    while i < |xs|
      invariant 0 <= i <= |xs|
      invariant rows == Numbered(xs[..i], row)
    {
      assert xs[..i + 1][..i] == xs[..i];
      rows := rows + [row(i, xs[i])];
      i := i + 1;
    }
    assert xs[..i] == xs;
  }

  /** The loop over the table that writes the entries of one kind. */
  method KindSection(vs: seq<InternalVariable>, k: VariableType) returns (rows: seq<string>)
    ensures rows == KindRows(vs, k)
  {
    rows := [];
    var i := 0;
    while i < |vs|
      invariant 0 <= i <= |vs|
      invariant rows == KindRows(vs[..i], k)
    {
      assert vs[..i + 1][..i] == vs[..i];
      if vs[i].kind == k {
        rows := rows + [KindRow(i, vs[i])];
      }
      i := i + 1;
    }
    assert vs[..i] == vs;
  }

  // ---------------------------------------------------------------------------
  // Properties of the export.

  /** The row name of a table entry is the name of the variable `build` returned for it. */
  lemma RowNameIsVariableName(i: nat, v: InternalVariable)
    ensures RowName(i, v) == Variables.Name(Variables.New(i, v.name))
  {
  }

  lemma {:induction false} NumberedLength<T>(xs: seq<T>, row: (nat, T) -> string)
    ensures |Numbered(xs, row)| == |xs|
  {
    if xs != [] {
      NumberedLength(xs[..|xs| - 1], row);
    }
  }

  /** Output row `i` is written from element `i`, for every `i`, and there is one row per element. */
  lemma {:induction false} NumberedAt<T>(xs: seq<T>, row: (nat, T) -> string)
    ensures |Numbered(xs, row)| == |xs|
    ensures forall i :: 0 <= i < |xs| ==> Numbered(xs, row)[i] == row(i, xs[i])
  {
    if xs != [] {
      NumberedAt(xs[..|xs| - 1], row);
    }
  }

  /** An entry is in a kind section exactly when some row of that kind writes it. */
  lemma {:induction false} KindRowsMembers(vs: seq<InternalVariable>, k: VariableType, line: string)
    ensures line in KindRows(vs, k) <==> exists i :: 0 <= i < |vs| && vs[i].kind == k && KindRow(i, vs[i]) == line
  {
    if vs != [] {
      var n := |vs| - 1;
      var init := vs[..n];
      KindRowsMembers(init, k, line);
      if line in KindRows(vs, k) && line !in KindRows(init, k) {
        assert vs[n].kind == k && KindRow(n, vs[n]) == line;
      }
      if exists i :: 0 <= i < |vs| && vs[i].kind == k && KindRow(i, vs[i]) == line {
        var i :| 0 <= i < |vs| && vs[i].kind == k && KindRow(i, vs[i]) == line;
        if i < n {
          assert init[i] == vs[i];
        }
      }
    }
  }

  /** A kind section has at most one entry per table row. */
  lemma {:induction false} KindRowsLength(vs: seq<InternalVariable>, k: VariableType)
    ensures |KindRows(vs, k)| <= |vs|
  {
    if vs != [] {
      KindRowsLength(vs[..|vs| - 1], k);
    }
  }

  /**
   * The layout of an export: the direction, the objective row and
   * `Subject To`, then the constraint rows, `Bounds` and the bounds rows,
   * `General` and its entries, `Binary` and its entries, and `End`.
   */
  lemma AssembleLayout(first: string, objective: string, rows: seq<string>, bounds: seq<string>,
                       general: seq<string>, binary: seq<string>)
    ensures var lines := Assemble(first, objective, rows, bounds, general, binary);
      var g := 4 + |rows| + |bounds|;
      var b := g + 1 + |general|;
      && |lines| == b + 2 + |binary|
      && lines[0] == first && lines[1] == objective && lines[2] == "Subject To"
      && lines[3..3 + |rows|] == rows
      && lines[3 + |rows|] == "Bounds"
      && lines[4 + |rows|..g] == bounds
      && lines[g] == "General"
      && lines[g + 1..b] == general
      && lines[b] == "Binary"
      && lines[b + 1..|lines| - 1] == binary
      && lines[|lines| - 1] == "End"
  {
    var s1 := [first, objective, "Subject To"] + rows;
    var s2 := s1 + ["Bounds"] + bounds;
    var s3 := s2 + ["General"] + general;
    var s4 := s3 + ["Binary"] + binary;
    var lines := s4 + ["End"];
    assert lines[..|s4|] == s4;
    assert s4[..|s3|] == s3;
    assert s3[..|s2|] == s2;
    assert s2[..|s1|] == s1;
  }

  /** One constraint row and one bounds row per entry, whatever the sections hold. */
  lemma ExportLength(d: OptimizationDirection, obj: Expression, cs: seq<Constraint>,
                     vs: seq<InternalVariable>, fmt: real -> string, show: real -> string)
    ensures |ExportLines(d, obj, cs, vs, fmt, show)| == 7 + |cs| + |vs| + |KindRows(vs, Integer)| + |KindRows(vs, Binary)|
    ensures |ExportLines(d, obj, cs, vs, fmt, show)| <= 7 + |cs| + 3 * |vs|
  {
    NumberedLength(cs, ConstraintRowOf(fmt));
    NumberedLength(vs, BoundRowOf(show));
    KindRowsLength(vs, Integer);
    KindRowsLength(vs, Binary);
    AssembleLayout(DirectionLine(d), ObjectiveLine(obj, fmt), ConstraintRows(cs, fmt),
                   BoundRows(vs, show), KindRows(vs, Integer), KindRows(vs, Binary));
  }

  /** The objective row ignores constant terms: adding a constant to the objective does not change it. */
  lemma ObjectiveIgnoresConstants(obj: Expression, k: real, fmt: real -> string)
    ensures ObjectiveLine(Add(obj, FromConst(k)), fmt) == ObjectiveLine(obj, fmt)
  {
    VarTermsAppend(obj.terms, FromConst(k).terms);
    assert FromConst(k).terms[1..] == [];
    assert VarTerms(obj.terms) + [] == VarTerms(obj.terms);
  }

  /** A fresh model exports the empty skeleton. */
  lemma ExportEmpty(fmt: real -> string, show: real -> string)
    ensures ExportLines(DefaultDirection(), Default(), [], [], fmt, show)
         == ["Minimize", " obj: ", "Subject To", "Bounds", "General", "Binary", "End"]
  {
    assert VarTerms(Default().terms) == [];
    RenderDefault(fmt);
    assert ObjectiveLine(Default(), fmt) == " obj: " + "";
    assert " obj: " + "" == " obj: ";
    assert DirectionLine(DefaultDirection()) == "Minimize";
    var none: seq<InternalVariable> := [];
    var noRows: seq<Constraint> := [];
    assert ConstraintRows(noRows, fmt) == [];
    assert BoundRows(none, show) == [];
    assert KindRows(none, Integer) == [] && KindRows(none, Binary) == [];
    var empty: seq<string> := [];
    assert ExportLines(DefaultDirection(), Default(), [], [], fmt, show) == Assemble("Minimize", " obj: ", empty, empty, empty, empty);
    assert Assemble("Minimize", " obj: ", empty, empty, empty, empty)
        == ["Minimize", " obj: ", "Subject To"] + ["Bounds"] + ["General"] + ["Binary"] + ["End"];
  }

  // ---------------------------------------------------------------------------
  // Import.

  /** Reading one more line: its effect on the map read so far, unless the reading already stopped. */
  lemma ImportLinesSnoc(lines: seq<string>, i: nat)
    requires i < |lines|
    ensures ImportLines(lines[..i + 1]) ==
      match ImportLines(lines[..i])
      case Failure(err) => Failure(err)
      case Success(s) => ImportLine(s, lines[i])
  {
    assert lines[..i + 1][..i] == lines[..i];
  }

  /** A rejected fraction ends the import: nothing read after it matters. */
  lemma ImportStopsAtFailure(a: seq<string>, b: seq<string>)
    requires ImportLines(a).Failure?
    ensures ImportLines(a + b) == ImportLines(a)
  {
    ImportFromAppend(Solution(map[]), a, b);
  }

  // ---------------------------------------------------------------------------
  // Constants.

  /** `Constant`: a number that multiplies an expression from the left. */
  datatype Constant = Constant(value: real)

  /** `Constant * e`: `e` scaled by the constant, term by term. */
  function ConstantMul(k: Constant, e: Expression): (r: Expression)
    ensures |r.terms| == |e.terms|
    ensures forall i :: 0 <= i < |e.terms| ==> r.terms[i] == Term(k.value * e.terms[i].coef, e.terms[i].variable)
  {
    Mul(e, k.value)
  }

  /** `c`: an integer as an exact constant. */
  function C(n: int): (k: Constant)
    ensures k.value == n as real
  {
    Constant(n as real)
  }

  /** The value of `k * e` is `k` times the value of `e`. */
  lemma GetValueConstantMul(sol: Solution, k: Constant, e: Expression)
    ensures GetValue(sol, ConstantMul(k, e)) == k.value * GetValue(sol, e)
  {
    GetValueMul(sol, e, k.value);
  }

  /**
   * Building named variables around a builder that is dropped: the dropped
   * builder takes no id, so the third built variable gets id 2.
   */
  method BuildAroundDroppedBuilder() returns (a: Variable, b: Variable, e: Variable)
    ensures a == Variable(0, Some("a")) && b == Variable(1, Some("b")) && e == Variable(2, Some("e"))
  {
    var model := new Model();
    var builder := model.AddVar().Name("a");
    a := builder.Build();
    builder := model.AddVar().Name("b");
    b := builder.Build();
    var dropped := model.AddVar();
    builder := model.AddVar().Name("e");
    e := builder.Build();
  }
}
