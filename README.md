# exact_lp in Dafny

This project models the core of `exact_lp`, a small Rust library for building linear and
integer programs. A program is built in memory and written out in the CPLEX LP text format.
A solution file that the SCIP solver writes back is then read in. The model covers:

- **Variables** (`Variables`, `VariableOps`): a variable is a handle made of a row index and an
  optional name. An unnamed variable is called `v<id>`. The operators on a variable turn it
  into a one-term expression and delegate to the expression operators, except unary minus. It
  returns the promoted variable unchanged (see "## Findings").
- **Expressions** (`Expressions`): an ordered list of `(coefficient, optional variable)` terms.
  Addition concatenates the lists. Negation, multiplication and division scale every coefficient.
  Nothing is ever merged or reordered. Scaling in place over an array is `MulInPlace`. The
  `Display` loop is `Write`, proved against the function `Render`.
- **Constraints** (`Constraints`): `lhs <rel> rhs`. Normalisation moves everything to the left
  and keeps only the variable terms there. It folds the constants into a single constant on the
  right. The rendered form is `lhs <= / = / >= rhs`.
- **Solutions** (`Solutions`, `SolutionImport`): a map from variable names to values.
  `get_value` sums each term's contribution. The value of a missing name is zero, and a constant
  term counts its coefficient. Import reads a solution file line by line with the pattern
  `^(\w+)\s+(\d+(/\d+)?)`. Lines that do not match are skipped, and a later line for the same
  name wins.
- **The model** (`Models`): the class `Model` holds the solver commands, the objective, the
  direction, the variable table and the constraints. Its methods update these fields in place.
  `VariableBuilder` adds a row to the variable table. `Export` writes the LP file section by
  section in loops; each loop is proved against a function that specifies its rows. `Import`
  reads the lines in a loop proved against `ImportLines`.

The numeric type `N` (a `BigRational` in the solver path) is modelled as Dafny's `real`.
Number-to-text formatting is a function parameter: `fmt` renders coefficients and `show`
renders bounds.

## Model

| member | source | states |
|---|---|---|
| Variables.New | src/variable.rs:21-31 | the handle keeps the given row index, which `id()` returns, and the given optional name |
| Variables.Id | src/variable.rs:29-31 | no contract of its own; `Variables.New` states that `id()` returns the index the handle was made with |
| Variables.Name | src/variable.rs:33-39 | no contract of its own; the stored name, else `Variables.FallbackName`, whose promises `Variables.FallbackNamesDistinct` and `Variables.FallbackNameIsWord` state |
| Variables.Display | src/variable.rs:58-64 | no contract of its own; `Variables.DisplayIsName` proves it writes what `name()` returns |
| Variables.FallbackName | src/variable.rs:33-39 | an unnamed variable is called `v` followed by the decimal digits of its index |
| Variables.DisplayIsName | src/variable.rs:54-64 | `Display` prints exactly what `name()` returns |
| Variables.FallbackNamesDistinct | src/variable.rs:33-39 | two unnamed variables with different indices get different names |
| Variables.FallbackNameIsWord | src/variable.rs:37 | a fallback name is a nonempty run of word characters, so the import pattern's `\w+` can read it |
| Decimal.NatToString | src/variable.rs:37 | the decimal text of an index is nonempty and all digits |
| Decimal.DigitsValueOfNatToString | src/lib.rs:278 | parsing the decimal digits of `n` gives `n` back |
| Decimal.NatToStringInjective | src/variable.rs:37 | different indices have different decimal texts |
| Expressions.Default | src/expression.rs:70-72 | the default expression has no terms |
| Expressions.FromConst | src/expression.rs:79-81 | a constant becomes one term with that coefficient and no variable |
| Expressions.FromVar | src/expression.rs:88-90 | a variable becomes one term with coefficient one |
| Expressions.Add | src/expression.rs:99-102 | the sum is the left operand's terms followed by the right operand's, with nothing merged |
| Expressions.Mul | src/expression.rs:126-137 | keeps the number of terms; the contents are stated by `Expressions.MulInPlace` (each coefficient times the scalar, variables and order kept), `Expressions.MulMul`, `Models.ConstantMul` and `Solutions.GetValueMul` |
| Expressions.MulInPlace | src/expression.rs:131-136 | the array afterwards holds every old term with its coefficient multiplied by the scalar, in the same order and with the same variables |
| Expressions.MulMul | src/expression.rs:131-136 | scaling by `s` and then by `t` is scaling by `t * s` |
| Expressions.MulAdd | src/expression.rs:131-136 | scaling distributes over the concatenation of two expressions |
| Expressions.Neg | src/expression.rs:121-123 | every coefficient is negated, and the variables and the order are kept |
| Expressions.NegNeg | src/expression.rs:121-123 | negating twice gives back the original expression |
| Expressions.NegConst | src/expression.rs:121-123 | the negation of a constant is the constant's negation |
| Expressions.Sub | src/expression.rs:111-113 | the difference is the left terms followed by the right terms with their coefficients negated |
| Expressions.Div | src/expression.rs:144-146 | division keeps the number of terms; the divisor must be nonzero |
| Expressions.DivThenMul | src/expression.rs:144-146 | multiplying a quotient by the divisor gives back the original expression |
| Expressions.Write | src/expression.rs:43-63 | the display loop produces exactly `Render` of the expression |
| Expressions.Render | src/expression.rs:43-63 | no contract of its own; `Expressions.Write` is proved equal to it, and `Expressions.RenderDefault`, `RenderConst`, `RenderVar`, `RenderAdd` and `LaterTermSign` state its text |
| Expressions.LaterTermSign | src/expression.rs:52-60 | a term after the first is written ` + c` when its coefficient is nonnegative, else ` - ` and the magnitude of `c`, then its variable's name |
| Expressions.JoinTextsAppend | src/expression.rs:52-61 | the later-term text of a concatenation is the concatenation of the texts |
| Expressions.RenderAdd | src/expression.rs:43-63 | rendering `a + b` for a nonempty `a` is `a`'s text followed by `b`'s terms in their later form |
| Expressions.RenderDefault | src/expression.rs:46 | an empty expression renders as the empty text |
| Expressions.RenderConst | src/expression.rs:48 | a constant renders as its formatted coefficient alone |
| Expressions.RenderVar | src/expression.rs:48-51 | a variable renders as the formatted `1`, a space and its name |
| Constraints.Le | src/expression.rs:14-20 | `le` builds `self <= expr` |
| Constraints.Eq | src/expression.rs:22-28 | `eq` builds `self = expr` |
| Constraints.Ge | src/expression.rs:30-36 | `ge` builds `self >= expr` |
| Constraints.VarTerms | src/constraint.rs:26 | the kept terms all carry a variable and are no more than the input's; `Constraints.VarTermsMembers` states which terms are kept |
| Constraints.VarTermsMembers | src/constraint.rs:26 | a term is kept exactly when it is in the input and carries a variable: no variable term is dropped and nothing is added |
| Constraints.FoldCoefsShift | src/constraint.rs:27 | folding from a start value adds that value to the fold from zero |
| Constraints.FoldConstTermsIsConstantSum | src/constraint.rs:27 | folding the constant terms sums exactly the coefficients of the terms without a variable |
| Constraints.VarTermsAppend | src/constraint.rs:26 | filtering a concatenation concatenates the filtered parts |
| Constraints.ConstantSumAppend | src/constraint.rs:27 | the constant sum of a concatenation is the sum of the constant sums |
| Constraints.ConstantSumMul | src/constraint.rs:27 | scaling an expression scales its constant sum |
| Constraints.VarTermsMul | src/constraint.rs:26 | filtering commutes with scaling |
| Constraints.AllVariableTerms | src/constraint.rs:26-27 | when every term has a variable, the filter keeps everything and the constant sum is zero |
| Constraints.Normalize | src/constraint.rs:22-33 | the relation is kept, the left side holds only variable terms, and the right side is one constant |
| Constraints.NormalizeLhs | src/constraint.rs:25-26 | the new left side is the left's variable terms followed by the right's variable terms negated |
| Constraints.NormalizeRhs | src/constraint.rs:27-31 | the new right side is the right's constant sum minus the left's |
| Constraints.NormalizeIdempotent | src/constraint.rs:22-33 | normalising twice is normalising once |
| Constraints.NormalizeFixesNormalForm | src/constraint.rs:22-33 | a constraint already in normal form is left unchanged |
| Constraints.NormalizeExample | src/constraint.rs:22-33 | `2x + 3 <= y + 1` normalises to `2x - y <= -2` |
| Constraints.RenderNormalized | src/constraint.rs:40-48 | a normalised row renders as its variable terms, the relation token and the folded constant |
| Constraints.RenderConstraint | src/constraint.rs:40-48 | no contract of its own; `Constraints.RenderNormalized` states the text of a normalised row |
| VariableOps.Le | src/variable.rs:41-43 | `x.le(e)` is `x <= e` with `x` as a one-term expression |
| VariableOps.Eq | src/variable.rs:45-47 | `x.eq(e)` is `x = e` with `x` as a one-term expression |
| VariableOps.Ge | src/variable.rs:49-51 | `x.ge(e)` is `x >= e` with `x` as a one-term expression |
| VariableOps.Add | src/variable.rs:73-75 | `x + e` is the term `1·x` followed by `e`'s terms |
| VariableOps.Sub | src/variable.rs:84-86 | `x - e` is `1·x` followed by `e`'s terms negated |
| VariableOps.Mul | src/variable.rs:104-106 | `x * s` is the single term `s·x` |
| VariableOps.Div | src/variable.rs:114-116 | `x / s` is the single term `(1/s)·x` |
| VariableOps.Neg | src/variable.rs:94-96 | as written, `-x` is the single term `1·x` |
| VariableOps.NegDoesNotNegate | src/variable.rs:94-96 | as written, `-x` equals `x` and differs from the negated expression |
| VariableOps.NegCorrected | src/variable.rs:94-96 | corrected, `-x` is the single term `-1·x`, the negation of `x`'s expression |
| Solutions.TermValueCases | src/lib.rs:102-113 | a constant term contributes its coefficient; a variable term contributes its recorded value times the coefficient, or zero when the solution does not name it |
| Solutions.GetValue | src/lib.rs:98-116 | no contract of its own; `Solutions.GetValueBasics`, `GetValueAdd`, `GetValueMul`, `GetValueSub`, `GetValueDiv` and `GetValueSplit` state its value |
| Solutions.SumAppend | src/lib.rs:114-115 | the left-to-right sum of a concatenation is the sum of the sums |
| Solutions.SumScale | src/lib.rs:114-115 | the sum of pointwise scaled contributions is the scaled sum |
| Solutions.ContributionsAppend | src/lib.rs:102-113 | the contributions of a concatenation are the concatenated contributions |
| Solutions.TermValueScale | src/lib.rs:102-113 | scaling a term scales its contribution |
| Solutions.ContributionsMul | src/lib.rs:102-113 | scaling an expression scales each term's contribution |
| Solutions.GetValueSingle | src/lib.rs:98-116 | a one-term expression is worth that term's contribution |
| Solutions.GetValueBasics | src/lib.rs:98-116 | the empty expression is worth zero, a constant its value, and a variable its recorded value or zero |
| Solutions.GetValueAdd | src/lib.rs:98-116 | the value of `a + b` is the value of `a` plus the value of `b` |
| Solutions.GetValueSnoc | src/lib.rs:98-116 | appending a term adds its contribution |
| Solutions.GetValueMul | src/lib.rs:98-116 | the value of `e * s` is `s` times the value of `e` |
| Solutions.GetValueNeg | src/lib.rs:98-116 | the value of `-e` is minus the value of `e` |
| Solutions.GetValueSub | src/lib.rs:98-116 | the value of `a - b` is the value of `a` minus the value of `b` |
| Solutions.GetValueDiv | src/lib.rs:98-116 | the value of `e / s` is the value of `e` divided by `s` |
| Solutions.GetValueSplit | src/lib.rs:98-116 | an expression's value is its variable terms' value plus its constant sum |
| Solutions.NormalizePreservesValue | src/constraint.rs:22-33 | under every solution, normalised `lhs - rhs` has the same value as the original `lhs - rhs` |
| Solutions.NormalizePreservesSatisfaction | src/constraint.rs:22-33 | a solution satisfies the normalised constraint exactly when it satisfies the original |
| Solutions.NegVariableValueAsWritten | src/variable.rs:94-96 | with `x = 1`, the as-written `-x` evaluates to `1` and the corrected one to `-1` |
| Solutions.NegCorrectedValue | src/variable.rs:94-96 | the corrected `-x` is worth minus `x` under every solution |
| SolutionImport.Span | src/lib.rs:263 | a greedy character-class match is a prefix of the line |
| SolutionImport.SpanMaximal | src/lib.rs:263 | every matched character is in the class, and the match stops at the end of the line or at a character outside it |
| SolutionImport.SpanOfConcat | src/lib.rs:263 | a run of class characters followed by a non-class character is matched exactly |
| SolutionImport.DenominatorOf | src/lib.rs:263 | an optional `/digits` part captures a nonempty run of digits |
| SolutionImport.LineParts | src/lib.rs:263 | a line splits into name, spaces, number and the rest, in order, with nothing lost |
| SolutionImport.MatchLine | src/lib.rs:263 | a match captures a nonempty word name, a nonempty numerator of digits and an optional nonempty denominator of digits |
| SolutionImport.MatchLineSound | src/lib.rs:263 | a matched line is the name, nonempty whitespace and the fraction text, followed by a rest |
| SolutionImport.MatchLineComplete | src/lib.rs:263 | every line of the form name, whitespace, digits and a rest that does not start with a digit matches with exactly those parts |
| SolutionImport.MatchLineRejectsSign | src/lib.rs:263 | a negative number after the name does not match |
| SolutionImport.DenominatorOfDigits | src/lib.rs:263 | `/digits` followed by a non-digit captures exactly the digits |
| SolutionImport.ImportFromAppend | src/lib.rs:273-280 | reading `a + b` is reading `a` and then `b`, unless reading `a` failed |
| SolutionImport.ImportLine | src/lib.rs:273-279 | no contract of its own; `Models.ReadLine` is proved equal to it, and `SolutionImport.ImportSkipsUnmatched`, `ImportLastWins` and `ReadBackZeroDenominator` state its cases |
| SolutionImport.ImportLines | src/lib.rs:266-282 | no contract of its own; `Models.Model.Import` is proved equal to it, and `SolutionImport.ImportLastWins`, `ImportKeysFromLines`, `ReadBackInteger` and `ReadBackFraction` state its results |
| SolutionImport.ImportFromOne | src/lib.rs:273-280 | reading one line is the single-line step |
| SolutionImport.ImportSkipsUnmatched | src/lib.rs:273-276 | a line that does not match changes nothing |
| SolutionImport.ImportFromKeeps | src/lib.rs:273-280 | lines that do not name `n` keep `n`'s presence and value |
| SolutionImport.ImportLastWins | src/lib.rs:277-279 | the value read for a name is the one on its last line |
| SolutionImport.ImportKeysFromLines | src/lib.rs:273-280 | every name in the result was already there or was named by a matched line |
| SolutionImport.ReadBackInteger | src/lib.rs:263-279 | a line `name n` reads back as `{name: n}` |
| SolutionImport.ReadBackFraction | src/lib.rs:263-279 | a line `name n/d` with `d > 0` reads back as `{name: n/d}` |
| SolutionImport.ReadBackZeroDenominator | src/lib.rs:278 | a line `name n/0` is an error |
| Models.DefaultDirection | src/lib.rs:124-128 | the default direction is to minimise |
| Models.FreshVariable | src/lib.rs:42-52 | a new variable is continuous, unnamed and unbounded |
| Models.Model.constructor | src/lib.rs:170-182 | a new model has no commands, constraints or variables, an empty objective and direction Minimize |
| Models.Model.Maximize | src/lib.rs:148-150 | the direction becomes Maximize |
| Models.Model.Minimize | src/lib.rs:151-153 | the direction becomes Minimize |
| Models.Model.AddCommand | src/lib.rs:154-156 | the command is appended to the command list |
| Models.Model.AddVar | src/lib.rs:157-159 | a builder for this model holding a fresh variable |
| Models.Model.AddConst | src/lib.rs:161-163 | the constraint is appended to the constraint list |
| Models.Model.SetObjective | src/lib.rs:165-167 | the objective is replaced |
| Models.Model.Export | src/lib.rs:189-256 | the written lines are exactly `ExportLines` of the model's current direction, objective, constraints and variables |
| Models.ExportLines | src/lib.rs:189-256 | no contract of its own; `Models.AssembleLayout`, `ExportLength` and `ExportEmpty` state its layout and size |
| Models.ObjectiveLine | src/lib.rs:194-195 | no contract of its own; `Models.ObjectiveIgnoresConstants` states that constants do not reach it |
| Models.BoundRow | src/lib.rs:201-232 | no contract of its own; `Models.NumberedAt` states that row `i` of the bounds section is this row for variable `i`, and `Models.RowNameIsVariableName` that its name is the handle's name |
| Models.KindRow | src/lib.rs:234-252 | no contract of its own; `Models.KindRowsMembers` states that the General and Binary entries are exactly these rows for the variables of that kind |
| Models.Model.Import | src/lib.rs:260-283 | the loop's result is exactly `ImportLines` of the given lines |
| Models.ReadLine | src/lib.rs:273-279 | the import loop's body is exactly `ImportLine`: skip a non-matching line, else record the parsed value or fail on a zero denominator |
| Models.VariableBuilder.New | src/lib.rs:42-52 | a builder for the given model holding a fresh variable |
| Models.VariableBuilder.Binary | src/lib.rs:54-57 | the kind becomes Binary and the other settings are kept |
| Models.VariableBuilder.Integer | src/lib.rs:59-62 | the kind becomes Integer and the other settings are kept |
| Models.VariableBuilder.Name | src/lib.rs:64-67 | the name is set and the other settings are kept |
| Models.VariableBuilder.Lb | src/lib.rs:69-72 | the lower bound is set and the other settings are kept |
| Models.VariableBuilder.Ub | src/lib.rs:74-77 | the upper bound is set and the other settings are kept |
| Models.VariableBuilder.Build | src/lib.rs:79-84 | the handle's index is the old table length and its name is the row's name; the row is appended; the handle's name is the one the export writes for that row |
| Models.NumberedSection | src/lib.rs:197-199 | an enumerated loop writes `Numbered`: one row per element, in order |
| Models.KindSection | src/lib.rs:234-242 | the filtered loop writes exactly `KindRows` of the requested kind |
| Models.RowNameIsVariableName | src/lib.rs:207 | the name written for a table row is the name of the handle built for it |
| Models.NumberedLength | src/lib.rs:197-199 | one row per element |
| Models.NumberedAt | src/lib.rs:197-199 | row `i` is the row written for element `i` with index `i` |
| Models.KindRowsMembers | src/lib.rs:234-252 | a line is among the entries of kind `k` exactly when some row of kind `k` produces it |
| Models.KindRowsLength | src/lib.rs:234-242 | at most one entry per variable |
| Models.AssembleLayout | src/lib.rs:189-256 | the sections and their markers sit at fixed positions, in the order Subject To, Bounds, General, Binary, End |
| Models.ExportLength | src/lib.rs:189-256 | an export has 7 marker lines, one line per constraint, one per variable and one per integer or binary variable |
| Models.ObjectiveIgnoresConstants | src/lib.rs:194-195 | adding a constant to the objective does not change the objective row |
| Models.ExportEmpty | src/lib.rs:189-256 | a fresh model exports the bare skeleton starting with `Minimize` |
| Models.ImportLinesSnoc | src/lib.rs:273-280 | reading one more line applies the single-line step, unless reading already failed |
| Models.ImportStopsAtFailure | src/lib.rs:278 | once a line fails, later lines do not change the result |
| Models.ConstantMul | src/lib.rs:412-421 | `c(k) * e` scales every coefficient of `e` by `k` |
| Models.C | src/lib.rs:423-428 | `c(n)` holds the integer `n` as a rational |
| Models.GetValueConstantMul | src/lib.rs:412-421 | `c(k) * e` is worth `k` times `e` |
| Models.BuildAroundDroppedBuilder | src/lib.rs:436-446 | a builder that is dropped without `build` adds no row, so the next variable gets the next index |

## Left out

- `solve`, both the exact and the floating-point version: these start the external solver
  process, use temporary files and wait on the file system.
- The floating-point `Model<f64>::import` and its pattern: floating point is not modelled.
- I/O errors: reading the solution text and splitting it into lines are left out. `Import`
  takes the lines, and `Export` returns them instead of writing to a writer.
- Number formatting: `{:.64}` for coefficients and `Display` for bounds are the parameters
  `fmt` and `show`. Their text is not modelled.
- SolutionImport.MatchLine: the Unicode classes `\w`, `\s` and `\d` are modelled as their ASCII
  subsets.
- Models.Model.Import: a zero denominator makes `from_str` fail and `unwrap` panic. The model
  returns an error result (`ZeroDenominator`) in its place, so the loop stops there.
- Solver command strings are stored only. Their meaning belongs to the solver.
- Expressions.Add: `extend` appends in place to the left operand's vector; the model builds the
  concatenated value. Ownership makes the old value unobservable, so the results agree.
- Expressions.Div: division by zero panics in the rational type, so `Div` requires a nonzero
  divisor. The same goes for `VariableOps.Div`.
- The builder's mutable borrow of the model is a reference field of the builder. Rust's borrow
  rules, which forbid using the model while a builder is alive, are not modelled.

## Findings

| source | as written | input that shows it | evidently intended | confidence | as-written member | corrected member |
|---|---|---|---|---|---|---|
| src/variable.rs:94-96 | unary minus on a variable returns the variable's expression unchanged | `-x` with `x = 1` evaluates to `1` | `-x` is the expression `-1·x`, as unary minus on an expression is | high, not executed | VariableOps.NegDoesNotNegate | Solutions.NegCorrectedValue |
