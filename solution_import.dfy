/**
 * Reading an exact-rational solution file. Each line is matched against
 * `^\w+\s+\d+(/\d+)?` (anything after the match is ignored); a matching line
 * records `name -> numerator/denominator`, later lines overriding earlier ones.
 */
module SolutionImport {
  import opened Wrappers
  import opened Decimal
  import opened Solutions
  import opened Sequences

  /** The parts of a matching line: the name, the numerator digits and the denominator digits if any. */
  datatype Capture = Capture(name: string, numer: string, denom: Option<string>)

  /** The one failure: the rational parser rejects a zero denominator, and the source unwraps it. */
  datatype ImportError = ZeroDenominator(fraction: string)

  predicate AllSpaces(s: string) {
    forall i :: 0 <= i < |s| ==> IsSpace(s[i])
  }

  /** The longest prefix of `s` whose characters all satisfy `p` (a greedy `+` or `*`). */
  function Span(s: string, p: char -> bool): (r: string)
    ensures r <= s
  {
    if s != [] && p(s[0]) then [s[0]] + Span(s[1..], p) else []
  }

  /** The span satisfies `p` throughout and cannot be extended. */
  lemma {:induction false} SpanMaximal(s: string, p: char -> bool)
    ensures forall i :: 0 <= i < |Span(s, p)| ==> p(Span(s, p)[i])
    ensures |Span(s, p)| == |s| || !p(s[|Span(s, p)|])
  {
    if s != [] && p(s[0]) {
      SpanMaximal(s[1..], p);
    }
  }

  /** When `a` satisfies `p` throughout and `b` does not start with such a character, the span of `a + b` is `a`. */
  lemma {:induction false} SpanOfConcat(a: string, b: string, p: char -> bool)
    requires forall i :: 0 <= i < |a| ==> p(a[i])
    requires b == [] || !p(b[0])
    ensures Span(a + b, p) == a
  {
    if a != [] {
      assert (a + b)[0] == a[0];
      assert (a + b)[1..] == a[1..] + b;
      SpanOfConcat(a[1..], b, p);
    } else {
      assert a + b == b;
    }
  }

  /** What follows the numerator decides the denominator: `/` and a digit start one. */
  function DenominatorOf(rest: string): (r: Option<string>)
    ensures r.Some? ==> |r.value| > 0 && AllDigits(r.value)
  {
    if |rest| >= 2 && rest[0] == '/' && IsDigit(rest[1]) then
      SpanMaximal(rest[1..], IsDigit);
      Some(Span(rest[1..], IsDigit))
    else None
  }

  /** `\w+` at the start of the line (empty when the line does not start with a word character). */
  function NamePart(l: string): string {
    Span(l, IsWordChar)
  }

  function AfterName(l: string): string {
    l[|NamePart(l)|..]
  }

  /** `\s+` after the name. */
  function SpacePart(l: string): string {
    Span(AfterName(l), IsSpace)
  }

  function AfterSpace(l: string): string {
    AfterName(l)[|SpacePart(l)|..]
  }

  /** `\d+` after the whitespace. */
  function NumberPart(l: string): string {
    Span(AfterSpace(l), IsDigit)
  }

  function AfterNumber(l: string): string {
    AfterSpace(l)[|NumberPart(l)|..]
  }

  /** The line is its name, whitespace, number and remainder, in that order. */
  lemma LineParts(l: string)
    ensures l == NamePart(l) + SpacePart(l) + NumberPart(l) + AfterNumber(l)
  {
    var name, space, number, after := NamePart(l), SpacePart(l), NumberPart(l), AfterNumber(l);
    SpanSplit(l, IsWordChar);
    SpanSplit(AfterName(l), IsSpace);
    SpanSplit(AfterSpace(l), IsDigit);
    assert l == name + (space + (number + after));
    ConcatAssoc(name, space, number + after);
    ConcatAssoc(name + space, number, after);
  }

  /**
   * The regular expression applied to one line. Each repetition takes its
   * longest run, the only choice that lets the next part match.
   */
  function MatchLine(l: string): (r: Option<Capture>)
    ensures r.Some? ==> |r.value.name| > 0 && AllWordChars(r.value.name)
    ensures r.Some? ==> |r.value.numer| > 0 && AllDigits(r.value.numer)
    ensures r.Some? && r.value.denom.Some? ==> |r.value.denom.value| > 0 && AllDigits(r.value.denom.value)
  {
    SpanMaximal(l, IsWordChar);
    SpanMaximal(AfterSpace(l), IsDigit);
    if |NamePart(l)| == 0 || |SpacePart(l)| == 0 || |NumberPart(l)| == 0 then None
    else Some(Capture(NamePart(l), NumberPart(l), DenominatorOf(AfterNumber(l))))
  }

  /** The text the regular expression consumed for the number. */
  function FractionText(cap: Capture): string {
    match cap.denom
    case None => cap.numer
    case Some(d) => cap.numer + "/" + d
  }

  /** A denominator is read as `/` and its digits, followed by the rest of the line. */
  lemma DenominatorSplit(r: string)
    requires DenominatorOf(r).Some?
    ensures r == "/" + DenominatorOf(r).value + r[1 + |DenominatorOf(r).value|..]
  {
    SpanSplit(r[1..], IsDigit);
    assert r == [r[0]] + r[1..];
  }

  /**
   * Soundness: a captured line is its name, nonempty whitespace, the number
   * text the capture holds, and then anything.
   */
  lemma MatchLineSound(l: string)
    requires MatchLine(l).Some?
    ensures exists ws, rest :: |ws| > 0 && AllSpaces(ws) && l == MatchLine(l).value.name + ws + FractionText(MatchLine(l).value) + rest
  {
    var cap := MatchLine(l).value;
    var ws := SpacePart(l);
    SpanMaximal(AfterName(l), IsSpace);
    LineParts(l);
    var after := AfterNumber(l);
    if cap.denom.Some? {
      var d := cap.denom.value;
      var rest := after[1 + |d|..];
      DenominatorSplit(after);
      Regroup(cap.name, ws, cap.numer, d, rest);
      assert l == cap.name + ws + FractionText(cap) + rest;
    } else {
      assert l == cap.name + ws + FractionText(cap) + after;
    }
  }

  lemma Regroup(name: string, ws: string, numer: string, d: string, rest: string)
    ensures name + ws + numer + ("/" + d + rest) == name + ws + (numer + "/" + d) + rest
  {
  }

  /** A string is its span followed by the remainder. */
  lemma SpanSplit(s: string, p: char -> bool)
    ensures s == Span(s, p) + s[|Span(s, p)|..]
  {
    var r := Span(s, p);
    assert s[..|r|] == r;
  }

  /**
   * Completeness: every line made of a name (word characters), whitespace and
   * digits is read, with exactly that name and those digits; what follows
   * decides the denominator.
   */
  lemma MatchLineComplete(name: string, ws: string, digits: string, rest: string)
    requires |name| > 0 && AllWordChars(name)
    requires |ws| > 0 && AllSpaces(ws)
    requires |digits| > 0 && AllDigits(digits)
    requires rest == [] || !IsDigit(rest[0])
    ensures MatchLine(name + ws + digits + rest) == Some(Capture(name, digits, DenominatorOf(rest)))
  {
    var afterSpace := digits + rest;
    var afterName := ws + afterSpace;
    var l := name + afterName;
    ConcatAssoc(name, ws, afterSpace);
    ConcatAssoc(name + ws, digits, rest);
    SpanOfConcat(name, afterName, IsWordChar);
    assert AfterName(l) == afterName;
    SpanOfConcat(ws, afterSpace, IsSpace);
    assert AfterSpace(l) == afterSpace;
    SpanOfConcat(digits, rest, IsDigit);
    assert AfterNumber(l) == rest;
  }

  /** A value with a sign is not read: a `-` after the whitespace makes the line not match. */
  lemma MatchLineRejectsSign(name: string, ws: string, rest: string)
    requires |name| > 0 && AllWordChars(name)
    requires |ws| > 0 && AllSpaces(ws)
    ensures MatchLine(name + ws + "-" + rest).None?
  {
    var afterSpace := "-" + rest;
    var afterName := ws + afterSpace;
    var l := name + afterName;
    assert name + ws + "-" + rest == l;
    SpanOfConcat(name, afterName, IsWordChar);
    assert l[|name|..] == afterName;
    SpanOfConcat(ws, afterSpace, IsSpace);
    assert afterName[|ws|..] == afterSpace;
  }

  /** The number a capture denotes; a zero denominator is the rational parser's error. */
  function CaptureValue(cap: Capture): Result<real, ImportError>
    requires AllDigits(cap.numer)
    requires cap.denom.Some? ==> AllDigits(cap.denom.value)
  {
    match cap.denom
    case None => Success(DigitsValue(cap.numer) as real)
    case Some(d) =>
      if DigitsValue(d) == 0 then Failure(ZeroDenominator(FractionText(cap)))
      else Success(DigitsValue(cap.numer) as real / DigitsValue(d) as real)
  }

  /** One line's effect on the map being built: unmatched lines leave it as it is. */
  function ImportLine(sol: Solution, l: string): Result<Solution, ImportError> {
    match MatchLine(l)
    case None => Success(sol)
    case Some(cap) =>
      match CaptureValue(cap)
      case Failure(err) => Failure(err)
      case Success(v) => Success(Solution(sol.values[cap.name := v]))
  }

  /** The lines read in order on top of `sol`; the first rejected fraction stops the reading. */
  function ImportFrom(sol: Solution, lines: seq<string>): Result<Solution, ImportError> {
    if lines == [] then Success(sol)
    else match ImportFrom(sol, lines[..|lines| - 1])
      case Failure(err) => Failure(err)
      case Success(s) => ImportLine(s, lines[|lines| - 1])
  }

  /** `Model<BigRational>::import` on the lines of a solution file, starting from the empty map. */
  function ImportLines(lines: seq<string>): Result<Solution, ImportError> {
    ImportFrom(Solution(map[]), lines)
  }

  lemma {:induction false} ImportFromAppend(sol: Solution, a: seq<string>, b: seq<string>)
    ensures ImportFrom(sol, a + b) ==
      match ImportFrom(sol, a)
      case Failure(err) => Failure(err)
      case Success(s) => ImportFrom(s, b)
    decreases |b|
  {
    if b == [] {
      assert a + b == a;
    } else {
      assert (a + b)[..|a + b| - 1] == a + b[..|b| - 1];
      ImportFromAppend(sol, a, b[..|b| - 1]);
    }
  }

  /** Reading one more line is that line's effect on what was read so far. */
  lemma ImportFromOne(sol: Solution, l: string)
    ensures ImportFrom(sol, [l]) == ImportLine(sol, l)
  {
    var single: seq<string> := [l];
    assert single[..0] == [];
  }

  /** A line that does not match (a banner, a status line, a negative value) changes nothing. */
  lemma ImportSkipsUnmatched(a: seq<string>, l: string, b: seq<string>)
    requires MatchLine(l).None?
    ensures ImportLines(a + [l] + b) == ImportLines(a + b)
  {
    var e := Solution(map[]);
    ImportFromAppend(e, a + [l], b);
    ImportFromAppend(e, a, [l]);
    ImportFromAppend(e, a, b);
    if ImportFrom(e, a).Success? {
      ImportFromOne(ImportFrom(e, a).value, l);
    }
  }

  /** Reading lines none of which names `n` leaves what is recorded for `n` as it was. */
  lemma {:induction false} ImportFromKeeps(sol: Solution, b: seq<string>, n: string)
    requires forall i :: 0 <= i < |b| ==> MatchLine(b[i]).None? || MatchLine(b[i]).value.name != n
    ensures ImportFrom(sol, b).Success? ==>
      (n in ImportFrom(sol, b).value.values <==> n in sol.values) &&
      (n in sol.values ==> ImportFrom(sol, b).value.values[n] == sol.values[n])
    decreases |b|
  {
    if b != [] {
      ImportFromKeeps(sol, b[..|b| - 1], n);
    }
  }

  /** A name read several times keeps the value from its last line. */
  lemma ImportLastWins(a: seq<string>, l: string, b: seq<string>, cap: Capture, v: real)
    requires MatchLine(l) == Some(cap) && CaptureValue(cap) == Success(v)
    requires forall i :: 0 <= i < |b| ==> MatchLine(b[i]).None? || MatchLine(b[i]).value.name != cap.name
    ensures ImportLines(a + [l] + b).Success? ==>
      cap.name in ImportLines(a + [l] + b).value.values && ImportLines(a + [l] + b).value.values[cap.name] == v
  {
    var e := Solution(map[]);
    ImportFromAppend(e, a + [l], b);
    ImportFromAppend(e, a, [l]);
    if ImportFrom(e, a).Success? {
      var s := ImportFrom(e, a).value;
      ImportFromOne(s, l);
      ImportFromKeeps(ImportLine(s, l).value, b, cap.name);
    }
  }

  /** Every recorded name comes from some matching line, or was there before. */
  lemma {:induction false} ImportKeysFromLines(sol: Solution, lines: seq<string>, n: string)
    requires ImportFrom(sol, lines).Success?
    requires n in ImportFrom(sol, lines).value.values
    ensures n in sol.values ||
      exists i :: 0 <= i < |lines| && MatchLine(lines[i]).Some? && MatchLine(lines[i]).value.name == n
    decreases |lines|
  {
    if lines != [] {
      var k := |lines| - 1;
      var prev := lines[..k];
      var m := MatchLine(lines[k]);
      if !(m.Some? && m.value.name == n) {
        assert n in ImportFrom(sol, prev).value.values;
        ImportKeysFromLines(sol, prev, n);
        if n !in sol.values {
          var i :| 0 <= i < |prev| && MatchLine(prev[i]).Some? && MatchLine(prev[i]).value.name == n;
          assert lines[i] == prev[i];
        }
      }
    }
  }

  /** Reading back `name value`: a word name and a number written in decimal give that number. */
  lemma ReadBackInteger(name: string, n: nat)
    requires |name| > 0 && AllWordChars(name)
    ensures ImportLines([name + " " + NatToString(n)]) == Success(Solution(map[name := n as real]))
  {
    var l := name + " " + NatToString(n);
    MatchLineComplete(name, " ", NatToString(n), "");
    assert l == name + " " + NatToString(n) + "";
    DigitsValueOfNatToString(n);
    ImportFromOne(Solution(map[]), l);
  }

  /** `/` followed by a run of digits gives exactly that run as the denominator. */
  lemma DenominatorOfDigits(digits: string, rest: string)
    requires |digits| > 0 && AllDigits(digits)
    requires rest == [] || !IsDigit(rest[0])
    ensures DenominatorOf("/" + digits + rest) == Some(digits)
  {
    var r := "/" + digits + rest;
    assert r[1..] == digits + rest;
    SpanOfConcat(digits, rest, IsDigit);
  }

  /** Reading back `name numerator/denominator` with a nonzero denominator gives the quotient. */
  lemma ReadBackFraction(name: string, n: nat, d: nat)
    requires |name| > 0 && AllWordChars(name)
    requires d > 0
    ensures ImportLines([name + " " + NatToString(n) + "/" + NatToString(d)])
         == Success(Solution(map[name := n as real / d as real]))
  {
    var l := name + " " + NatToString(n) + "/" + NatToString(d);
    var rest := "/" + NatToString(d);
    MatchLineComplete(name, " ", NatToString(n), rest);
    ConcatAssoc(name + " " + NatToString(n), "/", NatToString(d));
    DenominatorOfDigits(NatToString(d), []);
    assert rest + [] == rest;
    DigitsValueOfNatToString(n);
    DigitsValueOfNatToString(d);
    ImportFromOne(Solution(map[]), l);
  }

  /** A zero denominator in a matching line is the parser's error, and it stops the import. */
  lemma ReadBackZeroDenominator(name: string, n: nat)
    requires |name| > 0 && AllWordChars(name)
    ensures ImportLines([name + " " + NatToString(n) + "/0"]).Failure?
  {
    var l := name + " " + NatToString(n) + "/0";
    MatchLineComplete(name, " ", NatToString(n), "/0");
    DenominatorOfDigits("0", []);
    assert "/" + "0" + [] == "/0";
    ImportFromOne(Solution(map[]), l);
  }
}
