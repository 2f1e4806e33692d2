/**
 * A decision variable handle: an ordinal id plus an optional display name.
 * The handle owns no numeric state; bounds and kind live in the model's
 * variable table, indexed by the id.
 */
module Variables {
  import opened Wrappers
  import opened Decimal

  datatype Variable = Variable(id: nat, name: Option<string>)

  /** `Variable::new`: stores the id and the name exactly as given. */
  function New(id: nat, name: Option<string>): (v: Variable)
    ensures Id(v) == id && v.name == name
  {
    Variable(id, name)
  }

  function Id(v: Variable): nat {
    v.id
  }

  /** The text used when a variable has no stored name: `v` then the decimal id. */
  function FallbackName(id: nat): (s: string)
    ensures |s| >= 2 && s[0] == 'v' && s[1..] == NatToString(id)
  {
    "v" + NatToString(id)
  }

  /** `Variable::name`: the stored name if present, else the fallback. */
  function Name(v: Variable): string {
    match v.name
    case Some(n) => n
    case None => FallbackName(v.id)
  }

  /** `Display for Variable`: writes the stored name or `v{id}`. */
  function Display(v: Variable): string {
    if v.name.Some? then v.name.value else "v" + NatToString(v.id)
  }

  /** The displayed text is the text `name()` returns, for every variable. */
  lemma DisplayIsName(v: Variable)
    ensures Display(v) == Name(v)
  {
  }

  /** Unnamed variables with different ids never share a display name. */
  lemma FallbackNamesDistinct(i: nat, j: nat)
    requires i != j
    ensures Name(New(i, None)) != Name(New(j, None))
  {
    if Name(New(i, None)) == Name(New(j, None)) {
      assert FallbackName(i)[1..] == FallbackName(j)[1..];
      NatToStringInjective(i, j);
    }
  }

  /** Fallback names are made of word characters, so the solution grammar can read them back. */
  lemma FallbackNameIsWord(id: nat)
    ensures |FallbackName(id)| >= 1 && AllWordChars(FallbackName(id))
  {
    var s := FallbackName(id);
    forall i | 0 <= i < |s| ensures IsWordChar(s[i]) {
      if i > 0 {
        assert s[i] == NatToString(id)[i - 1];
      }
    }
  }
}
