// The simpler first pass over the same CERT audit claims: a prefix-only
// category map, a "Disagree" flag and the disagreement rate per category.
module CertFfs {
  import opened Common
  import opened CertLeakage

  /** map_category: the same prefix rules as the deep-dive, on str(code) as it is, without strip() or upper(). */
  function MapCategory(hcpcs: Option<string>): Category
  {
    CategoryOfCode(CellText(hcpcs))
  }

  /** On a present code that has no surrounding blanks and no lower-case letters, both maps agree. */
  lemma AgreesOnCleanCodes(s: string)
    requires Strip(s) == s && Upper(s) == s
    ensures MapCategory(Some(s)) == MapServiceCategory(Some(s))
  {
  }

  /** Lower case sends a drug code to Other here, but not in the deep-dive. */
  lemma CaseMatters()
    ensures MapCategory(Some("j1234")) == OtherService && MapServiceCategory(Some("j1234")) == PartBDrugs
  {
    var lower := "j1234";
    assert lower[0] == 'j' && lower[|lower| - 1] == '4';
    OtherByFirstChar(lower);
    StripKeepsCode(lower);
    assert Upper(lower)[0] == 'J';
  }

  /** So does a leading blank, before any drug code whose ends are letters or digits. */
  lemma BlanksMatter(code: string)
    requires |code| > 0 && code[0] == 'J' && IsAsciiAlnum(code[|code| - 1])
    ensures MapCategory(Some(" " + code)) == OtherService && MapServiceCategory(Some(" " + code)) == PartBDrugs
  {
    var padded := " " + code;
    assert padded[0] == ' ' && padded[1..] == code;
    OtherByFirstChar(padded);
    assert StripLeft(padded) == StripLeft(code);
    StripKeepsCode(code);
    assert Strip(padded) == code;
    var u := Upper(code);
    assert u[0] == 'J';
    DrugByFirstChar(u);
  }

  lemma DrugByFirstChar(s: string)
    requires |s| > 0 && s[0] == 'J'
    ensures CategoryOfCode(s) == PartBDrugs
  {
    assert "J" <= s;
  }

  /** is_disagree: `str.contains("Disagree", case=False, na=False)`. */
  predicate IsDisagree(decision: Option<string>)
  {
    decision.Some? && Contains(Lower(decision.value), Lower("Disagree"))
  }

  /** It flags the same claims as the deep-dive's flag_disagree. */
  lemma IsDisagreeIsFlagDisagree(decision: Option<string>)
    ensures IsDisagree(decision) <==> FlagDisagree(decision)
  {
    assert Lower("Disagree") == "disagree";
  }

  /** The claims of one category under this script's map. */
  function FfsGroupOf(claims: seq<Claim>, cat: Category): (g: seq<Claim>)
    ensures forall x :: x in g <==> x in claims && MapCategory(x.hcpcs) == cat
  {
    Filter(claims, (x: Claim) => MapCategory(x.hcpcs) == cat)
  }

  /** disagreement_rate as written: disagreed / count(claim_control_number) * 100; None stands for the
      non-finite value pandas produces when no claim of the category has a control number. */
  function FfsRateAsWritten(group: seq<Claim>): Option<real>
  {
    if Counted(group) == 0 then None else Some((Disagreed(group) as real) / (Counted(group) as real) * 100.0)
  }

  /** A category with one disagreed claim and no control number divides by zero. */
  lemma FfsRateDividesByZero()
    ensures FfsRateAsWritten([Claim(None, Some("J1100"), Some("Disagree"), None)]) == None
  {
    var c := Claim(None, Some("J1100"), Some("Disagree"), None);
    assert Filter([c][1..], (x: Claim) => x.controlNumber.Some?) == [];
  }

  /** When every claim has a control number the written rate is the rate over the whole group,
      and so a percentage. */
  lemma FfsRateWithNumbers(group: seq<Claim>)
    requires group != [] && forall i :: 0 <= i < |group| ==> group[i].controlNumber.Some?
    ensures FfsRateAsWritten(group) == Some(DisagreementRate(group))
    ensures 0.0 <= DisagreementRate(group) <= 100.0
  {
    FilterAll(group, (x: Claim) => x.controlNumber.Some?);
    RateInRange(group);
    var d := Disagreed(group) as real;
    var n := |group| as real;
    QuotientTimes(d, n, 100.0);
  }
}
