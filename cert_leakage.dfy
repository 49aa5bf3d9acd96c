// The CERT "leakage" deep-dive over Medicare fee-for-service audit claims:
// each claim's HCPCS code is mapped to a coarse service category, its review
// decision is flagged as a (partial) disagreement, a disagreed claim gets an
// error-reason bucket, and the categories are summarised by disagreement rate
// and by the mix of error reasons.
module CertLeakage {
  import opened Common

  // ---------------------------------------------------------------------------
  // map_service_category
  // ---------------------------------------------------------------------------

  datatype Category = PartBDrugs | DurableMedicalEquipment | Imaging | Labs | EvaluationManagement | OtherService

  function CategoryName(c: Category): string
  {
    match c
    case PartBDrugs => "Part B Drugs"
    case DurableMedicalEquipment => "Durable Medical Equipment"
    case Imaging => "Imaging"
    case Labs => "Labs"
    case EvaluationManagement => "Evaluation & Management"
    case OtherService => "Other"
  }

  /** str() of a CSV cell: a missing cell prints as "nan". */
  function CellText(cell: Option<string>): string
  {
    if cell.Some? then cell.value else "nan"
  }

  /** The first-match prefix rules on a code that is already stripped and upper-cased. */
  function CategoryOfCode(s: string): Category
  {
    if "J" <= s || "Q99" <= s then PartBDrugs
    else if "E" <= s || "K" <= s || "L" <= s then DurableMedicalEquipment
    else if "7" <= s then Imaging   // s[:1] == "7"
    else if "8" <= s then Labs
    else if "99" <= s then EvaluationManagement
    else OtherService
  }

  /** map_service_category: Other for a missing code, otherwise the prefix rules on the stripped, upper-cased code. */
  function MapServiceCategory(hcpcs: Option<string>): Category
  {
    if hcpcs.None? then OtherService else CategoryOfCode(Upper(Strip(hcpcs.value)))
  }

  /** The category does not depend on the code's case. */
  lemma ServiceCategoryIgnoresCase(h: string)
    ensures MapServiceCategory(Some(Lower(h))) == MapServiceCategory(Some(h))
  {
    StripLeftLower(h);
    StripRightLower(StripLeft(h));
    UpperLower(Strip(h));
  }

  /** Nor on blanks around it. */
  lemma ServiceCategoryIgnoresBlanks(h: string)
    ensures MapServiceCategory(Some(" " + h + "\t")) == MapServiceCategory(Some(h))
  {
    var padded := " " + h + "\t";
    assert padded[0] == ' ' && padded[1..] == h + "\t";
    assert StripLeft(padded) == StripLeft(h + "\t");
    StripTrailingBlank(h);
    assert Strip(padded) == Strip(h);
  }

  /** A trailing blank does not survive strip(). */
  lemma {:induction false} StripTrailingBlank(h: string)
    ensures Strip(h + "\t") == Strip(h)
    decreases |h|
  {
    if |h| > 0 {
      assert (h + "\t")[0] == h[0];
      if IsSpace(h[0]) {
        assert (h + "\t")[1..] == h[1..] + "\t";
        StripTrailingBlank(h[1..]);
      } else {
        assert (h + "\t")[..|h|] == h;
      }
    }
  }

  /** A code whose ends are letters or digits is not changed by strip(). */
  lemma StripKeepsCode(s: string)
    requires |s| > 0 && IsAsciiAlnum(s[0]) && IsAsciiAlnum(s[|s| - 1])
    ensures Strip(s) == s
  {
  }

  /** A code that starts with none of J, Q, E, K, L, 7, 8, 9 is Other. */
  lemma OtherByFirstChar(s: string)
    requires |s| > 0 && s[0] !in "JQEKL789"
    ensures CategoryOfCode(s) == OtherService
  {
  }

  /** The code as the script passes it (`astype(str)`): a missing code is the text "nan", which is Other. */
  lemma MissingCodeIsOther()
    ensures MapServiceCategory(Some(CellText(None))) == OtherService
    ensures MapServiceCategory(None) == OtherService
  {
    var nan := CellText(None);
    assert nan[0] == 'n' && nan[|nan| - 1] == 'n';
    StripKeepsCode(nan);
    assert Upper(nan)[0] == 'N';
    OtherByFirstChar(Upper(nan));
  }

  // ---------------------------------------------------------------------------
  // flag_disagree, flag_partial
  // ---------------------------------------------------------------------------

  /** flag_disagree: "disagree" occurs in the lower-cased decision; a missing decision is not a disagreement. */
  predicate FlagDisagree(text: Option<string>)
  {
    text.Some? && Contains(Lower(text.value), "disagree")
  }

  /** flag_partial: both "partial" and "disagree" occur in the lower-cased decision. */
  predicate FlagPartial(text: Option<string>)
  {
    text.Some? && Contains(Lower(text.value), "partial") && Contains(Lower(text.value), "disagree")
  }

  /** A partial disagreement is a disagreement. */
  lemma PartialIsDisagree(text: Option<string>)
    ensures FlagPartial(text) ==> FlagDisagree(text)
  {
  }

  /** Both flags ignore case: an upper-cased decision is flagged exactly when the original is. */
  lemma FlagsIgnoreCase(t: string)
    ensures FlagDisagree(Some(Upper(t))) == FlagDisagree(Some(t))
    ensures FlagPartial(Some(Upper(t))) == FlagPartial(Some(t))
  {
    assert Lower(Upper(t)) == Lower(t);
  }

  // ---------------------------------------------------------------------------
  // map_error_bucket, safe_error_bucket
  // ---------------------------------------------------------------------------

  datatype Bucket = MedicalNecessity | Documentation | CodingTechnical | OtherReason

  function BucketName(b: Bucket): string
  {
    match b
    case MedicalNecessity => "Medical Necessity"
    case Documentation => "Documentation"
    case CodingTechnical => "Coding / Technical"
    case OtherReason => "Other"
  }

  const DocumentationKeys: seq<string> :=
    ["insufficient doc", "insufficient documentation", "no documentation", "missing documentation", "record not received"]

  const CodingKeys: seq<string> :=
    ["coding", "code incorrect", "incorrect code", "modifier", "place of service", "pos", "diagnosis", "procedure", "billing error"]

  /** `any(k in blob for k in keys)`. */
  predicate AnyKey(blob: string, keys: seq<string>)
  {
    exists i :: 0 <= i < |keys| && Contains(blob, keys[i])
  }

  /** f"{error_code} {review_decision}".lower(). */
  function ErrorBlob(errorCode: Option<string>, decision: Option<string>): string
  {
    Lower(CellText(errorCode) + " " + CellText(decision))
  }

  /** The keyword rules in their order: necessity, documentation, coding, then the three short fallbacks. */
  function BucketOf(blob: string): Bucket
  {
    if (Contains(blob, "medical") && Contains(blob, "necess")) || Contains(blob, "not medically necessary") then MedicalNecessity
    else if AnyKey(blob, DocumentationKeys) then Documentation
    else if AnyKey(blob, CodingKeys) then CodingTechnical
    else if Contains(blob, "necess") then MedicalNecessity
    else if Contains(blob, "doc") then Documentation
    else if Contains(blob, "coding") || Contains(blob, "modifier") then CodingTechnical
    else OtherReason
  }

  /** map_error_bucket. */
  function MapErrorBucket(errorCode: Option<string>, decision: Option<string>): Bucket
  {
    BucketOf(ErrorBlob(errorCode, decision))
  }

  /** The words whose absence, and only whose absence, leaves a reason in the Other bucket. */
  const Signals: seq<string> :=
    ["necess", "doc", "record not received", "coding", "code incorrect", "incorrect code", "modifier",
     "place of service", "pos", "diagnosis", "procedure", "billing error"]

  /** Every rule's keyword contains one of the signal words. */
  lemma KeysCarrySignals(blob: string)
    ensures Contains(blob, "not medically necessary") ==> Contains(blob, "necess")
    ensures AnyKey(blob, DocumentationKeys) ==> Contains(blob, "doc") || Contains(blob, "record not received")
  {
    if Contains(blob, "not medically necessary") {
      ContainsWitness("not medically necessary", "necess", 14);
      ContainsTrans(blob, "not medically necessary", "necess");
    }
    if AnyKey(blob, DocumentationKeys) {
      var i :| 0 <= i < |DocumentationKeys| && Contains(blob, DocumentationKeys[i]);
      if i < 4 {
        var at := if i < 2 then 13 else if i == 2 then 3 else 8;
        ContainsWitness(DocumentationKeys[i], "doc", at);
        ContainsTrans(blob, DocumentationKeys[i], "doc");
      }
    }
  }

  /** A reason is Other iff its text has none of the signal words. */
  lemma OtherIffNoSignal(blob: string)
    ensures BucketOf(blob) == OtherReason <==> forall i :: 0 <= i < |Signals| ==> !Contains(blob, Signals[i])
  {
    KeysCarrySignals(blob);
    if BucketOf(blob) == OtherReason {
      forall i | 0 <= i < |Signals|
        ensures !Contains(blob, Signals[i])
      {
        if 4 <= i && i != 6 {
          assert Signals[i] == CodingKeys[i - 3];
        } else if i == 3 || i == 6 {
          assert Signals[i] == CodingKeys[if i == 3 then 0 else 3];
        } else if i == 2 {
          assert Signals[i] == DocumentationKeys[4];
        }
      }
    } else {
      assert exists i :: 0 <= i < |Signals| && Contains(blob, Signals[i]) by {
        if Contains(blob, "necess") {
          assert Contains(blob, Signals[0]);
        } else if Contains(blob, "doc") {
          assert Contains(blob, Signals[1]);
        } else if Contains(blob, "record not received") {
          assert Contains(blob, Signals[2]);
        } else if Contains(blob, "modifier") {
          assert Contains(blob, Signals[6]);
        } else if Contains(blob, "coding") {
          assert Contains(blob, Signals[3]);
        } else {
          var k :| 0 <= k < |CodingKeys| && Contains(blob, CodingKeys[k]);
          assert k != 0 && k != 3;
          var j := if k < 3 then k + 3 else k + 3;
          assert Signals[j] == CodingKeys[k];
        }
      }
    }
  }

  /** "necess" without a documentation or coding keyword is always Medical Necessity, whether or not "medical" occurs. */
  lemma NecessityWithoutOtherKeys(blob: string)
    requires Contains(blob, "necess") && !AnyKey(blob, DocumentationKeys) && !AnyKey(blob, CodingKeys)
    ensures BucketOf(blob) == MedicalNecessity
  {
  }

  /** One audited claim: the columns the analysis reads. */
  datatype Claim = Claim(controlNumber: Option<string>, hcpcs: Option<string>, decision: Option<string>, errorCode: Option<string>)

  /** safe_error_bucket: a bucket only for a disagreed claim, NaN (None) otherwise. */
  function SafeErrorBucket(c: Claim): (r: Option<Bucket>)
    ensures r.Some? <==> FlagDisagree(c.decision)
    ensures r.Some? ==> r.value == MapErrorBucket(c.errorCode, c.decision)
  {
    if FlagDisagree(c.decision) then Some(MapErrorBucket(c.errorCode, c.decision)) else None
  }

  /** The category column: map_service_category of the code as text. */
  function CategoryOf(c: Claim): Category
  {
    MapServiceCategory(Some(CellText(c.hcpcs)))
  }

  // ---------------------------------------------------------------------------
  // Aggregation by category
  // ---------------------------------------------------------------------------

  /** The claims of one category (`groupby("category")`). */
  function GroupOf(claims: seq<Claim>, cat: Category): (g: seq<Claim>)
    ensures forall x :: x in g <==> x in claims && CategoryOf(x) == cat
  {
    Filter(claims, (x: Claim) => CategoryOf(x) == cat)
  }

  /** total_claims: `count` of claim_control_number counts the claims that have one. */
  function Counted(group: seq<Claim>): nat
  {
    |Filter(group, (x: Claim) => x.controlNumber.Some?)|
  }

  /** disagreed_claims: the sum of is_disagree over the group. */
  function Disagreed(group: seq<Claim>): nat
  {
    |Filter(group, (x: Claim) => FlagDisagree(x.decision))|
  }

  /** partial_disagreed: the sum of is_partial_dis over the group. */
  function PartialDisagreed(group: seq<Claim>): nat
  {
    |Filter(group, (x: Claim) => FlagPartial(x.decision))|
  }

  /** disagreement_rate as written: 100 * disagreed / total_claims.clip(lower=1). */
  function RateAsWritten(group: seq<Claim>): real
  {
    100.0 * (Disagreed(group) as real) / ((if Counted(group) > 0 then Counted(group) else 1) as real)
  }

  /** A category whose claims lack control numbers reports a disagreement rate of 200%. */
  lemma RateAsWrittenExceedsHundred()
    ensures var group := [Claim(Some("1"), Some("J1100"), Some("Disagree"), None), Claim(None, Some("J1100"), Some("Disagree"), None)];
            RateAsWritten(group) == 200.0
  {
    var a := Claim(Some("1"), Some("J1100"), Some("Disagree"), None);
    var b := Claim(None, Some("J1100"), Some("Disagree"), None);
    assert Lower("Disagree") == "disagree";
    assert Contains("disagree", "disagree");
    assert Filter([b], (x: Claim) => x.controlNumber.Some?) == [];
    assert Filter([a, b], (x: Claim) => x.controlNumber.Some?) == [a];
    assert Filter([b], (x: Claim) => FlagDisagree(x.decision)) == [b];
    assert Filter([a, b], (x: Claim) => FlagDisagree(x.decision)) == [a, b];
  }

  /** disagreement_rate over every claim of the group, with or without a control number. */
  function DisagreementRate(group: seq<Claim>): real
  {
    100.0 * (Disagreed(group) as real) / ((if |group| > 0 then |group| else 1) as real)
  }

  /** The rate is a percentage: in [0, 100], 0 iff nothing was disagreed, 100 iff everything was. */
  lemma RateInRange(group: seq<Claim>)
    ensures 0.0 <= DisagreementRate(group) <= 100.0
    ensures DisagreementRate(group) == 0.0 <==> Disagreed(group) == 0
    ensures group != [] ==> (DisagreementRate(group) == 100.0 <==> Disagreed(group) == |group|)
  {
    FilterAll(group, (x: Claim) => true);
    FilterImplies(group, (x: Claim) => FlagDisagree(x.decision), (x: Claim) => true);
    var d := Disagreed(group) as real;
    var n := (if |group| > 0 then |group| else 1) as real;
    assert d <= n;
    PercentBounds(d, n);
  }

  /** partial_share: 100 * partial_disagreed / disagreed_claims.clip(lower=1). */
  function PartialShare(group: seq<Claim>): real
  {
    100.0 * (PartialDisagreed(group) as real) / ((if Disagreed(group) > 0 then Disagreed(group) else 1) as real)
  }

  /** Partial disagreements are among the disagreements, so their share is a percentage. */
  lemma PartialShareInRange(group: seq<Claim>)
    ensures PartialDisagreed(group) <= Disagreed(group)
    ensures 0.0 <= PartialShare(group) <= 100.0
  {
    FilterImplies(group, (x: Claim) => FlagPartial(x.decision), (x: Claim) => FlagDisagree(x.decision));
  }

  // ---------------------------------------------------------------------------
  // The error mix of a category
  // ---------------------------------------------------------------------------

  /** The number of disagreed claims of the group in bucket b (`fillna("Other")` never applies to them). */
  function MixCount(group: seq<Claim>, b: Bucket): nat
  {
    |Filter(group, (x: Claim) => SafeErrorBucket(x) == Some(b))|
  }

  /** The four buckets split the disagreed claims. */
  lemma {:induction false} MixPartition(group: seq<Claim>)
    ensures MixCount(group, MedicalNecessity) + MixCount(group, Documentation)
            + MixCount(group, CodingTechnical) + MixCount(group, OtherReason) == Disagreed(group)
    decreases |group|
  {
    if group != [] {
      MixPartition(group[1..]);
    }
  }

  /** A bucket's share of the category's disagreements; 0 where the bucket does not occur. */
  function MixShare(group: seq<Claim>, b: Bucket): real
  {
    if Disagreed(group) == 0 then 0.0 else 100.0 * (MixCount(group, b) as real) / (Disagreed(group) as real)
  }

  /** The stacked bar of a category with disagreements adds up to 100%. */
  lemma MixSharesSumToHundred(group: seq<Claim>)
    requires Disagreed(group) > 0
    ensures MixShare(group, MedicalNecessity) + MixShare(group, Documentation)
            + MixShare(group, CodingTechnical) + MixShare(group, OtherReason) == 100.0
  {
    MixPartition(group);
    var d := Disagreed(group) as real;
    var m := MixCount(group, MedicalNecessity) as real;
    var o := MixCount(group, Documentation) as real;
    var c := MixCount(group, CodingTechnical) as real;
    var r := MixCount(group, OtherReason) as real;
    assert m + o + c + r == d;
    SharesOfParts(m, o, c, r, d);
  }

  /** Four parts of a positive whole have shares that add up to 100. */
  lemma SharesOfParts(m: real, o: real, c: real, r: real, d: real)
    requires d > 0.0 && m + o + c + r == d
    ensures 100.0 * m / d + 100.0 * o / d + 100.0 * c / d + 100.0 * r / d == 100.0
  {
    assert 100.0 * m / d + 100.0 * o / d + 100.0 * c / d + 100.0 * r / d == 100.0 * (m + o + c + r) / d;
  }
}
