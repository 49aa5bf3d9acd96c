// The post-acute care coordination "leak" analysis: synthetic discharges
// with their destination, first post-acute visit, coordination gaps and
// 30-day readmission; the leak type blamed for a readmission; the flows
// from index condition to discharge destination; the delay buckets; and the
// links of the discharge-flow Sankey diagram.
module PostAcute {
  import opened Common

  // ---------------------------------------------------------------------------
  // Conditions, destinations and leak types
  // ---------------------------------------------------------------------------

  datatype Condition = HipFracture | Stroke | HeartFailure | Pneumonia | Copd | JointReplacement | Sepsis

  function ConditionName(c: Condition): string
  {
    match c
    case HipFracture => "Hip Fracture"
    case Stroke => "Stroke"
    case HeartFailure => "Heart Failure"
    case Pneumonia => "Pneumonia"
    case Copd => "COPD"
    case JointReplacement => "Joint Replacement"
    case Sepsis => "Sepsis"
  }

  /** The discharge destinations, in the order of the destination table. */
  datatype Destination = Snf | Hh | Irf | Ltch | Home | OtherDestination

  function DestinationCode(d: Destination): string
  {
    match d
    case Snf => "SNF"
    case Hh => "HH"
    case Irf => "IRF"
    case Ltch => "LTCH"
    case Home => "Home"
    case OtherDestination => "Other"
  }

  const Destinations: seq<Destination> := [Snf, Hh, Irf, Ltch, Home, OtherDestination]

  /** Post-acute settings that make a first visit: the institutional ones and home health. */
  predicate IsPostAcute(d: Destination) { d in {Snf, Hh, Irf, Ltch} }

  datatype LeakType = DelayedFirstVisit | NoFollowUp | MedicationGap | NoHandoff | EarlyDischarge

  function LeakName(t: LeakType): string
  {
    match t
    case DelayedFirstVisit => "Delayed first visit (>7 days)"
    case NoFollowUp => "No documented follow-up"
    case MedicationGap => "Medication reconciliation gap"
    case NoHandoff => "Communication failure (no handoff)"
    case EarlyDischarge => "Early discharge (against medical advice)"
  }

  /** Distinct conditions, destinations and leak types have distinct names. */
  lemma ConditionNameInjective(a: Condition, b: Condition)
    requires ConditionName(a) == ConditionName(b)
    ensures a == b
  {
  }

  lemma DestinationCodeInjective(a: Destination, b: Destination)
    requires DestinationCode(a) == DestinationCode(b)
    ensures a == b
  {
  }

  lemma LeakNameInjective(a: LeakType, b: LeakType)
    requires LeakName(a) == LeakName(b)
    ensures a == b
  {
  }

  // ---------------------------------------------------------------------------
  // Destination probabilities
  // ---------------------------------------------------------------------------

  /** The base destination mix of a condition, over `Destinations`: positive weights summing to one. */
  function BaseProbs(c: Condition): (r: seq<real>)
    ensures |r| == |Destinations| && Sum6(r) == 1.0 && forall i :: 0 <= i < |r| ==> r[i] > 0.0
  {
    if c in {HipFracture, Stroke, JointReplacement} then [0.45, 0.25, 0.15, 0.02, 0.10, 0.03]
    else if c in {HeartFailure, Pneumonia, Copd} then [0.25, 0.40, 0.05, 0.03, 0.25, 0.02]
    else [0.35, 0.30, 0.10, 0.08, 0.15, 0.02]
  }

  /** `sum(dest_probs.values())` over the six destinations. */
  function Sum6(v: seq<real>): real
    requires |v| == 6
  {
    v[0] + v[1] + v[2] + v[3] + v[4] + v[5]
  }

  lemma SumIsSum6(v: seq<real>)
    requires |v| == 6
    ensures Sum(v) == Sum6(v)
  {
    assert v[..1][..0] == [];
    assert Sum(v[..1]) == v[0];
    assert v[..2][..1] == v[..1];
    assert Sum(v[..2]) == v[0] + v[1];
    assert v[..3][..2] == v[..2];
    assert Sum(v[..3]) == v[0] + v[1] + v[2];
    assert v[..4][..3] == v[..3];
    assert Sum(v[..4]) == v[0] + v[1] + v[2] + v[3];
    assert v[..5][..4] == v[..4];
    assert Sum(v[..5]) == v[0] + v[1] + v[2] + v[3] + v[4];
    assert v[..5] == v[..|v| - 1];
  }

  /** Patients over 85 get 1.3 times the SNF weight and 0.6 times the home weight, renormalised. */
  function DestinationProbs(c: Condition, age: int): (r: seq<real>)
    ensures |r| == |Destinations|
  {
    var p := BaseProbs(c);
    if age > 85 then
      var w := [p[0] * 1.3, p[1], p[2], p[3], p[4] * 0.6, p[5]];
      Normalize(w, Sum6(w))
    else p
  }

  /** Six positive weights summing to one. */
  predicate IsMix(p: seq<real>)
  {
    |p| == 6 && Sum6(p) == 1.0 && forall i :: 0 <= i < 6 ==> p[i] > 0.0
  }

  /** Every mix is a probability distribution over the destinations, and old age moves weight from home to SNF. */
  lemma DestinationProbsDistribution(c: Condition, age: int)
    ensures var r := DestinationProbs(c, age);
            Sum(r) == 1.0 && (forall i :: 0 <= i < |r| ==> 0.0 <= r[i] <= 1.0)
    ensures age > 85 ==> DestinationProbs(c, age)[0] > BaseProbs(c)[0] && DestinationProbs(c, age)[4] < BaseProbs(c)[4]
  {
    var p := BaseProbs(c);
    assert IsMix(p);
    if age > 85 {
      OldAgeMix(p);
    } else {
      MixIsDistribution(p);
    }
  }

  lemma MixIsDistribution(p: seq<real>)
    requires IsMix(p)
    ensures Sum(p) == 1.0 && forall i :: 0 <= i < |p| ==> 0.0 <= p[i] <= 1.0
  {
    SumIsSum6(p);
  }

  /** Renormalising after raising the SNF weight and lowering the home weight keeps a distribution. */
  lemma OldAgeMix(p: seq<real>)
    requires IsMix(p)
    ensures var w := [p[0] * 1.3, p[1], p[2], p[3], p[4] * 0.6, p[5]];
            var r := Normalize(w, Sum6(w));
            Sum(r) == 1.0 && (forall i :: 0 <= i < |r| ==> 0.0 <= r[i] <= 1.0) && r[0] > p[0] && r[4] < p[4]
  {
    var w := [p[0] * 1.3, p[1], p[2], p[3], p[4] * 0.6, p[5]];
    var t := Sum6(w);
    assert t == 1.0 + 0.3 * p[0] - 0.4 * p[4];
    SumIsSum6(w);
    NormalizedIsDistribution(w, t);
    ShiftedWeights(p[0], p[4], t);
  }

  /** Weights divided by their positive total form a distribution. */
  lemma NormalizedIsDistribution(w: seq<real>, t: real)
    requires t == Sum(w) && t > 0.0 && forall i :: 0 <= i < |w| ==> w[i] >= 0.0
    ensures var r := Normalize(w, t);
            Sum(r) == 1.0 && forall i :: 0 <= i < |r| ==> 0.0 <= r[i] <= 1.0
  {
    SumNormalize(w, t);
    assert t / t == 1.0;
    var r := Normalize(w, t);
    forall i | 0 <= i < |r|
      ensures 0.0 <= r[i] <= 1.0
    {
      SumNonNegativeAtLeast(w, i);
      assert t * 0.0 == 0.0 && t * 1.0 == t;
      DivideBetween(w[i], t, 0.0, 1.0);
    }
  }

  /** With non-negative entries each entry is at most the sum. */
  lemma {:induction false} SumNonNegativeAtLeast(w: seq<real>, i: int)
    requires 0 <= i < |w| && forall j :: 0 <= j < |w| ==> w[j] >= 0.0
    ensures 0.0 <= w[i] <= Sum(w)
  {
    var init := w[..|w| - 1];
    if i < |w| - 1 {
      SumNonNegativeAtLeast(init, i);
    } else if init != [] {
      SumNonNegativeAtLeast(init, 0);
    }
  }

  /** The SNF share 1.3 * a / t rises and the home share 0.6 * h / t falls when t = 1 + 0.3 a - 0.4 h with a, h in (0, 1). */
  lemma ShiftedWeights(a: real, h: real, t: real)
    requires 0.0 < a < 1.0 && 0.0 < h < 1.0 && t == 1.0 + 0.3 * a - 0.4 * h
    ensures t > 0.0 && (a * 1.3) / t > a && (h * 0.6) / t < h
  {
    ScaleBelow(a, t, 1.3);
    QuotientAbove(a * 1.3, t, a);
    ScaleBelow(h, 0.6, t);
    QuotientBelow(h * 0.6, t, h);
  }

  lemma ScaleBelow(a: real, x: real, y: real)
    requires a > 0.0 && x < y
    ensures a * x < a * y
  {
  }

  lemma QuotientAbove(a: real, t: real, b: real)
    requires t > 0.0 && a > b * t
    ensures a / t > b
  {
    assert (a / t) * t == a;
  }

  lemma QuotientBelow(a: real, t: real, b: real)
    requires t > 0.0 && a < b * t
    ensures a / t < b
  {
    assert (a / t) * t == a;
  }

  // ---------------------------------------------------------------------------
  // One discharge
  // ---------------------------------------------------------------------------

  /**
   * The random draws behind one discharge: condition, age, comorbidity score,
   * the gamma draw for the length of stay, destination, the gamma draw for the
   * first visit, whether medication reconciliation and handoff happened, the
   * SNF quality modifier, the uniform draw that decides readmission, the draw
   * for the day of readmission, and which of the two fallback leak types is chosen.
   */
  datatype Draw = Draw(
    condition: Condition, age: int, comorbidity: int, losDraw: real,
    destination: Destination, visitDraw: real, medRec: bool, handoff: bool,
    snfModifier: real, readmitDraw: real, readmitDayDraw: real, pickEarly: bool)

  datatype Patient = Patient(
    id: string, condition: Condition, age: int, comorbidity: int, los: int,
    destination: Destination, daysToFirstVisit: Option<int>, medRec: bool, handoff: bool,
    readmitted: bool, daysToReadmit: Option<int>, leak: Option<LeakType>)

  /** Days until the first post-acute contact: none for home and other destinations, 0 for SNF. */
  function DaysToFirstVisit(d: Destination, draw: real): (r: Option<int>)
    ensures r.None? <==> !IsPostAcute(d)
    ensures d == Snf ==> r == Some(0)
    ensures r.Some? ==> r.value >= 0
    ensures r.Some? && d != Snf && draw >= 0.0 ==> r.value as real <= draw < r.value as real + 1.0
  {
    if d == Snf then Some(0)
    else if IsPostAcute(d) then Some(if Trunc(draw) > 0 then Trunc(draw) else 0)
    else None
  }

  /** `days and days > 7`: a first visit more than a week after discharge (0 and None are falsy). */
  predicate IsDelayed(days: Option<int>) { days.Some? && days.value != 0 && days.value > 7 }

  /** An SNF discharge is never a delayed first visit. */
  lemma SnfNeverDelayed(draw: real)
    ensures !IsDelayed(DaysToFirstVisit(Snf, draw))
  {
  }

  /** The base 30-day readmission rate of a condition. */
  function BaseReadmitRate(c: Condition): real
  {
    match c
    case HipFracture => 0.08
    case Stroke => 0.12
    case HeartFailure => 0.22
    case Pneumonia => 0.18
    case Copd => 0.20
    case JointReplacement => 0.05
    case Sepsis => 0.25
  }

  /** The readmission risk before coordination failures: scaled by the destination. */
  function SettingRisk(c: Condition, d: Destination, snfModifier: real): real
  {
    var base := BaseReadmitRate(c);
    if d == Snf then base * snfModifier
    else if d == Home then base * 1.3
    else if d in {Irf, Hh} then base * 0.9
    else base
  }

  /** Each coordination failure multiplies the risk: a delayed visit by 1.5, no reconciliation by 1.4, no handoff by 1.6. */
  function ReadmitRisk(setting: real, days: Option<int>, medRec: bool, handoff: bool): real
  {
    var r1 := if IsDelayed(days) then setting * 1.5 else setting;
    var r2 := if !medRec then r1 * 1.4 else r1;
    if !handoff then r2 * 1.6 else r2
  }

  /** Coordination failures never lower the risk, and with none the risk is the setting's. */
  lemma FailuresRaiseRisk(setting: real, days: Option<int>, medRec: bool, handoff: bool)
    requires setting >= 0.0
    ensures ReadmitRisk(setting, days, medRec, handoff) >= setting
    ensures ReadmitRisk(setting, days, medRec, handoff) == setting <==> setting == 0.0 || (!IsDelayed(days) && medRec && handoff)
  {
  }

  /** The coordination leak blamed for a readmission, the causes tried in order of priority. */
  function LeakOf(readmitted: bool, days: Option<int>, medRec: bool, handoff: bool, pickEarly: bool): (r: Option<LeakType>)
    ensures r.None? <==> !readmitted
  {
    if !readmitted then None
    else if IsDelayed(days) then Some(DelayedFirstVisit)
    else if !medRec then Some(MedicationGap)
    else if !handoff then Some(NoHandoff)
    else Some(if pickEarly then EarlyDischarge else NoFollowUp)
  }

  /** Each leak type is blamed exactly when its cause is the first present one. */
  lemma LeakPriority(readmitted: bool, days: Option<int>, medRec: bool, handoff: bool, pickEarly: bool)
    ensures var r := LeakOf(readmitted, days, medRec, handoff, pickEarly);
            (r == Some(DelayedFirstVisit) <==> readmitted && IsDelayed(days))
            && (r == Some(MedicationGap) <==> readmitted && !IsDelayed(days) && !medRec)
            && (r == Some(NoHandoff) <==> readmitted && !IsDelayed(days) && medRec && !handoff)
            && (r.Some? && r.value in {NoFollowUp, EarlyDischarge} <==> readmitted && !IsDelayed(days) && medRec && handoff)
  {
  }

  /** f'P{i:05d}' */
  function PatientId(i: nat): string
  {
    "P" + ZFill(NatStr(i), 5)
  }

  lemma PatientIdInjective(i: nat, j: nat)
    requires PatientId(i) == PatientId(j)
    ensures i == j
  {
    var a, b := ZFill(NatStr(i), 5), ZFill(NatStr(j), 5);
    assert a == PatientId(i)[1..] && b == PatientId(j)[1..];
    ZFillDigits(NatStr(i), 5);
    ZFillDigits(NatStr(j), 5);
    DigitsValueOfNatStr(i);
    DigitsValueOfNatStr(j);
  }

  /** One discharge record from its draws. */
  function DischargeOf(i: nat, d: Draw): (p: Patient)
    ensures p.id == PatientId(i) && p.condition == d.condition && p.destination == d.destination
    ensures p.los >= 1
    ensures p.readmitted <==> d.readmitDraw < ReadmitRisk(SettingRisk(d.condition, d.destination, d.snfModifier),
                                                          p.daysToFirstVisit, d.medRec, d.handoff)
    ensures p.daysToFirstVisit == DaysToFirstVisit(d.destination, d.visitDraw)
    ensures p.daysToReadmit.Some? <==> p.readmitted
    ensures p.leak == LeakOf(p.readmitted, p.daysToFirstVisit, p.medRec, p.handoff, d.pickEarly)
  {
    var days := DaysToFirstVisit(d.destination, d.visitDraw);
    var risk := ReadmitRisk(SettingRisk(d.condition, d.destination, d.snfModifier), days, d.medRec, d.handoff);
    var readmitted := d.readmitDraw < risk;
    Patient(PatientId(i), d.condition, d.age, d.comorbidity, if Trunc(d.losDraw) > 1 then Trunc(d.losDraw) else 1,
            d.destination, days, d.medRec, d.handoff, readmitted,
            if readmitted then Some(Trunc(d.readmitDayDraw)) else None,
            LeakOf(readmitted, days, d.medRec, d.handoff, d.pickEarly))
  }

  /** A record whose leak agrees with its readmission and whose first visit agrees with its destination. */
  predicate Consistent(p: Patient)
  {
    (p.leak.None? <==> !p.readmitted)
    && (p.daysToFirstVisit.None? <==> !IsPostAcute(p.destination))
    && (p.destination == Snf ==> p.daysToFirstVisit == Some(0))
    && (p.leak == Some(DelayedFirstVisit) ==> p.destination != Snf && IsDelayed(p.daysToFirstVisit))
  }

  /** Every generated record is consistent. */
  lemma DischargeConsistent(i: nat, d: Draw)
    ensures Consistent(DischargeOf(i, d))
  {
    var p := DischargeOf(i, d);
    LeakPriority(p.readmitted, p.daysToFirstVisit, p.medRec, p.handoff, d.pickEarly);
  }

  /** generate_discharge_data: one record per patient, appended in turn. */
  method GenerateDischarges(draws: seq<Draw>) returns (ps: seq<Patient>)
    ensures |ps| == |draws|
    ensures forall i :: 0 <= i < |draws| ==> ps[i] == DischargeOf(i, draws[i])
    ensures forall i :: 0 <= i < |ps| ==> Consistent(ps[i])
  {
    ps := [];
    var i := 0;
    while i < |draws|
      invariant 0 <= i <= |draws| && |ps| == i
      invariant forall k :: 0 <= k < i ==> ps[k] == DischargeOf(k, draws[k])
    {
      ps := ps + [DischargeOf(i, draws[i])];
      i := i + 1;
    }
    forall k | 0 <= k < |ps|
      ensures Consistent(ps[k])
    {
      DischargeConsistent(k, draws[k]);
    }
  }

  // ---------------------------------------------------------------------------
  // Leak distribution
  // ---------------------------------------------------------------------------

  function HasLeak(t: LeakType): Patient -> bool
  {
    (p: Patient) => p.leak == Some(t)
  }

  function HasAnyLeak(p: Patient): bool { p.leak.Some? }

  /** `value_counts` of the leak type among readmitted patients, for one leak type. */
  function LeakCount(ps: seq<Patient>, t: LeakType): nat
  {
    |Filter(Filter(ps, IsReadmitted), HasLeak(t))|
  }

  /** The five counts added up. */
  function LeakTotal(ps: seq<Patient>): nat
  {
    LeakCount(ps, DelayedFirstVisit) + LeakCount(ps, NoFollowUp) + LeakCount(ps, MedicationGap)
    + LeakCount(ps, NoHandoff) + LeakCount(ps, EarlyDischarge)
  }

  /** A leak type's share of the counted readmissions, in percent; no share when nothing was counted. */
  function LeakPct(ps: seq<Patient>, t: LeakType): (r: Option<real>)
    ensures r.None? <==> LeakTotal(ps) == 0
    ensures r.Some? ==> 0.0 <= r.value <= 100.0
  {
    if LeakTotal(ps) == 0 then None
    else
      assert LeakCount(ps, t) <= LeakTotal(ps) by {
        if t == DelayedFirstVisit || t == NoFollowUp || t == MedicationGap || t == NoHandoff {}
      }
      Some(100.0 * Ratio(LeakCount(ps, t), LeakTotal(ps)))
  }

  /** A readmitted patient adds one to the count of its own leak type and nothing to the others. */
  lemma LeakCountCons(p: Patient, rest: seq<Patient>, t: LeakType)
    requires p.readmitted
    ensures LeakCount([p] + rest, t) == (if p.leak == Some(t) then 1 else 0) + LeakCount(rest, t)
  {
    var s := [p] + rest;
    assert s[0] == p && s[1..] == rest;
    var r := Filter(s, IsReadmitted);
    var r' := Filter(rest, IsReadmitted);
    assert r == [p] + r';
    assert r[0] == p && r[1..] == r';
  }

  /** One patient's contribution to the five counts. */
  lemma {:induction false} LeakTotalCons(p: Patient, rest: seq<Patient>)
    ensures LeakTotal([p] + rest) == (if p.readmitted && p.leak.Some? then 1 else 0) + LeakTotal(rest)
  {
    var s := [p] + rest;
    assert s[0] == p && s[1..] == rest;
    if p.readmitted {
      LeakCountCons(p, rest, DelayedFirstVisit);
      LeakCountCons(p, rest, NoFollowUp);
      LeakCountCons(p, rest, MedicationGap);
      LeakCountCons(p, rest, NoHandoff);
      LeakCountCons(p, rest, EarlyDischarge);
      if p.leak.Some? {
        match p.leak.value
        case DelayedFirstVisit =>
        case NoFollowUp =>
        case MedicationGap =>
        case NoHandoff =>
        case EarlyDischarge =>
      }
    } else {
      assert Filter(s, IsReadmitted) == Filter(rest, IsReadmitted);
    }
  }

  /** Among consistent records every readmission is blamed on exactly one leak type, so the counts add up to the readmissions. */
  lemma {:induction false} LeakTotalIsReadmissions(ps: seq<Patient>)
    requires forall i :: 0 <= i < |ps| ==> Consistent(ps[i])
    ensures LeakTotal(ps) == |Filter(ps, IsReadmitted)|
  {
    if ps != [] {
      assert ps == [ps[0]] + ps[1..];
      LeakTotalCons(ps[0], ps[1..]);
      LeakTotalIsReadmissions(ps[1..]);
    }
  }

  /** The caption's "readmissions linked to care coordination failures" are all the readmissions. */
  lemma {:induction false} LeaksAreReadmissions(ps: seq<Patient>)
    requires forall i :: 0 <= i < |ps| ==> Consistent(ps[i])
    ensures Filter(ps, HasAnyLeak) == Filter(ps, IsReadmitted)
  {
    if ps != [] {
      assert Consistent(ps[0]);
      LeaksAreReadmissions(ps[1..]);
    }
  }

  /** Membership of one `delay_impact` group: a timed first contact at this destination, delayed or not. */
  function InDelayGroup(d: Destination, delayed: bool): Patient -> bool
  {
    (p: Patient) => p.destination == d && p.daysToFirstVisit.Some? && (p.daysToFirstVisit.value > 7) == delayed
  }

  /** One `delay_impact` row: the group's readmission rate and its size. */
  datatype DelayRow = DelayRow(readmitRate: real, patientCount: nat)

  function DelayImpact(ps: seq<Patient>, d: Destination, delayed: bool): (r: DelayRow)
    ensures r.patientCount == |Filter(ps, InDelayGroup(d, delayed))| && 0.0 <= r.readmitRate <= 1.0
    ensures r.readmitRate == Ratio(|Filter(Filter(ps, InDelayGroup(d, delayed)), IsReadmitted)|, r.patientCount)
  {
    var g := Filter(ps, InDelayGroup(d, delayed));
    DelayRow(Ratio(|Filter(g, IsReadmitted)|, |g|), |g|)
  }

  /** Among consistent records only post-acute settings form delay groups, and SNF never forms a delayed one. */
  lemma DelayGroupsArePostAcute(ps: seq<Patient>, d: Destination, delayed: bool)
    requires forall i :: 0 <= i < |ps| ==> Consistent(ps[i])
    requires DelayImpact(ps, d, delayed).patientCount > 0
    ensures IsPostAcute(d)
    ensures d == Snf ==> !delayed
  {
    var g := Filter(ps, InDelayGroup(d, delayed));
    assert g[0] in g;
    var i :| 0 <= i < |ps| && ps[i] == g[0];
    assert Consistent(ps[i]);
  }

  // ---------------------------------------------------------------------------
  // Delay buckets
  // ---------------------------------------------------------------------------

  datatype DelayBucket = UpToThree | FourToSeven | OverSeven

  function BucketLabel(b: DelayBucket): string
  {
    match b
    case UpToThree => "0-3 days"
    case FourToSeven => "4-7 days"
    case OverSeven => ">7 days"
  }

  /** `pd.cut` with bins [-1, 3, 7, 30]: right-closed intervals; a value outside (-1, 30] gets no bucket. */
  function BucketOf(days: int): (r: Option<DelayBucket>)
    ensures r == Some(UpToThree) <==> -1 < days <= 3
    ensures r == Some(FourToSeven) <==> 3 < days <= 7
    ensures r == Some(OverSeven) <==> 7 < days <= 30
    ensures r.None? <==> days <= -1 || days > 30
  {
    if -1 < days <= 3 then Some(UpToThree)
    else if 3 < days <= 7 then Some(FourToSeven)
    else if 7 < days <= 30 then Some(OverSeven)
    else None
  }

  /** For a first visit within a month, the ">7 days" bucket is exactly the delayed-visit test of the leak rule. */
  lemma BucketMatchesDelay(days: int)
    requires 0 <= days <= 30
    ensures BucketOf(days) == Some(OverSeven) <==> IsDelayed(Some(days))
    ensures BucketOf(days).Some?
  {
  }

  /** Bucketing is monotone: a later first visit never falls in an earlier bucket. */
  lemma BucketMonotone(a: int, b: int)
    requires 0 <= a <= b <= 30
    ensures BucketRank(BucketOf(a).value) <= BucketRank(BucketOf(b).value)
  {
  }

  function BucketRank(b: DelayBucket): int
  {
    match b
    case UpToThree => 0
    case FourToSeven => 1
    case OverSeven => 2
  }

  // ---------------------------------------------------------------------------
  // Discharge flows
  // ---------------------------------------------------------------------------

  /** One pathway, by its condition and destination names: its patient count and readmission rate. */
  datatype Flow = Flow(condition: string, destination: string, count: nat, readmitRate: real)

  function OnPath(c: Condition, d: Destination): Patient -> bool
  {
    (p: Patient) => p.condition == c && p.destination == d
  }

  function IsReadmitted(p: Patient): bool { p.readmitted }

  /** The pathways present among the patients, each once, in order of first appearance. */
  function Paths(ps: seq<Patient>): (v: seq<(Condition, Destination)>)
    ensures forall k :: k in v <==> exists p :: p in ps && (p.condition, p.destination) == k
  {
    if ps == [] then [] else
      var u := Paths(ps[..|ps| - 1]);
      var last := ps[|ps| - 1];
      assert forall x :: x in ps <==> x in ps[..|ps| - 1] || x == last;
      if (last.condition, last.destination) in u then u else u + [(last.condition, last.destination)]
  }

  /** The mean of `part` true flags among `whole`: a fraction when part <= whole. */
  function Ratio(part: nat, whole: nat): (r: real)
    ensures whole > 0 ==> r * whole as real == part as real
    ensures part <= whole ==> 0.0 <= r <= 1.0
  {
    if whole == 0 then 0.0
    else
      var t := whole as real;
      assert t * 0.0 == 0.0 && t * 1.0 == t;
      if part <= whole then DivideBetween(part as real, t, 0.0, 1.0); part as real / t
      else part as real / t
  }

  /** A pathway's count and the mean of its readmission flags. */
  function FlowOf(ps: seq<Patient>, c: Condition, d: Destination): (f: Flow)
    ensures f.condition == ConditionName(c) && f.destination == DestinationCode(d)
    ensures f.count == |Filter(ps, OnPath(c, d))| && 0.0 <= f.readmitRate <= 1.0
    ensures f.readmitRate == Ratio(|Filter(Filter(ps, OnPath(c, d)), IsReadmitted)|, f.count)
  {
    var g := Filter(ps, OnPath(c, d));
    Flow(ConditionName(c), DestinationCode(d), |g|, Ratio(|Filter(g, IsReadmitted)|, |g|))
  }

  /** analyze_discharge_flows: one flow per pathway present among the patients. */
  function Flows(ps: seq<Patient>): (r: seq<Flow>)
    ensures |r| == |Paths(ps)|
    ensures forall k :: 0 <= k < |r| ==> r[k] == FlowOf(ps, Paths(ps)[k].0, Paths(ps)[k].1)
  {
    var keys := Paths(ps);
    seq(|keys|, k requires 0 <= k < |keys| => FlowOf(ps, keys[k].0, keys[k].1))
  }

  /** Every flow covers at least one patient and its readmission rate is a fraction. */
  lemma FlowBounds(ps: seq<Patient>, k: nat)
    requires k < |Flows(ps)|
    ensures Flows(ps)[k].count >= 1 && 0.0 <= Flows(ps)[k].readmitRate <= 1.0
  {
    var key := Paths(ps)[k];
    assert key in Paths(ps);
    var p :| p in ps && (p.condition, p.destination) == key;
    assert p in Filter(ps, OnPath(key.0, key.1));
  }

  /** A pathway has a flow iff some patient took it. */
  lemma FlowsCover(ps: seq<Patient>, c: Condition, d: Destination)
    ensures (exists f :: f in Flows(ps) && f.condition == ConditionName(c) && f.destination == DestinationCode(d))
            <==> exists p :: p in ps && p.condition == c && p.destination == d
  {
    var keys := Paths(ps);
    var fs := Flows(ps);
    if p :| p in ps && p.condition == c && p.destination == d {
      assert (c, d) in keys;
      var k :| 0 <= k < |keys| && keys[k] == (c, d);
      assert fs[k] in fs;
    }
    if f :| f in fs && f.condition == ConditionName(c) && f.destination == DestinationCode(d) {
      var k :| 0 <= k < |fs| && fs[k] == f;
      ConditionNameInjective(keys[k].0, c);
      DestinationCodeInjective(keys[k].1, d);
      assert keys[k] in keys;
    }
  }

  /** No condition name is also a destination name. */
  lemma FlowNamesDisjoint(ps: seq<Patient>)
    ensures forall j, k :: 0 <= j < |Flows(ps)| && 0 <= k < |Flows(ps)| ==> Flows(ps)[j].condition != Flows(ps)[k].destination
  {
    forall c: Condition, d: Destination
      ensures ConditionName(c) != DestinationCode(d)
    {
      NodeNamesDisjoint(c, d);
    }
  }

  lemma NodeNamesDisjoint(c: Condition, d: Destination)
    ensures ConditionName(c) != DestinationCode(d)
  {
  }

  // ---------------------------------------------------------------------------
  // Sankey diagram
  // ---------------------------------------------------------------------------

  /** `{name: idx for idx, name in enumerate(nodes)}`: a repeated name keeps its last position. */
  function NodeIndex(nodes: seq<string>, name: string): (i: int)
    ensures name in nodes ==> 0 <= i < |nodes| && nodes[i] == name
                              && forall j :: i < j < |nodes| ==> nodes[j] != name
    ensures name !in nodes ==> i == -1
  {
    if nodes == [] then -1
    else if nodes[|nodes| - 1] == name then |nodes| - 1
    else NodeIndex(nodes[..|nodes| - 1], name)
  }

  const Red := "rgba(255, 100, 100, 0.4)"
  const Orange := "rgba(255, 200, 100, 0.4)"
  const Green := "rgba(100, 200, 100, 0.4)"

  /** A link's colour by readmission rate: red above 0.20, orange above 0.15, green otherwise. */
  function LinkColor(rate: real): string
  {
    if rate > 0.20 then Red else if rate > 0.15 then Orange else Green
  }

  lemma LinkColorBands(rate: real)
    ensures LinkColor(rate) == Red <==> rate > 0.20
    ensures LinkColor(rate) == Orange <==> 0.15 < rate <= 0.20
    ensures LinkColor(rate) == Green <==> rate <= 0.15
  {
  }

  function ConditionNames(fs: seq<Flow>): (v: seq<string>)
    ensures |v| == |fs| && forall k :: 0 <= k < |fs| ==> v[k] == fs[k].condition
  {
    if fs == [] then [] else ConditionNames(fs[..|fs| - 1]) + [fs[|fs| - 1].condition]
  }

  function DestinationNames(fs: seq<Flow>): (v: seq<string>)
    ensures |v| == |fs| && forall k :: 0 <= k < |fs| ==> v[k] == fs[k].destination
  {
    if fs == [] then [] else DestinationNames(fs[..|fs| - 1]) + [fs[|fs| - 1].destination]
  }

  /** The Sankey nodes: the distinct conditions, then the distinct destinations, each in order of first appearance. */
  function SankeyNodes(fs: seq<Flow>): (nodes: seq<string>)
    ensures forall x :: x in nodes <==> exists k :: 0 <= k < |fs| && (fs[k].condition == x || fs[k].destination == x)
  {
    var conditions, destinations := Unique(ConditionNames(fs)), Unique(DestinationNames(fs));
    assert forall x :: x in conditions <==> exists k :: 0 <= k < |fs| && fs[k].condition == x;
    assert forall x :: x in destinations <==> exists k :: 0 <= k < |fs| && fs[k].destination == x;
    conditions + destinations
  }

  /**
   * Link `k` runs from flow `k`'s condition node to its destination node, which
   * lies after the first `split` (condition) nodes, and carries the flow's count
   * and colour.
   */
  predicate IsLink(fs: seq<Flow>, nodes: seq<string>, split: int, k: int, s: int, t: int, v: nat, col: string)
    requires 0 <= k < |fs|
  {
    0 <= s < |nodes| && nodes[s] == fs[k].condition
    && 0 <= split <= t < |nodes| && nodes[t] == fs[k].destination
    && v == fs[k].count && col == LinkColor(fs[k].readmitRate)
  }

  /** Where no destination shares its name, a condition's node is a condition node. */
  predicate SourceIsCondition(fs: seq<Flow>, split: int, k: int, s: int)
    requires 0 <= k < |fs|
  {
    (forall j :: 0 <= j < |fs| ==> fs[j].destination != fs[k].condition) ==> s < split
  }

  /** The node positions of flow `k`'s condition and destination. */
  lemma LinkEnds(conditions: seq<string>, destinations: seq<string>, c: string, d: string)
    requires c in conditions && d in destinations
    ensures var nodes := conditions + destinations;
            var s, t := NodeIndex(nodes, c), NodeIndex(nodes, d);
            0 <= s < |nodes| && nodes[s] == c && |conditions| <= t < |nodes| && nodes[t] == d
            && (c !in destinations ==> s < |conditions|)
  {
    var nodes := conditions + destinations;
    var j :| 0 <= j < |destinations| && destinations[j] == d;
    assert nodes[|conditions| + j] == d;
    forall i | |conditions| <= i < |nodes|
      ensures nodes[i] in destinations
    {
      assert nodes[i] == destinations[i - |conditions|];
    }
  }

  /** The link the loop appends for flow `k`. */
  lemma LinkStep(fs: seq<Flow>, k: int)
    requires 0 <= k < |fs|
    ensures var nodes, split := SankeyNodes(fs), |Unique(ConditionNames(fs))|;
            var s, t := NodeIndex(nodes, fs[k].condition), NodeIndex(nodes, fs[k].destination);
            IsLink(fs, nodes, split, k, s, t, fs[k].count, LinkColor(fs[k].readmitRate))
            && SourceIsCondition(fs, split, k, s)
  {
    var conditions, destinations := Unique(ConditionNames(fs)), Unique(DestinationNames(fs));
    var c, d := fs[k].condition, fs[k].destination;
    assert ConditionNames(fs)[k] == c && DestinationNames(fs)[k] == d;
    LinkEnds(conditions, destinations, c, d);
    if c in destinations {
      var j :| 0 <= j < |fs| && DestinationNames(fs)[j] == c;
    }
  }

  /** The loop of create_sankey_diagram: one link per flow, appended to the four lists in turn. */
  method AppendLinks(fs: seq<Flow>, nodes: seq<string>) returns (source: seq<int>, target: seq<int>, value: seq<nat>, color: seq<string>)
    ensures |source| == |target| == |value| == |color| == |fs|
    ensures forall j :: 0 <= j < |fs| ==> source[j] == NodeIndex(nodes, fs[j].condition)
    ensures forall j :: 0 <= j < |fs| ==> target[j] == NodeIndex(nodes, fs[j].destination)
    ensures forall j :: 0 <= j < |fs| ==> value[j] == fs[j].count
    ensures forall j :: 0 <= j < |fs| ==> color[j] == LinkColor(fs[j].readmitRate)
  {
    source, target, value, color := [], [], [], [];
    var k := 0;
    while k < |fs|
      invariant 0 <= k <= |fs|
      invariant |source| == |target| == |value| == |color| == k
      invariant forall j :: 0 <= j < k ==> source[j] == NodeIndex(nodes, fs[j].condition)
      invariant forall j :: 0 <= j < k ==> target[j] == NodeIndex(nodes, fs[j].destination)
      invariant forall j :: 0 <= j < k ==> value[j] == fs[j].count
      invariant forall j :: 0 <= j < k ==> color[j] == LinkColor(fs[j].readmitRate)
    {
      source := source + [NodeIndex(nodes, fs[k].condition)];
      target := target + [NodeIndex(nodes, fs[k].destination)];
      value := value + [fs[k].count];
      color := color + [LinkColor(fs[k].readmitRate)];
      k := k + 1;
    }
  }

  /**
   * create_sankey_diagram's nodes and links: each flow becomes a link from its
   * condition's node to its destination's node, weighted by its count and
   * coloured by its readmission rate.
   */
  method SankeyLinks(fs: seq<Flow>) returns (nodes: seq<string>, source: seq<int>, target: seq<int>, value: seq<nat>, color: seq<string>)
    ensures nodes == SankeyNodes(fs)
    ensures |source| == |target| == |value| == |color| == |fs|
    ensures forall k :: 0 <= k < |fs| ==>
              IsLink(fs, nodes, |Unique(ConditionNames(fs))|, k, source[k], target[k], value[k], color[k])
              && SourceIsCondition(fs, |Unique(ConditionNames(fs))|, k, source[k])
  {
    nodes := SankeyNodes(fs);
    source, target, value, color := AppendLinks(fs, nodes);
    forall j | 0 <= j < |fs|
      ensures IsLink(fs, nodes, |Unique(ConditionNames(fs))|, j, source[j], target[j], value[j], color[j])
              && SourceIsCondition(fs, |Unique(ConditionNames(fs))|, j, source[j])
    {
      LinkStep(fs, j);
    }
  }
}
