// The scoring core of the mock "Lodestar" investigation card: the entity roster,
// the change-of-ownership spike, min-max scaling, the weighted risk score with its
// per-indicator contributions, and the choice of benign explanations.

module Lodestar {
  import opened Common
  import Sorting

  // ---------------------------------------------------------------------------
  // Configuration
  // ---------------------------------------------------------------------------

  const PostCooVolumeSpike := "post_coo_volume_spike"
  const SkuNarrowing := "sku_narrowing"
  const SharedIpBlock := "shared_ip_block"
  const SharedMailingAddress := "shared_mailing_address"
  const BeneOverlapCluster := "bene_overlap_cluster"
  const VelocityBursts := "velocity_bursts"
  const NewProviderIdentities := "new_provider_identities"

  /** The indicator weights, before normalisation. */
  const IndicatorWeights: map<string, real> := map[
    PostCooVolumeSpike := 1.0, SkuNarrowing := 0.9, SharedIpBlock := 0.7,
    SharedMailingAddress := 0.6, BeneOverlapCluster := 0.9, VelocityBursts := 0.6,
    NewProviderIdentities := 0.5]

  /** The catalog of non-nefarious explanations, one per indicator. */
  const BenignExplanations: map<string, string> := map[
    PostCooVolumeSpike := "Legit new ownership ramp (marketing push, new referral partners).",
    SkuNarrowing := "Clinical mix shift (e.g., new post-acute contracts) or formulary changes.",
    SharedIpBlock := "Shared billing vendor or managed service using NAT.",
    SharedMailingAddress := "Consolidated mailroom or P.O. box for a management company.",
    BeneOverlapCluster := "Regional disease outbreak or localized outreach program.",
    VelocityBursts := "Seasonality, supplier backlog clearing, or EMR batch submission.",
    NewProviderIdentities := "Acquisitions, locums placements, or credentialing transitions."]

  // ---------------------------------------------------------------------------
  // Entities
  // ---------------------------------------------------------------------------

  datatype Entity = Entity(id: string, kind: string)

  /** `n` entities numbered from 1 with the given id prefix and type; none for n <= 0, as `range(n)` gives. */
  function Numbered(prefix: string, kind: string, n: int): (r: seq<Entity>)
    ensures |r| == if n > 0 then n else 0
    ensures forall i :: 0 <= i < |r| ==> r[i].kind == kind && r[i].id == prefix + NatStr(i + 1)
  {
    if n <= 0 then [] else Numbered(prefix, kind, n - 1) + [Entity(prefix + NatStr(n), kind)]
  }

  /** synth_ring: the DME suppliers DME_1.. and the prescribers PRV_1... */
  function SynthRing(nDme: int, nPrescribers: int): (r: (seq<Entity>, seq<Entity>))
  {
    (Numbered("DME_", "DME", nDme), Numbered("PRV_", "Prescriber", nPrescribers))
  }

  /** The number after an entity id's four-character prefix, if it is one. */
  function IdNumber(id: string): Option<nat>
  {
    if |id| < 4 then None else ParseNat(id[4..])
  }

  /** The ring's ids are distinct across both lists, each names its own type, and its number reads back from the id. */
  lemma SynthRingIds(nDme: int, nPrescribers: int)
    ensures var all := SynthRing(nDme, nPrescribers).0 + SynthRing(nDme, nPrescribers).1;
            (forall i, j :: 0 <= i < j < |all| ==> all[i].id != all[j].id)
            && (forall i :: 0 <= i < |all| ==> all[i].kind == (if all[i].id[..4] == "DME_" then "DME" else "Prescriber"))
            && (forall i :: 0 <= i < |SynthRing(nDme, nPrescribers).0| ==> IdNumber(all[i].id) == Some(i + 1))
  {
    var (d, p) := SynthRing(nDme, nPrescribers);
    var all := d + p;
    forall i | 0 <= i < |all|
      ensures IdNumber(all[i].id) == Some(if i < |d| then i + 1 else i - |d| + 1)
      ensures all[i].id[..4] == (if i < |d| then "DME_" else "PRV_")
    {
      var n := if i < |d| then i + 1 else i - |d| + 1;
      var pre := if i < |d| then "DME_" else "PRV_";
      assert all[i].id == pre + NatStr(n);
      assert all[i].id[4..] == NatStr(n);
      assert all[i].id[..4] == pre;
      ParseNatStr(n);
    }
    forall i, j | 0 <= i < j < |all|
      ensures all[i].id != all[j].id
    {
    }
  }

  // ---------------------------------------------------------------------------
  // Min-max scaling
  // ---------------------------------------------------------------------------

  /** normalize_0_1: the minimum of an empty array raises; a constant array scales to zeros. */
  function Normalize01(x: seq<real>): (r: Result<seq<real>>)
    ensures r.Err? <==> x == []
    ensures r.Ok? ==> |r.value| == |x|
    ensures r.Ok? && MinOf(x) == MaxOf(x) ==> forall i :: 0 <= i < |x| ==> r.value[i] == 0.0
    ensures r.Ok? && MinOf(x) != MaxOf(x) ==> forall i :: 0 <= i < |x| ==> r.value[i] == Scale01(x[i], MinOf(x), MaxOf(x))
  {
    if x == [] then Err("zero-size array to reduction operation minimum which has no identity")
    else
      var mn, mx := MinOf(x), MaxOf(x);
      if mx == mn then Ok(seq(|x|, i => 0.0))
      else Ok(seq(|x|, i requires 0 <= i < |x| => Scale01(x[i], mn, mx)))
  }

  /** One value's position between mn and mx. */
  function Scale01(v: real, mn: real, mx: real): real
    requires mn < mx
  {
    (v - mn) / (mx - mn)
  }

  /** A value between mn and mx scales into [0, 1], mn to 0 and mx to 1, and the scale keeps order. */
  lemma Scale01Unit(v: real, u: real, mn: real, mx: real)
    requires mn <= v <= mx && mn < mx
    ensures 0.0 <= Scale01(v, mn, mx) <= 1.0
    ensures v == mn ==> Scale01(v, mn, mx) == 0.0
    ensures v == mx ==> Scale01(v, mn, mx) == 1.0
    ensures v <= u ==> Scale01(v, mn, mx) <= Scale01(u, mn, mx)
  {
    var d := mx - mn;
    assert d * 0.0 == 0.0 && d * 1.0 == d;
    DivideBetween(v - mn, d, 0.0, 1.0);
    if v <= u {
      DivideMonotone(v - mn, u - mn, d);
    }
  }

  /** Scaled values lie in [0, 1], keep the order of the inputs, and a minimum maps to 0; a maximum of a non-constant array maps to 1. */
  lemma Normalize01Unit(x: seq<real>)
    requires x != []
    ensures var r := Normalize01(x).value;
            (forall i :: 0 <= i < |x| ==> 0.0 <= r[i] <= 1.0)
            && (forall i, j :: 0 <= i < |x| && 0 <= j < |x| && x[i] <= x[j] ==> r[i] <= r[j])
            && (forall i :: 0 <= i < |x| && x[i] == MinOf(x) ==> r[i] == 0.0)
            && (forall i :: 0 <= i < |x| && x[i] == MaxOf(x) && MinOf(x) != MaxOf(x) ==> r[i] == 1.0)
  {
    var r := Normalize01(x).value;
    var mn, mx := MinOf(x), MaxOf(x);
    if mx != mn {
      forall i, j | 0 <= i < |x| && 0 <= j < |x|
        ensures 0.0 <= r[i] <= 1.0
        ensures x[i] == mn ==> r[i] == 0.0
        ensures x[i] == mx ==> r[i] == 1.0
        ensures x[i] <= x[j] ==> r[i] <= r[j]
      {
        Scale01Unit(x[i], x[j], mn, mx);
      }
    }
  }

  lemma DivideMonotone(a: real, b: real, d: real)
    requires a <= b && d > 0.0
    ensures a / d <= b / d
  {
    assert b / d - a / d == (b - a) / d;
    assert (b - a) / d * d == b - a;
  }

  // ---------------------------------------------------------------------------
  // Change-of-ownership spike
  // ---------------------------------------------------------------------------

  /** Where a Python slice bound `m` cuts a sequence of length n. */
  function SliceBound(n: nat, m: int): (c: nat)
    ensures c <= n
    ensures 0 <= m <= n ==> c == m
  {
    if m < 0 then (if n + m > 0 then n + m else 0) else if m > n then n else m
  }

  /**
   * coo_spike_score: the relative rise of the mean volume after the change-of-ownership
   * month over the mean before it, 0 when the earlier mean is not positive. An empty
   * period's mean is NaN, which propagates (`None`).
   */
  function CooSpikeScore(series: seq<real>, cooM: int): (r: Option<real>)
    ensures var c := SliceBound(|series|, cooM);
            var pre, post := Mean(series[..c]), Mean(series[c..]);
            && (r.None? <==> pre.None? || (pre.value > 0.0 && post.None?))
            && (pre.Some? && pre.value <= 0.0 ==> r == Some(0.0))
            && (r.Some? && pre.value > 0.0 ==> post.value == pre.value * (1.0 + r.value))
            && (r.Some? ==> (r.value > 0.0 <==> pre.value > 0.0 && post.value > pre.value))
  {
    var c := SliceBound(|series|, cooM);
    var pre, post := Mean(series[..c]), Mean(series[c..]);
    if pre.None? then None
    else if pre.value <= 0.0 then Some(0.0)
    else if post.None? then None
    else
      var q := (post.value - pre.value) / pre.value;
      assert q * pre.value == post.value - pre.value;
      assert q > 0.0 <==> post.value > pre.value by { QuotientSign(post.value - pre.value, pre.value); }
      Some(q)
  }

  lemma QuotientSign(a: real, b: real)
    requires b > 0.0
    ensures a / b > 0.0 <==> a > 0.0
  {
    assert a / b * b == a;
    if a / b > 0.0 {
      assert a / b * b > 0.0;
    }
  }

  // ---------------------------------------------------------------------------
  // Risk scoring
  // ---------------------------------------------------------------------------

  /** The small constant `weighted_risk` adds to the weight total before dividing. */
  const Epsilon: real := 0.000000001

  function Value(kv: (string, real)): real { kv.1 }

  function Names(kvs: seq<(string, real)>): (r: seq<string>)
    ensures |r| == |kvs| && forall i :: 0 <= i < |kvs| ==> r[i] == kvs[i].0
  {
    seq(|kvs|, i requires 0 <= i < |kvs| => kvs[i].0)
  }

  /** The indicators clipped to [0, 1]. */
  function Clipped(ind: seq<(string, real)>): (r: seq<real>)
    ensures |r| == |ind| && forall i :: 0 <= i < |ind| ==> r[i] == Clip(ind[i].1, 0.0, 1.0)
  {
    seq(|ind|, i requires 0 <= i < |ind| => Clip(ind[i].1, 0.0, 1.0))
  }

  predicate Weighted(ind: seq<(string, real)>, weights: map<string, real>)
  {
    forall i :: 0 <= i < |ind| ==> ind[i].0 in weights
  }

  /** Each indicator's raw weight. */
  function WeightsOf(ind: seq<(string, real)>, weights: map<string, real>): (r: seq<real>)
    requires Weighted(ind, weights)
    ensures |r| == |ind| && forall i :: 0 <= i < |ind| ==> r[i] == weights[ind[i].0]
  {
    seq(|ind|, i requires 0 <= i < |ind| => weights[ind[i].0])
  }

  /** The contributions `x * w`, position by position. */
  function Products(x: seq<real>, w: seq<real>): (r: seq<real>)
    requires |x| == |w|
    ensures |r| == |x| && forall i :: 0 <= i < |x| ==> r[i] == x[i] * w[i]
  {
    seq(|x|, i requires 0 <= i < |x| => x[i] * w[i])
  }

  /** The products add up to the dot product. */
  lemma {:induction false} SumProducts(x: seq<real>, w: seq<real>)
    requires |x| == |w|
    ensures Sum(Products(x, w)) == Dot(x, w)
    decreases |x|
  {
    if x != [] {
      var n := |x| - 1;
      var c := Products(x, w);
      var c' := Products(x[..n], w[..n]);
      assert forall j :: 0 <= j < n ==> c'[j] == x[..n][j] * w[..n][j] == c[j];
      assert c[..n] == c';
      SumProducts(x[..n], w[..n]);
    }
  }

  datatype Risk = Risk(score: real, contributions: seq<(string, real)>)

  /** The normalised weights: each raw weight over the weight total plus Epsilon. */
  function NormalizedWeights(ind: seq<(string, real)>, weights: map<string, real>): (r: seq<real>)
    requires Weighted(ind, weights) && Sum(WeightsOf(ind, weights)) + Epsilon != 0.0
    ensures |r| == |ind|
  {
    Normalize(WeightsOf(ind, weights), Sum(WeightsOf(ind, weights)) + Epsilon)
  }

  /**
   * weighted_risk: a missing weight raises `KeyError`; a weight total of exactly
   * -Epsilon divides by zero (NaN). Otherwise each indicator, clipped to [0, 1],
   * contributes its normalised weight times its value, and the score is their sum.
   */
  function WeightedRisk(ind: seq<(string, real)>, weights: map<string, real>): (r: Result<Risk>)
    ensures r.Err? <==> !Weighted(ind, weights) || Sum(WeightsOf(ind, weights)) + Epsilon == 0.0
    ensures r.Ok? ==> var wn := NormalizedWeights(ind, weights);
            && r.value.contributions == Labelled(ind, Products(Clipped(ind), wn))
            && r.value.score == Dot(Clipped(ind), wn)
  {
    if !Weighted(ind, weights) then Err("KeyError")
    else if Sum(WeightsOf(ind, weights)) + Epsilon == 0.0 then Err("nan")
    else
      var wn := NormalizedWeights(ind, weights);
      var c := Products(Clipped(ind), wn);
      SumProducts(Clipped(ind), wn);
      Ok(Risk(Sum(c), Labelled(ind, c)))
  }

  /** Each indicator's name with the matching value. */
  function Labelled(ind: seq<(string, real)>, c: seq<real>): (r: seq<(string, real)>)
    requires |c| == |ind|
    ensures |r| == |ind| && forall i :: 0 <= i < |ind| ==> r[i] == (ind[i].0, c[i])
  {
    seq(|ind|, i requires 0 <= i < |ind| => (ind[i].0, c[i]))
  }

  /** With non-negative weights the normalised weights are non-negative and add up to less than 1. */
  lemma NormalizedWeightsBounds(ind: seq<(string, real)>, weights: map<string, real>)
    requires Weighted(ind, weights)
    requires forall i :: 0 <= i < |ind| ==> weights[ind[i].0] >= 0.0
    ensures Sum(WeightsOf(ind, weights)) + Epsilon > 0.0
    ensures var wn := NormalizedWeights(ind, weights);
            (forall i :: 0 <= i < |wn| ==> wn[i] >= 0.0) && 0.0 <= Sum(wn) < 1.0
  {
    var w := WeightsOf(ind, weights);
    SumNonNegative(w);
    var d := Sum(w) + Epsilon;
    var wn := NormalizedWeights(ind, weights);
    forall i | 0 <= i < |wn| ensures wn[i] >= 0.0 {
      QuotientNonNegative(w[i], d);
    }
    SumNormalize(w, d);
    BelowOne(Sum(w), d);
  }

  /**
   * With non-negative weights every contribution lies between 0 and its normalised
   * weight, and the score lies in [0, 1).
   */
  lemma RiskBounds(ind: seq<(string, real)>, weights: map<string, real>)
    requires Weighted(ind, weights)
    requires forall i :: 0 <= i < |ind| ==> weights[ind[i].0] >= 0.0
    ensures var r := WeightedRisk(ind, weights);
            && r.Ok?
            && 0.0 <= r.value.score < 1.0
            && forall i :: 0 <= i < |ind| ==> 0.0 <= r.value.contributions[i].1 <= NormalizedWeights(ind, weights)[i]
  {
    NormalizedWeightsBounds(ind, weights);
    var wn := NormalizedWeights(ind, weights);
    var x := Clipped(ind);
    assert forall i :: 0 <= i < |x| ==> 0.0 <= x[i] <= 1.0;
    WeightedInUnit(x, wn);
    ProductsBelow(x, wn);
    var r := WeightedRisk(ind, weights);
    assert r.Ok?;
    var c := Products(x, wn);
    assert r.value.contributions == Labelled(ind, c);
    forall i | 0 <= i < |ind|
      ensures 0.0 <= r.value.contributions[i].1 <= wn[i]
    {
      assert r.value.contributions[i] == (ind[i].0, c[i]);
    }
  }

  /** Values in [0, 1] weighted by non-negative weights adding up to less than 1 give a score in [0, 1). */
  lemma WeightedInUnit(x: seq<real>, w: seq<real>)
    requires |x| == |w|
    requires forall i :: 0 <= i < |x| ==> 0.0 <= x[i] <= 1.0 && w[i] >= 0.0
    requires 0.0 <= Sum(w) < 1.0
    ensures 0.0 <= Dot(x, w) < 1.0
  {
    DotAtLeast(x, w, 0.0);
    DotAtMost(x, w, 1.0);
  }

  lemma ProductsBelow(x: seq<real>, w: seq<real>)
    requires |x| == |w|
    requires forall i :: 0 <= i < |x| ==> 0.0 <= x[i] <= 1.0 && w[i] >= 0.0
    ensures forall i :: 0 <= i < |x| ==> 0.0 <= Products(x, w)[i] <= w[i]
  {
    var c := Products(x, w);
    forall i | 0 <= i < |x|
      ensures 0.0 <= c[i] <= w[i]
    {
      ProductBelow(x[i], w[i], c[i]);
    }
  }

  lemma QuotientNonNegative(a: real, d: real)
    requires a >= 0.0 && d > 0.0
    ensures a / d >= 0.0
  {
    assert d * 0.0 == 0.0;
    DivideBetween(a, d, 0.0, a / d);
  }

  lemma ProductBelow(x: real, w: real, p: real)
    requires 0.0 <= x <= 1.0 && w >= 0.0 && p == x * w
    ensures 0.0 <= p <= w
  {
    MulMonotone(x, 0.0, w);
    MulMonotone(w, x, 1.0);
  }

  lemma BelowOne(a: real, d: real)
    requires 0.0 <= a < d
    ensures 0.0 <= a / d < 1.0
  {
    assert d * 0.0 == 0.0 && d * 1.0 == d;
    DivideBetween(a, d, 0.0, 1.0);
    assert a / d * d == a;
  }

  /** The card's overall risk: `int(round(100 * clip(score, 0, 1)))`, a whole percentage. */
  function RiskPercent(score: real): (r: int)
    ensures 0 <= r <= 100
    ensures var p := 100.0 * Clip(score, 0.0, 1.0); p - 0.5 <= r as real <= p + 0.5
  {
    RoundHalfEven(100.0 * Clip(score, 0.0, 1.0))
  }

  /** An indicator name as the card shows it: underscores become spaces. */
  function Spaced(s: string): (r: string)
    ensures |r| == |s| && Lacks(r, '_')
    ensures forall i :: 0 <= i < |s| && s[i] != '_' ==> r[i] == s[i]
  {
    seq(|s|, i requires 0 <= i < |s| => if s[i] == '_' then ' ' else s[i])
  }

  /** "Why we surfaced this": the four largest contributions, largest first, by name. */
  function TopWhy(contribs: seq<(string, real)>): (r: seq<string>)
    ensures |r| == if |contribs| < 4 then |contribs| else 4
    ensures var s := Sorting.SortDesc(contribs, Value);
            forall i :: 0 <= i < |r| ==> r[i] == Spaced(s[i].0)
  {
    var s := Sorting.SortDesc(contribs, Value);
    var n := if |s| < 4 then |s| else 4;
    seq(n, i requires 0 <= i < n => Spaced(s[i].0))
  }

  /** A reason listed on the card contributes at least as much as any reason left off. */
  lemma TopWhyDominates(contribs: seq<(string, real)>, x: (string, real), y: (string, real))
    requires var s := Sorting.SortDesc(contribs, Value);
             x in s[..|TopWhy(contribs)|] && y in s[|TopWhy(contribs)|..]
    ensures x.1 >= y.1
  {
    var s := Sorting.SortDesc(contribs, Value);
    Sorting.TopDominates(s, Value, |TopWhy(contribs)|, x, y);
  }

  // ---------------------------------------------------------------------------
  // Benign explanations
  // ---------------------------------------------------------------------------

  /** The catalog explanations of the names, in order, each once. */
  function Explanations(names: seq<string>): (r: seq<string>)
    ensures |r| <= |names|
    ensures forall i, j :: 0 <= i < j < |r| ==> r[i] != r[j]
    ensures forall e :: e in r <==> exists n :: n in names && n in BenignExplanations && BenignExplanations[n] == e
  {
    if names == [] then []
    else
      var init := names[..|names| - 1];
      var n := names[|names| - 1];
      var e := Explanations(init);
      assert forall m :: m in names <==> m in init || m == n;
      if n in BenignExplanations && BenignExplanations[n] !in e then e + [BenignExplanations[n]] else e
  }

  /** The explanations of a prefix of the names are a prefix of the explanations. */
  lemma {:induction false} ExplanationsPrefix(names: seq<string>, m: nat)
    requires m <= |names|
    ensures Explanations(names[..m]) <= Explanations(names)
    decreases |names| - m
  {
    if m < |names| {
      var n := |names|;
      assert names[..n - 1][..m] == names[..m];
      ExplanationsPrefix(names[..n - 1], m);
      assert names[..n] == names;
    } else {
      assert names[..m] == names;
    }
  }

  /** Picking up to k explanations, k >= 1, keeps the first k; for k <= 0 the first name alone decides. */
  function Chosen(names: seq<string>, k: int): (r: seq<string>)
  {
    var e := Explanations(names);
    if k >= 1 then e[..if |e| < k then |e| else k]
    else Explanations(names[..if |names| < 1 then |names| else 1])
  }

  /** At most k explanations (one for k <= 0), no duplicates, each the catalog explanation of some indicator. */
  lemma ChosenBounded(names: seq<string>, k: int)
    ensures var r := Chosen(names, k);
            && |r| <= (if k >= 1 then k else 1)
            && (forall i, j :: 0 <= i < j < |r| ==> r[i] != r[j])
            && (forall e :: e in r ==> exists n :: n in names && n in BenignExplanations && BenignExplanations[n] == e)
  {
    var r := Chosen(names, k);
    var e := Explanations(names);
    if k >= 1 {
      assert r <= e;
      assert forall x :: x in r ==> x in e;
    } else {
      var m := if |names| < 1 then |names| else 1;
      forall x | x in r ensures exists n :: n in names && n in BenignExplanations && BenignExplanations[n] == x {
        var n :| n in names[..m] && n in BenignExplanations && BenignExplanations[n] == x;
      }
    }
  }

  /**
   * Explanations enter in rank order: if the indicator ranked q is the first to
   * bring its explanation, the explanation of any catalog indicator ranked above it
   * comes earlier in the list.
   */
  lemma ExplanationsInRankOrder(names: seq<string>, p: nat, q: nat) returns (i: nat, j: nat)
    requires p < q < |names| && names[p] in BenignExplanations && names[q] in BenignExplanations
    requires BenignExplanations[names[q]] !in Explanations(names[..q])
    ensures var e := Explanations(names);
            i < j < |e| && e[i] == BenignExplanations[names[p]] && e[j] == BenignExplanations[names[q]]
            && j == |Explanations(names[..q])|
  {
    var e := Explanations(names);
    var bp, bq := BenignExplanations[names[p]], BenignExplanations[names[q]];
    var before := Explanations(names[..q]);
    ExplanationsPrefix(names, q + 1);
    assert names[..q + 1][..q] == names[..q];
    assert names[..q + 1][q] == names[q];
    assert Explanations(names[..q + 1]) == before + [bq];
    assert names[p] in names[..q] && BenignExplanations[names[p]] == bp;
    assert bp in before;
    i :| 0 <= i < |before| && before[i] == bp;
    j := |before|;
  }

  /** A chosen explanation never skips a higher-ranked catalog indicator's explanation. */
  lemma ChosenInRankOrder(names: seq<string>, k: int, p: nat, q: nat)
    requires k >= 1
    requires p < q < |names| && names[p] in BenignExplanations && names[q] in BenignExplanations
    requires BenignExplanations[names[q]] !in Explanations(names[..q])
    requires BenignExplanations[names[q]] in Chosen(names, k)
    ensures exists i, j :: 0 <= i < j < |Chosen(names, k)|
              && Chosen(names, k)[i] == BenignExplanations[names[p]] && Chosen(names, k)[j] == BenignExplanations[names[q]]
  {
    var r := Chosen(names, k);
    var e := Explanations(names);
    var i, j := ExplanationsInRankOrder(names, p, q);
    var j' :| 0 <= j' < |r| && r[j'] == e[j];
    assert r <= e;
    assert e[j'] == e[j];
    assert j' == j;
    assert r[i] == e[i];
  }

  /** One more name adds its catalog explanation, unless there is none or it was already picked. */
  lemma ExplanationsStep(names: seq<string>, i: nat)
    requires i < |names|
    ensures var e, n := Explanations(names[..i]), names[i];
            Explanations(names[..i + 1])
              == if n in BenignExplanations && BenignExplanations[n] !in e then e + [BenignExplanations[n]] else e
  {
    assert names[..i + 1][..i] == names[..i];
  }

  /**
   * The loop of pick_benign_explanations over the ranked names: add each one's
   * catalog explanation not yet picked, and stop as soon as k have been picked.
   */
  method PickInOrder(names: seq<string>, k: int) returns (picks: seq<string>)
    ensures picks == Chosen(names, k)
  {
    picks := [];
    var i := 0;
    while i < |names|
      invariant 0 <= i <= |names|
      invariant picks == Explanations(names[..i])
      invariant i > 0 ==> |picks| < k
    {
      var name := names[i];
      ExplanationsStep(names, i);
      if name in BenignExplanations && BenignExplanations[name] !in picks {
        picks := picks + [BenignExplanations[name]];
      }
      i := i + 1;
      if |picks| >= k {
        ChosenAtStop(names, k, i);
        break;
      }
    }
    if i == |names| {
      assert names[..i] == names;
    }
  }

  /**
   * pick_benign_explanations: ranks the indicators from highest to lowest (ties in
   * their original order) and picks at most k explanations in that order.
   */
  method PickBenignExplanations(indicators: seq<(string, real)>, k: int) returns (picks: seq<string>)
    ensures picks == Chosen(Names(Sorting.SortDesc(indicators, Value)), k)
  {
    var top := Sorting.SortDesc(indicators, Value);
    picks := PickInOrder(Names(top), k);
  }

  /** Stopping after i names with at least k picks, having had fewer before, leaves exactly the chosen explanations. */
  lemma ChosenAtStop(names: seq<string>, k: int, i: nat)
    requires 0 < i <= |names|
    requires |Explanations(names[..i])| >= k
    requires i > 1 ==> |Explanations(names[..i - 1])| < k
    ensures Explanations(names[..i]) == Chosen(names, k)
  {
    var e := Explanations(names);
    var pi := Explanations(names[..i]);
    ExplanationsPrefix(names, i);
    if k >= 1 {
      assert names[..i][..i - 1] == names[..i - 1];
      assert |pi| <= |Explanations(names[..i - 1])| + 1;
      assert |pi| == k;
    } else {
      ExplanationsPrefix(names, 1);
      if i > 1 {
        assert false;
      }
    }
  }

  // ---------------------------------------------------------------------------
  // Ring roster
  // ---------------------------------------------------------------------------

  /** One labelled row of a signal frame: the row's entity and its (column entity, intensity) entries. */
  datatype FrameRow = FrameRow(entity: string, entries: seq<(string, real)>)

  /** `df.loc[eid]`: the row labelled eid, or none (`KeyError`). */
  function LocRow(rows: seq<FrameRow>, eid: string): (r: Option<seq<(string, real)>>)
    ensures r.None? <==> forall i :: 0 <= i < |rows| ==> rows[i].entity != eid
    ensures r.Some? ==> exists i :: 0 <= i < |rows| && rows[i].entity == eid && rows[i].entries == r.value
  {
    if rows == [] then None
    else if rows[0].entity == eid then Some(rows[0].entries)
    else
      var r := LocRow(rows[1..], eid);
      assert r.Some? ==> exists i :: 0 <= i < |rows[1..]| && rows[1..][i].entity == eid && rows[1..][i].entries == r.value;
      r
  }

  /** `int((s.drop(eid) > 0).sum())`: the positive entries toward entities other than eid. */
  function LinkCount(s: seq<(string, real)>, eid: string): (n: nat)
    ensures n <= |s|
    ensures (exists j :: 0 <= j < |s| && s[j].0 == eid) ==> n < |s|
    ensures n == 0 <==> forall j :: 0 <= j < |s| && s[j].0 != eid ==> s[j].1 <= 0.0
  {
    if s == [] then 0
    else
      var rest := LinkCount(s[..|s| - 1], eid);
      var last := s[|s| - 1];
      assert forall j :: 0 <= j < |s| - 1 ==> s[..|s| - 1][j] == s[j];
      rest + (if last.0 != eid && last.1 > 0.0 then 1 else 0)
  }

  /** The entity's own column never counts: rows that agree off that column have the same count. */
  lemma {:induction false} LinkCountIgnoresSelf(s: seq<(string, real)>, t: seq<(string, real)>, eid: string)
    requires |s| == |t|
    requires forall j :: 0 <= j < |s| ==> s[j].0 == t[j].0 && (s[j].0 != eid ==> s[j].1 == t[j].1)
    ensures LinkCount(s, eid) == LinkCount(t, eid)
  {
    if s != [] {
      LinkCountIgnoresSelf(s[..|s| - 1], t[..|t| - 1], eid);
    }
  }

  /** The roster cell "<n> links". */
  function LinksText(n: nat): (r: string)
  {
    NatStr(n) + " links"
  }

  /** Reading a roster cell back. */
  function ParseLinks(t: string): Option<nat>
  {
    if |t| >= 6 && t[|t| - 6..] == " links" then ParseNat(t[..|t| - 6]) else None
  }

  lemma LinksTextRoundTrip(n: nat)
    ensures ParseLinks(LinksText(n)) == Some(n)
  {
    var t := LinksText(n);
    assert t[..|t| - 6] == NatStr(n);
    assert t[|t| - 6..] == " links";
    ParseNatStr(n);
  }

  /**
   * The row summarize_entity builds: for each signal, the entity's link count as
   * "<n> links"; an entity missing from a signal's frame raises `KeyError`.
   */
  function EntitySummary(mats: seq<(string, seq<FrameRow>)>, eid: string): (r: Result<seq<(string, string)>>)
    ensures r.Err? <==> exists m :: 0 <= m < |mats| && LocRow(mats[m].1, eid).None?
    ensures r.Ok? ==> |r.value| == |mats| && forall m :: 0 <= m < |mats| ==>
              r.value[m].0 == mats[m].0
              && ParseLinks(r.value[m].1) == Some(LinkCount(LocRow(mats[m].1, eid).value, eid))
  {
    if exists m :: 0 <= m < |mats| && LocRow(mats[m].1, eid).None? then Err("KeyError")
    else
      assert forall n: nat :: ParseLinks(LinksText(n)) == Some(n) by {
        forall n: nat ensures ParseLinks(LinksText(n)) == Some(n) { LinksTextRoundTrip(n); }
      }
      Ok(seq(|mats|, m requires 0 <= m < |mats| => (mats[m].0, LinksText(LinkCount(LocRow(mats[m].1, eid).value, eid)))))
  }

  /** summarize_entity: the loop over the signals. */
  method SummarizeEntity(mats: seq<(string, seq<FrameRow>)>, eid: string) returns (r: Result<seq<(string, string)>>)
    ensures r == EntitySummary(mats, eid)
  {
    var cells: seq<(string, string)> := [];
    for m := 0 to |mats|
      invariant |cells| == m
      invariant forall j :: 0 <= j < m ==>
                  LocRow(mats[j].1, eid).Some? && cells[j] == (mats[j].0, LinksText(LinkCount(LocRow(mats[j].1, eid).value, eid)))
    {
      var (sig, rows) := mats[m];
      match LocRow(rows, eid)
      case None =>
        return Err("KeyError");
      case Some(row) =>
        cells := cells + [(sig, LinksText(LinkCount(row, eid)))];
    }
    r := Ok(cells);
    assert cells == EntitySummary(mats, eid).value;
  }
}
