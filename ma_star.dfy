// Medicare Advantage star ratings by geography: the demo's rating
// trajectories, enrollment-weighted county and state ratings, quality
// deserts, state trends over the years and the county FIPS codes.
module MaStarRatings {
  import opened Common
  import Sorting

  /** A county is a quality desert when its average rating is below this... */
  const QualityDesertThreshold: real := 3.5
  /** ...or when fewer plans than this are available. */
  const LowAccessThreshold: int := 2

  // ---------------------------------------------------------------------------
  // Rating trajectories of the demo data
  // ---------------------------------------------------------------------------

  datatype Trend = Improve | Decline | Stable

  /** `round(rating * 2) / 2`: the nearest half star, ties to an even number of half stars. */
  function RoundHalfStar(x: real): real
  {
    RoundHalfEven(x * 2.0) as real / 2.0
  }

  /** A whole number of half stars. */
  predicate IsHalfStar(x: real) { (x * 2.0).Floor as real == x * 2.0 }

  /**
   * A contract's rating in year `yearIdx` of the window: improving plans gain
   * 0.15 a year up to one star and at most 5.0, declining plans lose 0.08 a year
   * up to half a star and at least 2.0, stable plans get `jitter` (drawn from
   * [-0.1, 0.1]) clipped to [2.0, 5.0]; then the rating is rounded to a half star.
   */
  function Trajectory(trend: Trend, base: real, yearIdx: nat, jitter: real): real
  {
    var raw := match trend
      case Improve => Min(base + Min(0.15 * yearIdx as real, 1.0), 5.0)
      case Decline => Max(base - Min(0.08 * yearIdx as real, 0.5), 2.0)
      case Stable => Clip(base + jitter, 2.0, 5.0);
    RoundHalfStar(raw)
  }

  /** A value strictly within half of an integer rounds to it. */
  lemma RoundsTo(y: real, k: int)
    requires k as real - 0.5 < y < k as real + 0.5
    ensures RoundHalfEven(y) == k
  {
  }

  lemma HalfStarTwice(x: real)
    requires IsHalfStar(x)
    ensures x * 2.0 == (x * 2.0).Floor as real
  {
  }

  /** Rounding a rating in [2, 5] gives a half star in [2, 5]. */
  lemma RoundHalfStarBetween(x: real)
    requires 2.0 <= x <= 5.0
    ensures 2.0 <= RoundHalfStar(x) <= 5.0 && IsHalfStar(RoundHalfStar(x))
  {
    var n := RoundHalfEven(x * 2.0);
    assert 4 <= n <= 10;
    var r := n as real / 2.0;
    assert r * 2.0 == n as real;
  }

  /** Every trajectory from a base rating in [2, 5] stays in [2, 5] on the half-star grid. */
  lemma TrajectoryInRange(trend: Trend, base: real, yearIdx: nat, jitter: real)
    requires 2.0 <= base <= 5.0
    ensures 2.0 <= Trajectory(trend, base, yearIdx, jitter) <= 5.0
    ensures IsHalfStar(Trajectory(trend, base, yearIdx, jitter))
  {
    var raw := match trend
      case Improve => Min(base + Min(0.15 * yearIdx as real, 1.0), 5.0)
      case Decline => Max(base - Min(0.08 * yearIdx as real, 0.5), 2.0)
      case Stable => Clip(base + jitter, 2.0, 5.0);
    assert 2.0 <= raw <= 5.0;
    RoundHalfStarBetween(raw);
  }

  /** A half star moved by less than a quarter star rounds back to itself. */
  lemma NearHalfStarRoundsBack(base: real, raw: real)
    requires IsHalfStar(base) && base - 0.25 < raw < base + 0.25
    ensures RoundHalfStar(raw) == base
  {
    HalfStarTwice(base);
    var k := (base * 2.0).Floor;
    RoundsTo(raw * 2.0, k);
  }

  /** A stable plan keeps its base rating every year: the jitter never survives the rounding. */
  lemma StableKeepsBase(base: real, yearIdx: nat, jitter: real)
    requires 2.0 <= base <= 5.0 && IsHalfStar(base) && -0.1 <= jitter <= 0.1
    ensures Trajectory(Trend.Stable, base, yearIdx, jitter) == base
  {
    var raw := Clip(base + jitter, 2.0, 5.0);
    assert base - 0.1 <= raw <= base + 0.1;
    NearHalfStarRoundsBack(base, raw);
  }

  /**
   * Over the five years 2020-2024 an improving plan rates its base in the first
   * two years and half a star more (at most 5.0) from the third year on.
   */
  lemma ImproveSchedule(base: real, yearIdx: nat, jitter: real)
    requires 2.0 <= base <= 5.0 && IsHalfStar(base) && yearIdx <= 4
    ensures Trajectory(Improve, base, yearIdx, jitter) == if yearIdx <= 1 then base else Min(base + 0.5, 5.0)
  {
    var raw := Min(base + Min(0.15 * yearIdx as real, 1.0), 5.0);
    if yearIdx <= 1 {
      NearHalfStarRoundsBack(base, raw);
    } else if base == 5.0 {
      NearHalfStarRoundsBack(5.0, raw);
    } else {
      HalfStarTwice(base);
      assert base <= 4.5 by {
        assert (base * 2.0).Floor <= 9;
      }
      assert IsHalfStar(base + 0.5) by {
        assert (base + 0.5) * 2.0 == ((base * 2.0).Floor + 1) as real;
      }
      NearHalfStarRoundsBack(base + 0.5, raw);
    }
  }

  /**
   * Over the same five years a declining plan rates its base in the first four
   * years and half a star less (at least 2.0) in the fifth.
   */
  lemma DeclineSchedule(base: real, yearIdx: nat, jitter: real)
    requires 2.0 <= base <= 5.0 && IsHalfStar(base) && yearIdx <= 4
    ensures Trajectory(Decline, base, yearIdx, jitter) == if yearIdx <= 3 then base else Max(base - 0.5, 2.0)
  {
    var raw := Max(base - Min(0.08 * yearIdx as real, 0.5), 2.0);
    if yearIdx <= 3 {
      NearHalfStarRoundsBack(base, raw);
    } else if base == 2.0 {
      NearHalfStarRoundsBack(2.0, raw);
    } else {
      HalfStarTwice(base);
      assert base >= 2.5 by {
        assert (base * 2.0).Floor >= 5;
      }
      assert IsHalfStar(base - 0.5) by {
        assert (base - 0.5) * 2.0 == ((base * 2.0).Floor - 1) as real;
      }
      NearHalfStarRoundsBack(base - 0.5, raw);
    }
  }

  // ---------------------------------------------------------------------------
  // Enrollment-weighted county ratings and quality deserts
  // ---------------------------------------------------------------------------

  /** One enrollment row: a contract's enrollment in one county. */
  datatype Enrollment = Enrollment(year: int, contractId: string, countyFips: string, state: string, countyName: string, enrollment: int)

  /** One star-rating row: a contract's overall rating, possibly missing. */
  datatype Rating = Rating(year: int, contractId: string, rating: Option<real>)

  /** A merged row that kept its rating. */
  datatype RatedRow = RatedRow(contractId: string, countyFips: string, state: string, countyName: string, enrollment: int, rating: real)

  /** The merged row of an enrollment row and a rating row of the same contract, unless the rating is missing. */
  function Pair(e: Enrollment, r: Rating): Option<RatedRow>
  {
    if e.contractId == r.contractId && r.rating.Some? then
      Some(RatedRow(e.contractId, e.countyFips, e.state, e.countyName, e.enrollment, r.rating.value))
    else None
  }

  /** `enrollment.merge(ratings, on="contract_id", how="left").dropna(subset=["overall_rating"])`. */
  function MergeRated(enrollment: seq<Enrollment>, ratings: seq<Rating>): seq<RatedRow>
  {
    if enrollment == [] then []
    else MergeRated(enrollment[..|enrollment| - 1], ratings)
         + Collect(ratings, (r: Rating) => Pair(enrollment[|enrollment| - 1], r))
  }

  /** A merged row comes from a rated contract's enrollment row, and every such pair gives one. */
  lemma {:induction false} MergeRatedMembers(enrollment: seq<Enrollment>, ratings: seq<Rating>, m: RatedRow)
    ensures m in MergeRated(enrollment, ratings) <==>
              exists i, j :: 0 <= i < |enrollment| && 0 <= j < |ratings| && Pair(enrollment[i], ratings[j]) == Some(m)
    decreases |enrollment|
  {
    if enrollment != [] {
      var n := |enrollment| - 1;
      var init := enrollment[..n];
      var f := (r: Rating) => Pair(enrollment[n], r);
      MergeRatedMembers(init, ratings, m);
      CollectMembers(ratings, f, m);
      if i, j :| 0 <= i < n && 0 <= j < |ratings| && Pair(init[i], ratings[j]) == Some(m) {
        assert enrollment[i] == init[i];
      }
      if i, j :| 0 <= i < |enrollment| && 0 <= j < |ratings| && Pair(enrollment[i], ratings[j]) == Some(m) {
        if i < n {
          assert init[i] == enrollment[i];
        } else {
          assert f(ratings[j]) == Some(m);
        }
      }
    }
  }

  /** The merged rows keep the enrollment row's contract and carry a present rating of that contract. */
  lemma MergedRowsAreRated(enrollment: seq<Enrollment>, ratings: seq<Rating>, m: RatedRow)
    requires m in MergeRated(enrollment, ratings)
    ensures exists j :: 0 <= j < |ratings| && ratings[j].contractId == m.contractId && ratings[j].rating == Some(m.rating)
  {
    MergeRatedMembers(enrollment, ratings, m);
    var i, j :| 0 <= i < |enrollment| && 0 <= j < |ratings| && Pair(enrollment[i], ratings[j]) == Some(m);
  }

  function Ratings(rows: seq<RatedRow>): (v: seq<real>)
    ensures |v| == |rows| && forall i :: 0 <= i < |rows| ==> v[i] == rows[i].rating
  {
    if rows == [] then [] else Ratings(rows[..|rows| - 1]) + [rows[|rows| - 1].rating]
  }

  function Weights(rows: seq<RatedRow>): (v: seq<real>)
    ensures |v| == |rows| && forall i :: 0 <= i < |rows| ==> v[i] == rows[i].enrollment as real
  {
    if rows == [] then [] else Weights(rows[..|rows| - 1]) + [rows[|rows| - 1].enrollment as real]
  }

  /** 1 for a row rated 4 stars or more, else 0: the enrollment in such plans is `Dot(FourPlus(rows), Weights(rows))`. */
  function FourPlus(rows: seq<RatedRow>): (v: seq<real>)
    ensures |v| == |rows| && forall i :: 0 <= i < |rows| ==> v[i] == if rows[i].rating >= 4.0 then 1.0 else 0.0
  {
    if rows == [] then []
    else FourPlus(rows[..|rows| - 1]) + [if rows[|rows| - 1].rating >= 4.0 then 1.0 else 0.0]
  }

  /** `np.average(values, weights=weights)`, which raises `ZeroDivisionError` when the weights sum to zero. */
  function Average(values: seq<real>, weights: seq<real>): (r: Result<real>)
    requires |values| == |weights|
    ensures r.Err? <==> Sum(weights) == 0.0
  {
    if Sum(weights) == 0.0 then Err("ZeroDivisionError: Weights sum to zero, can't be normalized")
    else Ok(Dot(values, weights) / Sum(weights))
  }

  /** With non-negative weights an average lies between the least and the greatest value. */
  lemma AverageBetween(values: seq<real>, weights: seq<real>)
    requires |values| == |weights| && values != []
    requires forall i :: 0 <= i < |weights| ==> weights[i] >= 0.0
    ensures Average(values, weights).Ok? ==>
              MinOf(values) <= Average(values, weights).value <= MaxOf(values)
  {
    if Sum(weights) != 0.0 {
      SumNonNegative(weights);
      WeightedMeanBetween(values, weights, MinOf(values), MaxOf(values));
    }
  }

  function ContractIds(rows: seq<RatedRow>): (v: seq<string>)
    ensures |v| == |rows| && forall i :: 0 <= i < |rows| ==> v[i] == rows[i].contractId
  {
    if rows == [] then [] else ContractIds(rows[..|rows| - 1]) + [rows[|rows| - 1].contractId]
  }

  /** `nunique()` of the contract ids. */
  function NumPlans(rows: seq<RatedRow>): nat
  {
    |Unique(ContractIds(rows))|
  }

  /** A county's statistics (`county_stats`). */
  datatype County = County(fips: string, avgRating: real, totalEnrollment: real, numPlans: nat,
                           maxRating: real, minRating: real, state: string, name: string,
                           pct4Plus: real, isQualityDesert: bool)

  /** A county is a quality desert when its average rating is below 3.5 or it has fewer than two plans. */
  predicate IsQualityDesert(avgRating: real, numPlans: int)
  {
    avgRating < QualityDesertThreshold || numPlans < LowAccessThreshold
  }

  /** The statistics of one county's merged rows; the weighted average raises on a zero enrollment. */
  function CountyOf(fips: string, rows: seq<RatedRow>): (r: Result<County>)
    ensures r.Err? <==> Sum(Weights(rows)) == 0.0
    ensures r.Ok? ==> rows != [] && r.value.fips == fips && r.value.state == rows[0].state && r.value.name == rows[0].countyName
    ensures r.Ok? ==> Classified(r.value)
  {
    match Average(Ratings(rows), Weights(rows))
    case Err(e) => Err(e)
    case Ok(avg) =>
      var total := Sum(Weights(rows));
      var plans := NumPlans(rows);
      Ok(County(fips, avg, total, plans, MaxOf(Ratings(rows)), MinOf(Ratings(rows)),
                rows[0].state, rows[0].countyName,
                Dot(FourPlus(rows), Weights(rows)) / total * 100.0,
                IsQualityDesert(avg, plans)))
  }

  /** With non-negative enrollments the county's rating lies between its lowest and highest plan rating, and its 4+ share is a percentage. */
  lemma CountyBounds(fips: string, rows: seq<RatedRow>)
    requires rows != [] && forall i :: 0 <= i < |rows| ==> rows[i].enrollment >= 0
    ensures var c := CountyOf(fips, rows);
            c.Ok? ==> c.value.minRating <= c.value.avgRating <= c.value.maxRating
                      && 0.0 <= c.value.pct4Plus <= 100.0
  {
    var w := Weights(rows);
    AverageBetween(Ratings(rows), w);
    if Sum(w) != 0.0 {
      SumNonNegative(w);
      WeightedMeanBetween(FourPlus(rows), w, 0.0, 1.0);
      var share := Dot(FourPlus(rows), w) / Sum(w);
      assert 0.0 <= share * 100.0 <= 100.0;
    }
  }

  /** Every plan rated 3.5 or more and at least two contracts: not a quality desert. */
  lemma WellServedCountyIsNoDesert(fips: string, rows: seq<RatedRow>, i: nat, j: nat)
    requires rows != [] && forall k :: 0 <= k < |rows| ==> rows[k].enrollment >= 0 && rows[k].rating >= 3.5
    requires i < |rows| && j < |rows| && rows[i].contractId != rows[j].contractId
    ensures CountyOf(fips, rows).Ok? ==> !CountyOf(fips, rows).value.isQualityDesert
  {
    CountyBounds(fips, rows);
    var ids := ContractIds(rows);
    var u := Unique(ids);
    assert ids[i] in u && ids[j] in u;
    TwoDistinct(u, ids[i], ids[j]);
  }

  lemma TwoDistinct(u: seq<string>, a: string, b: string)
    requires a in u && b in u && a != b
    ensures |u| >= 2
  {
  }

  /** Every plan rated below 3.5: a quality desert. */
  lemma PoorlyRatedCountyIsDesert(fips: string, rows: seq<RatedRow>)
    requires rows != [] && forall k :: 0 <= k < |rows| ==> rows[k].enrollment >= 0 && rows[k].rating < 3.5
    ensures CountyOf(fips, rows).Ok? ==> CountyOf(fips, rows).value.isQualityDesert
  {
    CountyBounds(fips, rows);
    var v := Ratings(rows);
    assert MaxOf(v) in v;
  }

  /** A county served by one contract only: a quality desert, whatever its rating. */
  lemma SingleContractIsDesert(fips: string, rows: seq<RatedRow>)
    requires rows != [] && forall k :: 0 <= k < |rows| ==> rows[k].contractId == rows[0].contractId
    ensures CountyOf(fips, rows).Ok? ==> CountyOf(fips, rows).value.isQualityDesert
  {
    var ids := ContractIds(rows);
    UniqueOfOne(ids, rows[0].contractId);
  }

  lemma {:induction false} UniqueOfOne(s: seq<string>, x: string)
    requires forall i :: 0 <= i < |s| ==> s[i] == x
    ensures Unique(s) == if s == [] then [] else [x]
    decreases |s|
  {
    if s != [] {
      UniqueOfOne(s[..|s| - 1], x);
    }
  }

  /** The fips codes of the merged rows, each once (the groups of `groupby("county_fips")`). */
  function CountyCodes(rows: seq<RatedRow>): (v: seq<string>)
    ensures forall f :: f in v <==> exists i :: 0 <= i < |rows| && rows[i].countyFips == f
  {
    var all := seq(|rows|, i requires 0 <= i < |rows| => rows[i].countyFips);
    assert forall i :: 0 <= i < |rows| ==> all[i] == rows[i].countyFips;
    Unique(all)
  }

  function InCounty(fips: string): RatedRow -> bool
  {
    (m: RatedRow) => m.countyFips == fips
  }

  /** The statistics of the county `fips` from all merged rows. */
  function CountyFrom(rows: seq<RatedRow>): string -> Result<County>
  {
    (fips: string) => CountyOf(fips, Filter(rows, InCounty(fips)))
  }

  /** calculate_county_ratings: one line per county; the first county without enrollment raises. */
  function CountyStats(codes: seq<string>, rows: seq<RatedRow>): (r: Result<seq<County>>)
    ensures r.Ok? ==> |r.value| == |codes|
    ensures r.Ok? ==> forall k :: 0 <= k < |codes| ==> CountyOf(codes[k], Filter(rows, InCounty(codes[k]))) == Ok(r.value[k])
    ensures r.Err? <==> exists k :: 0 <= k < |codes| && CountyOf(codes[k], Filter(rows, InCounty(codes[k]))).Err?
  {
    var f := CountyFrom(rows);
    var r := MapAll(codes, f);
    assert forall k :: 0 <= k < |codes| ==> f(codes[k]) == CountyOf(codes[k], Filter(rows, InCounty(codes[k])));
    r
  }

  /** A county's desert flag agrees with its rating and plan count. */
  predicate Classified(c: County)
  {
    c.isQualityDesert == IsQualityDesert(c.avgRating, c.numPlans)
  }

  /** Every county line that calculate_county_ratings produces carries a consistent desert flag. */
  lemma CountiesClassified(codes: seq<string>, rows: seq<RatedRow>)
    requires CountyStats(codes, rows).Ok?
    ensures forall c :: c in CountyStats(codes, rows).value ==> Classified(c)
  {
    var cs := CountyStats(codes, rows).value;
    forall c | c in cs
      ensures Classified(c)
    {
      var k :| 0 <= k < |cs| && cs[k] == c;
      assert CountyOf(codes[k], Filter(rows, InCounty(codes[k]))) == Ok(c);
    }
  }

  // ---------------------------------------------------------------------------
  // Quality desert analysis
  // ---------------------------------------------------------------------------

  /** The summary figures of create_quality_desert_analysis; a mean or ratio over nothing is `None` (NaN). */
  datatype DesertSummary = DesertSummary(
    totalCounties: nat, desertCounties: nat, pctCountiesDeserts: real,
    totalEnrollment: real, desertEnrollment: real, pctEnrollmentDeserts: Option<real>,
    avgRatingDeserts: Option<real>, avgRatingNonDeserts: Option<real>)

  function IsNotDesertCounty(c: County): bool { !c.isQualityDesert }

  /** The total enrollment of the desert counties. */
  function DesertEnrollment(cs: seq<County>): real
  {
    if cs == [] then 0.0
    else DesertEnrollment(cs[..|cs| - 1]) + (if cs[|cs| - 1].isQualityDesert then cs[|cs| - 1].totalEnrollment else 0.0)
  }

  /** create_quality_desert_analysis: the share of deserts among counties raises on an empty county table. */
  function DesertAnalysis(cs: seq<County>): (r: Result<DesertSummary>)
    ensures r.Err? <==> cs == []
    ensures r.Ok? ==> r.value.totalCounties == |cs| && r.value.desertCounties == |Filter(cs, IsDesertCounty)|
                      && r.value.totalEnrollment == Sum(CountyEnrollments(cs))
                      && r.value.desertEnrollment == DesertEnrollment(cs)
                      && (r.value.pctEnrollmentDeserts.None? <==> r.value.totalEnrollment == 0.0)
  {
    if cs == [] then Err("ZeroDivisionError: division by zero")
    else
      var deserts := Filter(cs, IsDesertCounty);
      var total := Sum(CountyEnrollments(cs));
      var inDeserts := DesertEnrollment(cs);
      Ok(DesertSummary(|cs|, |deserts|, |deserts| as real / |cs| as real * 100.0,
                       total, inDeserts, if total == 0.0 then None else Some(inDeserts / total * 100.0),
                       Mean(CountyAverages(deserts)), Mean(CountyAverages(Filter(cs, IsNotDesertCounty)))))
  }

  /** With non-negative enrollments the desert enrollment is part of the total. */
  lemma {:induction false} DesertEnrollmentBetween(cs: seq<County>)
    requires forall i :: 0 <= i < |cs| ==> cs[i].totalEnrollment >= 0.0
    ensures 0.0 <= DesertEnrollment(cs) <= Sum(CountyEnrollments(cs))
  {
    if cs != [] {
      var init := cs[..|cs| - 1];
      DesertEnrollmentBetween(init);
      assert CountyEnrollments(cs)[..|cs| - 1] == CountyEnrollments(init);
    }
  }

  /** A sum of values that are each at least `lo` is at least `|v| * lo`. */
  lemma {:induction false} SumAtLeast(v: seq<real>, lo: real)
    requires forall i :: 0 <= i < |v| ==> v[i] >= lo
    ensures Sum(v) >= |v| as real * lo
  {
    if v != [] {
      SumAtLeast(v[..|v| - 1], lo);
    }
  }

  /** Both shares in the summary are percentages. */
  lemma DesertSharesArePercentages(cs: seq<County>)
    requires forall i :: 0 <= i < |cs| ==> cs[i].totalEnrollment >= 0.0
    ensures var r := DesertAnalysis(cs);
            r.Ok? ==> 0.0 <= r.value.pctCountiesDeserts <= 100.0
                      && r.value.desertCounties <= r.value.totalCounties
                      && (r.value.pctEnrollmentDeserts.Some? ==> 0.0 <= r.value.pctEnrollmentDeserts.value <= 100.0)
  {
    if cs != [] {
      var r := DesertAnalysis(cs).value;
      PercentOf(|Filter(cs, IsDesertCounty)|, |cs|);
      DesertEnrollmentBetween(cs);
      if r.totalEnrollment != 0.0 {
        SumNonNegative(CountyEnrollments(cs));
        ShareOfTotal(r.desertEnrollment, r.totalEnrollment);
      }
    }
  }

  /** d / t * 100 for 0 <= d <= t, t > 0, is a percentage. */
  lemma ShareOfTotal(d: real, t: real)
    requires 0.0 <= d <= t && t > 0.0
    ensures 0.0 <= d / t * 100.0 <= 100.0
  {
    assert t * 0.0 == 0.0 && t * 1.0 == t;
    DivideBetween(d, t, 0.0, 1.0);
  }

  /** The non-desert counties average at least the desert threshold. */
  lemma NonDesertsRateWell(cs: seq<County>)
    requires forall c :: c in cs ==> Classified(c)
    ensures var r := DesertAnalysis(cs);
            r.Ok? && r.value.avgRatingNonDeserts.Some? ==> r.value.avgRatingNonDeserts.value >= QualityDesertThreshold
  {
    var good := Filter(cs, IsNotDesertCounty);
    var v := CountyAverages(good);
    forall i | 0 <= i < |v|
      ensures v[i] >= QualityDesertThreshold
    {
      assert good[i] in good;
      assert Classified(good[i]);
    }
    MeanAtLeast(v, QualityDesertThreshold);
  }

  /** The mean of values that are each at least `lo` is at least `lo`. */
  lemma MeanAtLeast(v: seq<real>, lo: real)
    requires forall i :: 0 <= i < |v| ==> v[i] >= lo
    ensures Mean(v).Some? ==> Mean(v).value >= lo
  {
    if v != [] {
      SumAtLeast(v, lo);
      var n := |v| as real;
      assert n * lo <= Sum(v);
    }
  }

  // ---------------------------------------------------------------------------
  // State statistics
  // ---------------------------------------------------------------------------

  /** A state's statistics (`state_stats`). */
  datatype StateStats = StateStats(state: string, avgRating: real, totalEnrollment: real, numCounties: nat,
                                   desertCounties: nat, pctDesert: real, pct4Plus: real)

  function CountyAverages(cs: seq<County>): (v: seq<real>)
    ensures |v| == |cs| && forall i :: 0 <= i < |cs| ==> v[i] == cs[i].avgRating
  {
    if cs == [] then [] else CountyAverages(cs[..|cs| - 1]) + [cs[|cs| - 1].avgRating]
  }

  function CountyEnrollments(cs: seq<County>): (v: seq<real>)
    ensures |v| == |cs| && forall i :: 0 <= i < |cs| ==> v[i] == cs[i].totalEnrollment
  {
    if cs == [] then [] else CountyEnrollments(cs[..|cs| - 1]) + [cs[|cs| - 1].totalEnrollment]
  }

  function CountyFourPlus(cs: seq<County>): (v: seq<real>)
    ensures |v| == |cs| && forall i :: 0 <= i < |cs| ==> v[i] == cs[i].pct4Plus
  {
    if cs == [] then [] else CountyFourPlus(cs[..|cs| - 1]) + [cs[|cs| - 1].pct4Plus]
  }

  function IsDesertCounty(c: County): bool { c.isQualityDesert }

  /** calculate_state_ratings for the counties of one state: averages weighted by county enrollment. */
  function StateOf(state: string, cs: seq<County>): (r: Result<StateStats>)
    ensures r.Err? <==> Sum(CountyEnrollments(cs)) == 0.0
    ensures r.Ok? ==> cs != [] && r.value.numCounties == |cs| && r.value.desertCounties == |Filter(cs, IsDesertCounty)|
  {
    match Average(CountyAverages(cs), CountyEnrollments(cs))
    case Err(e) => Err(e)
    case Ok(avg) =>
      var deserts := |Filter(cs, IsDesertCounty)|;
      match Average(CountyFourPlus(cs), CountyEnrollments(cs))
      case Err(e) => Err(e)
      case Ok(four) =>
        Ok(StateStats(state, avg, Sum(CountyEnrollments(cs)), |cs|, deserts,
                      deserts as real / |cs| as real * 100.0, four))
  }

  /** The share of desert counties is a percentage: 0 iff no county is a desert, 100 iff every one is. */
  lemma StateDesertShare(state: string, cs: seq<County>)
    ensures var r := StateOf(state, cs);
            r.Ok? ==> 0.0 <= r.value.pctDesert <= 100.0
                      && (r.value.pctDesert == 0.0 <==> forall c :: c in cs ==> !c.isQualityDesert)
                      && (r.value.pctDesert == 100.0 <==> forall c :: c in cs ==> c.isQualityDesert)
  {
    var d := Filter(cs, IsDesertCounty);
    FilterFull(cs, IsDesertCounty);
    if d != [] {
      assert d[0] in d && d[0] in cs && d[0].isQualityDesert;
    } else {
      forall c | c in cs ensures !c.isQualityDesert {
        assert c !in d;
      }
    }
    assert |d| == 0 <==> forall c :: c in cs ==> !c.isQualityDesert;
    var r := StateOf(state, cs);
    if r.Ok? {
      assert r.value.pctDesert == |d| as real / |cs| as real * 100.0;
      PercentOf(|d|, |cs|);
    }
  }

  /** part / whole * 100 for 0 <= part <= whole: a percentage, 0 iff the part is empty, 100 iff it is the whole. */
  lemma PercentOf(part: int, whole: int)
    requires 0 <= part <= whole && whole != 0
    ensures var p := part as real / whole as real * 100.0;
            0.0 <= p <= 100.0 && (p == 0.0 <==> part == 0) && (p == 100.0 <==> part == whole)
  {
    var x, w := part as real, whole as real;
    assert w * 0.0 == 0.0 && w * 1.0 == w;
    DivideBetween(x, w, 0.0, 1.0);
    assert x / w * w == x;
  }

  /** With non-negative enrollments a state's rating lies between its lowest and highest county rating. */
  lemma StateRatingBetween(state: string, cs: seq<County>)
    requires forall i :: 0 <= i < |cs| ==> cs[i].totalEnrollment >= 0.0
    ensures var r := StateOf(state, cs);
            r.Ok? ==> cs != [] && MinOf(CountyAverages(cs)) <= r.value.avgRating <= MaxOf(CountyAverages(cs))
  {
    if cs != [] {
      AverageBetween(CountyAverages(cs), CountyEnrollments(cs));
    }
  }

  // ---------------------------------------------------------------------------
  // State trends over the years
  // ---------------------------------------------------------------------------

  /** One state's enrollment-weighted rating in one year (a line of `state_trends`). */
  datatype StateYear = StateYear(state: string, year: int, avgRating: real, totalEnrollment: real)

  function InState(state: string): RatedRow -> bool
  {
    (m: RatedRow) => m.state == state
  }

  /** The merged, rated rows of one year: enrollment and ratings are both filtered to the year first. */
  function YearRows(year: int, enrollment: seq<Enrollment>, ratings: seq<Rating>): seq<RatedRow>
  {
    MergeRated(Filter(enrollment, (e: Enrollment) => e.year == year), Filter(ratings, (r: Rating) => r.year == year))
  }

  /** A state's line for the year; `np.average` raises when the state has no enrollment. */
  function StateYearOf(year: int, rows: seq<RatedRow>, state: string): (r: Result<StateYear>)
    ensures r.Err? <==> Sum(Weights(Filter(rows, InState(state)))) == 0.0
    ensures r.Ok? ==> r.value.state == state && r.value.year == year
                      && r.value.totalEnrollment == Sum(Weights(Filter(rows, InState(state))))
  {
    var g := Filter(rows, InState(state));
    match Average(Ratings(g), Weights(g))
    case Err(e) => Err(e)
    case Ok(avg) => Ok(StateYear(state, year, avg, Sum(Weights(g))))
  }

  /** The year's lines for the given states (`groupby("state_abbr")` over the year's rows). */
  function StateYears(year: int, states: seq<string>, rows: seq<RatedRow>): (r: Result<seq<StateYear>>)
    ensures r.Ok? ==> |r.value| == |states| && forall k :: 0 <= k < |states| ==>
              r.value[k].state == states[k] && r.value[k].year == year
    ensures r.Err? <==> exists k :: 0 <= k < |states| && Sum(Weights(Filter(rows, InState(states[k])))) == 0.0
  {
    MapAll(states, (s: string) => StateYearOf(year, rows, s))
  }

  /** The five trend categories. */
  datatype TrendCategory = StrongImprovement | ModerateImprovement | Stable | ModerateDecline | SignificantDecline

  function CategoryName(c: TrendCategory): string
  {
    match c
    case StrongImprovement => "Strong Improvement"
    case ModerateImprovement => "Moderate Improvement"
    case Stable => "Stable"
    case ModerateDecline => "Moderate Decline"
    case SignificantDecline => "Significant Decline"
  }

  /** The category of a total change in rating, the thresholds tried in order. */
  function CategoryOf(change: real): TrendCategory
  {
    if change >= 0.25 then StrongImprovement
    else if change >= 0.1 then ModerateImprovement
    else if change <= -0.25 then SignificantDecline
    else if change <= -0.1 then ModerateDecline
    else TrendCategory.Stable
  }

  /** Each category covers exactly one band of changes. */
  lemma CategoryBands(change: real)
    ensures CategoryOf(change) == StrongImprovement <==> change >= 0.25
    ensures CategoryOf(change) == ModerateImprovement <==> 0.1 <= change < 0.25
    ensures CategoryOf(change) == TrendCategory.Stable <==> -0.1 < change < 0.1
    ensures CategoryOf(change) == ModerateDecline <==> -0.25 < change <= -0.1
    ensures CategoryOf(change) == SignificantDecline <==> change <= -0.25
  {
  }

  /** Categories ordered from the worst decline to the strongest improvement. */
  function Rank(c: TrendCategory): int
  {
    match c
    case SignificantDecline => 0
    case ModerateDecline => 1
    case Stable => 2
    case ModerateImprovement => 3
    case StrongImprovement => 4
  }

  /** A larger change never gets a worse category. */
  lemma CategoryMonotone(a: real, b: real)
    requires a <= b
    ensures Rank(CategoryOf(a)) <= Rank(CategoryOf(b))
  {
  }

  /** `pct_change`: the total change relative to the first rating, 0 when the first rating is not positive. */
  function PctChange(change: real, first: real): (p: real)
    ensures first <= 0.0 ==> p == 0.0
    ensures first > 0.0 ==> (p > 0.0 <==> change > 0.0) && (p < 0.0 <==> change < 0.0) && p * first == change * 100.0
  {
    if first > 0.0 then change / first * 100.0 else 0.0
  }

  /** One state's trend statistics (`annual_change`, the least-squares slope, is not modelled). */
  datatype TrendStat = TrendStat(state: string, currentRating: real, firstRating: real, totalChange: real,
                                 category: TrendCategory, pctChange: real)

  function YearKey(x: StateYear): real { x.year as real }

  function OfState(state: string): StateYear -> bool
  {
    (x: StateYear) => x.state == state
  }

  /** The statistics of one state from its lines sorted by year, or None when it has fewer than two. */
  function TrendOf(trends: seq<StateYear>, state: string): (r: Option<TrendStat>)
    ensures r.Some? <==> |Filter(trends, OfState(state))| >= 2
    ensures r.Some? ==> r.value.state == state && r.value.totalChange == r.value.currentRating - r.value.firstRating
                        && r.value.category == CategoryOf(r.value.totalChange)
                        && r.value.pctChange == PctChange(r.value.totalChange, r.value.firstRating)
  {
    var data := Sorting.SortAsc(Filter(trends, OfState(state)), YearKey);
    if |data| < 2 then None
    else
      var first, current := data[0].avgRating, data[|data| - 1].avgRating;
      var change := current - first;
      Some(TrendStat(state, current, first, change, CategoryOf(change), PctChange(change, first)))
  }

  /** `a` and `b` are the earliest and the latest of the state's years in `trends`. */
  predicate YearSpan(trends: seq<StateYear>, state: string, a: StateYear, b: StateYear)
  {
    a in trends && b in trends && a.state == state && b.state == state
    && forall x :: x in trends && x.state == state ==> a.year <= x.year <= b.year
  }

  /** The first rating is that of the state's earliest year, the current one that of its latest year. */
  lemma TrendEndpoints(trends: seq<StateYear>, state: string)
    requires TrendOf(trends, state).Some?
    ensures exists a, b :: YearSpan(trends, state, a, b)
              && a.avgRating == TrendOf(trends, state).value.firstRating
              && b.avgRating == TrendOf(trends, state).value.currentRating
  {
    var g := Filter(trends, OfState(state));
    var data := Sorting.SortAsc(g, YearKey);
    var t := TrendOf(trends, state).value;
    assert t.firstRating == data[0].avgRating && t.currentRating == data[|data| - 1].avgRating;
    var a, b := data[0], data[|data| - 1];
    assert a in multiset(g) && b in multiset(g);
    assert a in g && b in g;
    forall x | x in trends && x.state == state
      ensures a.year <= x.year <= b.year
    {
      assert x in g;
      assert x in multiset(data);
      SortedEnds(data, YearKey, x);
    }
    assert YearSpan(trends, state, a, b);
  }

  lemma SortedEnds(data: seq<StateYear>, key: StateYear -> real, x: StateYear)
    requires forall i, j :: 0 <= i < j < |data| ==> key(data[i]) <= key(data[j])
    requires x in data
    ensures key(data[0]) <= key(x) <= key(data[|data| - 1])
  {
    var k :| 0 <= k < |data| && data[k] == x;
    if 0 < k {
      assert key(data[0]) <= key(data[k]);
    }
    if k < |data| - 1 {
      assert key(data[k]) <= key(data[|data| - 1]);
    }
  }

  /** The distinct states of a table (`df["state"].unique()`), each once, in order of first appearance. */
  function States<T(!new)>(rows: seq<T>, stateOf: T -> string): (v: seq<string>)
    ensures forall s :: s in v <==> exists x :: x in rows && stateOf(x) == s
  {
    if rows == [] then [] else
      var u := States(rows[..|rows| - 1], stateOf);
      assert forall x :: x in rows <==> x in rows[..|rows| - 1] || x == rows[|rows| - 1];
      if stateOf(rows[|rows| - 1]) in u then u else u + [stateOf(rows[|rows| - 1])]
  }

  function TrendState(x: StateYear): string { x.state }
  function RowState(x: RatedRow): string { x.state }

  /** The trend table: the states with at least two years, in order of first appearance. */
  function TrendStats(trends: seq<StateYear>): seq<TrendStat>
  {
    Collect(States(trends, TrendState), (s: string) => TrendOf(trends, s))
  }

  /** A state has a line in the trend table iff it has at least two yearly lines. */
  lemma TrendStatsCover(trends: seq<StateYear>, state: string)
    ensures (exists t :: t in TrendStats(trends) && t.state == state) <==> |Filter(trends, OfState(state))| >= 2
  {
    var f := (s: string) => TrendOf(trends, s);
    var states := States(trends, TrendState);
    if |Filter(trends, OfState(state))| >= 2 {
      var g := Filter(trends, OfState(state));
      assert g[0] in g;
      assert state in states;
      var i :| 0 <= i < |states| && states[i] == state;
      var t := TrendOf(trends, state).value;
      CollectMembers(states, f, t);
      assert f(states[i]) == Some(t);
    }
    if t :| t in TrendStats(trends) && t.state == state {
      CollectMembers(states, f, t);
      var i :| 0 <= i < |states| && f(states[i]) == Some(t);
    }
  }

  /** `all_state_years` after the loop over the given years, flattened; the first year with a state without enrollment raises. */
  function YearLines(years: seq<int>, enrollment: seq<Enrollment>, ratings: seq<Rating>): Result<seq<StateYear>>
  {
    if years == [] then Ok([])
    else
      match YearLines(years[..|years| - 1], enrollment, ratings)
      case Err(e) => Err(e)
      case Ok(prev) =>
        var year := years[|years| - 1];
        var rows := YearRows(year, enrollment, ratings);
        match StateYears(year, States(rows, RowState), rows)
        case Err(e) => Err(e)
        case Ok(lines) => Ok(prev + lines)
  }

  /** Every yearly line belongs to one of the requested years. */
  lemma {:induction false} YearLinesYears(years: seq<int>, enrollment: seq<Enrollment>, ratings: seq<Rating>)
    ensures var r := YearLines(years, enrollment, ratings);
            r.Ok? ==> forall x :: x in r.value ==> x.year in years
  {
    if years != [] {
      var init := years[..|years| - 1];
      YearLinesYears(init, enrollment, ratings);
      assert forall y :: y in init ==> y in years;
    }
  }

  /** An error in a prefix of the years is the error of all of them. */
  lemma {:induction false} YearLinesErr(years: seq<int>, i: nat, enrollment: seq<Enrollment>, ratings: seq<Rating>)
    requires i <= |years| && YearLines(years[..i], enrollment, ratings).Err?
    ensures YearLines(years, enrollment, ratings) == YearLines(years[..i], enrollment, ratings)
    decreases |years|
  {
    if i < |years| {
      var init := years[..|years| - 1];
      assert init[..i] == years[..i];
      YearLinesErr(init, i, enrollment, ratings);
    } else {
      assert years[..i] == years;
    }
  }

  /**
   * `pd.concat(all_state_years)`: the yearly lines of every year, in year order;
   * concatenating no frames at all raises.
   */
  function AllStateYears(years: seq<int>, enrollment: seq<Enrollment>, ratings: seq<Rating>): (r: Result<seq<StateYear>>)
    ensures years == [] ==> r == Err(NothingToConcat)
    ensures years != [] ==> r == YearLines(years, enrollment, ratings)
    ensures r.Ok? ==> forall x :: x in r.value ==> x.year in years
  {
    YearLinesYears(years, enrollment, ratings);
    if years == [] then Err(NothingToConcat) else YearLines(years, enrollment, ratings)
  }

  const NothingToConcat := "ValueError: No objects to concatenate"
  const NoFirstYear := "IndexError: list index out of range"

  /**
   * calculate_state_trends: the opening message reads `years[0]`, which raises on
   * an empty list; otherwise the yearly state lines, appended year by year, and
   * the trend line of every state with at least two of them.
   */
  method CalculateStateTrends(years: seq<int>, enrollment: seq<Enrollment>, ratings: seq<Rating>)
    returns (r: Result<seq<StateYear>>, stats: seq<TrendStat>)
    ensures years == [] ==> r == Err(NoFirstYear)
    ensures years != [] ==> r == AllStateYears(years, enrollment, ratings)
    ensures r.Ok? ==> stats == TrendStats(r.value)
    ensures r.Err? ==> stats == []
  {
    stats := [];
    if years == [] {
      r := Err(NoFirstYear);
      return;
    }
    var all: seq<StateYear> := [];
    var i := 0;
    while i < |years|
      invariant 0 <= i <= |years|
      invariant YearLines(years[..i], enrollment, ratings) == Ok(all)
    {
      assert years[..i + 1][..i] == years[..i];
      var rows := YearRows(years[i], enrollment, ratings);
      var lines := StateYears(years[i], States(rows, RowState), rows);
      if lines.Err? {
        YearLinesErr(years, i + 1, enrollment, ratings);
        r := Err(lines.error);
        return;
      }
      all := all + lines.value;
      i := i + 1;
    }
    assert years[..i] == years;
    r := Ok(all);
    var f := (s: string) => TrendOf(all, s);
    var states := States(all, TrendState);
    var j := 0;
    while j < |states|
      invariant 0 <= j <= |states|
      invariant stats == Collect(states[..j], f)
    {
      CollectSnoc(states, f, j);
      var t := TrendOf(all, states[j]);
      if t.Some? {
        stats := stats + [t.value];
      }
      j := j + 1;
    }
    assert states[..j] == states;
  }

  // ---------------------------------------------------------------------------
  // County FIPS codes
  // ---------------------------------------------------------------------------

  /** The demo's county code: the two-digit state code and the county's index padded to three digits. */
  function CountyFips(stateFips: string, countyIdx: nat): string
  {
    stateFips + ZFill(NatStr(countyIdx), 3)
  }

  /** `county_fips.astype(str).str.zfill(5)` before mapping. */
  function MapFips(fips: string): string
  {
    ZFill(fips, 5)
  }

  lemma NatStrAtMostThree(n: nat)
    requires n < 1000
    ensures |NatStr(n)| <= 3
  {
    if n >= 10 {
      var m := n / 10;
      assert NatStr(n) == NatStr(m) + [DigitChar(n % 10)];
      if m >= 10 {
        assert NatStr(m) == NatStr(m / 10) + [DigitChar(m % 10)];
        assert m / 10 < 10;
        assert |NatStr(m / 10)| == 1;
      }
    }
  }

  /** For a two-digit state code and an index below 1000 the code has five digits, is left alone by the padding, and spells the state and the index. */
  lemma CountyFipsShape(stateFips: string, countyIdx: nat)
    requires |stateFips| == 2 && AllDigits(stateFips) && countyIdx < 1000
    ensures var f := CountyFips(stateFips, countyIdx);
            |f| == 5 && AllDigits(f) && MapFips(f) == f
            && f[..2] == stateFips && DigitsValue(f[2..]) == countyIdx
  {
    NatStrAtMostThree(countyIdx);
    var z := ZFill(NatStr(countyIdx), 3);
    ZFillDigits(NatStr(countyIdx), 3);
    DigitsValueOfNatStr(countyIdx);
    var f := stateFips + z;
    assert f[..2] == stateFips && f[2..] == z;
  }

  /** Distinct counties get distinct codes. */
  lemma CountyFipsInjective(s1: string, i1: nat, s2: string, i2: nat)
    requires |s1| == 2 && AllDigits(s1) && i1 < 1000
    requires |s2| == 2 && AllDigits(s2) && i2 < 1000
    requires CountyFips(s1, i1) == CountyFips(s2, i2)
    ensures s1 == s2 && i1 == i2
  {
    CountyFipsShape(s1, i1);
    CountyFipsShape(s2, i2);
  }
}
