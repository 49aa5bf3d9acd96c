// The E/M (evaluation and management) coding study over the Medicare
// Physician & Other Practitioners file: columns are picked by name, HCPCS
// codes are normalised and mapped to a complexity level, providers get a
// service-weighted average complexity, and specialties are compared by the
// share of one specialty's providers above another's median.
module EmCoding {
  import opened Common
  import Sorting

  // ---------------------------------------------------------------------------
  // pick_col
  // ---------------------------------------------------------------------------

  /** The letters and digits of s (`ch.isalnum()`), in order. */
  function KeepAlnum(s: string): (r: string)
    ensures |r| <= |s|
    ensures forall i :: 0 <= i < |r| ==> IsAsciiAlnum(r[i])
  {
    if s == [] then [] else (if IsAsciiAlnum(s[0]) then [s[0]] else []) + KeepAlnum(s[1..])
  }

  /** The second way pick_col compares names: lower-cased, with only letters and digits kept. */
  function Norm(s: string): string
  {
    KeepAlnum(Lower(s))
  }

  /** `{key(c): c for c in columns}[k]` over the first n columns: the dictionary keeps the last column with each key. */
  function Lookup(columns: seq<string>, key: string -> string, k: string, n: nat := |columns|): (r: Option<string>)
    requires n <= |columns|
    ensures r.Some? <==> exists j :: 0 <= j < n && key(columns[j]) == k
    ensures r.Some? ==> r.value in columns && key(r.value) == k
  {
    if n == 0 then None
    else if key(columns[n - 1]) == k then Some(columns[n - 1])
    else Lookup(columns, key, k, n - 1)
  }

  /** Some column has the candidate's key. */
  predicate Matches(columns: seq<string>, key: string -> string, cand: string)
  {
    exists j :: 0 <= j < |columns| && key(columns[j]) == key(cand)
  }

  /** One loop of pick_col, from candidate `start` on: the column of the first candidate, in order, that some column matches. */
  function FirstFound(columns: seq<string>, candidates: seq<string>, key: string -> string, start: nat := 0): (r: Option<string>)
    requires start <= |candidates|
    ensures r.Some? <==> exists i :: start <= i < |candidates| && Matches(columns, key, candidates[i])
    ensures r.Some? ==> r.value in columns
    decreases |candidates| - start
  {
    if start == |candidates| then None
    else
      var found := Lookup(columns, key, key(candidates[start]));
      if found.Some? then found else FirstFound(columns, candidates, key, start + 1)
  }

  /** pick_col: a case-insensitive match first, then a match on letters and digits only, else KeyError. */
  function PickCol(columns: seq<string>, candidates: seq<string>): (r: Result<string>)
    ensures r.Ok? ==> r.value in columns
  {
    match FirstFound(columns, candidates, Lower)
    case Some(c) => Ok(c)
    case None =>
      match FirstFound(columns, candidates, Norm)
      case Some(c) => Ok(c)
      case None => Err("KeyError: none of the candidate columns found")
  }

  /** Of several columns with the same key, the last one is looked up. */
  lemma {:induction false} LaterColumnWins(columns: seq<string>, key: string -> string, j: nat, n: nat := |columns|)
    requires j < n <= |columns|
    requires forall h :: j < h < n ==> key(columns[h]) != key(columns[j])
    ensures Lookup(columns, key, key(columns[j]), n) == Some(columns[j])
    decreases n
  {
    if j < n - 1 {
      LaterColumnWins(columns, key, j, n - 1);
    }
  }

  /** The first candidate that some column matches decides, and it gets the last such column. */
  lemma {:induction false} FirstFoundPicks(columns: seq<string>, candidates: seq<string>, key: string -> string, start: nat, i: nat, j: nat)
    requires start <= i < |candidates| && j < |columns|
    requires forall h :: start <= h < i ==> !Matches(columns, key, candidates[h])
    requires key(columns[j]) == key(candidates[i])
    requires forall h :: j < h < |columns| ==> key(columns[h]) != key(columns[j])
    ensures FirstFound(columns, candidates, key, start) == Some(columns[j])
    decreases i - start
  {
    if start == i {
      LaterColumnWins(columns, key, j);
    } else {
      assert !Matches(columns, key, candidates[start]);
      FirstFoundPicks(columns, candidates, key, start + 1, i, j);
    }
  }

  /** A case-insensitive match: the first matching candidate picks the last column equal to it up to case. */
  lemma PickColCaseInsensitive(columns: seq<string>, candidates: seq<string>, i: nat, j: nat)
    requires i < |candidates| && j < |columns|
    requires forall h :: 0 <= h < i ==> !Matches(columns, Lower, candidates[h])
    requires Lower(columns[j]) == Lower(candidates[i])
    requires forall h :: j < h < |columns| ==> Lower(columns[h]) != Lower(columns[j])
    ensures PickCol(columns, candidates) == Ok(columns[j])
  {
    FirstFoundPicks(columns, candidates, Lower, 0, i, j);
  }

  /** Without a case-insensitive match, the first candidate matching on letters and digits picks the last such column. */
  lemma PickColNormalised(columns: seq<string>, candidates: seq<string>, i: nat, j: nat)
    requires i < |candidates| && j < |columns|
    requires forall h :: 0 <= h < |candidates| ==> !Matches(columns, Lower, candidates[h])
    requires forall h :: 0 <= h < i ==> !Matches(columns, Norm, candidates[h])
    requires Norm(columns[j]) == Norm(candidates[i])
    requires forall h :: j < h < |columns| ==> Norm(columns[h]) != Norm(columns[j])
    ensures PickCol(columns, candidates) == Ok(columns[j])
  {
    FirstFoundPicks(columns, candidates, Norm, 0, i, j);
  }

  /** KeyError is raised iff no candidate matches any column on letters and digits. */
  lemma PickColFails(columns: seq<string>, candidates: seq<string>)
    ensures PickCol(columns, candidates).Err? <==>
            forall i, j :: 0 <= i < |candidates| && 0 <= j < |columns| ==> Norm(candidates[i]) != Norm(columns[j])
  {
    if i :| 0 <= i < |candidates| && Matches(columns, Lower, candidates[i]) {
      var j :| 0 <= j < |columns| && Lower(columns[j]) == Lower(candidates[i]);
      assert Norm(columns[j]) == Norm(candidates[i]);
    }
    if i, j :| 0 <= i < |candidates| && 0 <= j < |columns| && Norm(candidates[i]) == Norm(columns[j]) {
      assert Matches(columns, Norm, candidates[i]);
    }
  }

  // ---------------------------------------------------------------------------
  // weighted_avg
  // ---------------------------------------------------------------------------

  /** weighted_avg: the weighted mean, or NaN (None) when the weights do not sum to a positive number. */
  function WeightedAvg(v: seq<real>, w: seq<real>): (r: Option<real>)
    requires |v| == |w|
    ensures r.None? <==> Sum(w) <= 0.0
    ensures r.Some? ==> r.value * Sum(w) == Dot(v, w)
  {
    DivisionUndone(Dot(v, w), Sum(w));
    if Sum(w) > 0.0 then Some(Dot(v, w) / Sum(w)) else None
  }

  /** With non-negative weights, a weighted mean lies between the least and the greatest possible value. */
  lemma WeightedAvgBounds(v: seq<real>, w: seq<real>, lo: real, hi: real)
    requires |v| == |w|
    requires forall i :: 0 <= i < |v| ==> lo <= v[i] <= hi && 0.0 <= w[i]
    ensures WeightedAvg(v, w).Some? ==> lo <= WeightedAvg(v, w).value <= hi
  {
    if Sum(w) > 0.0 {
      WeightedMeanBetween(v, w, lo, hi);
    }
  }

  // ---------------------------------------------------------------------------
  // HCPCS normalisation and the complexity map
  // ---------------------------------------------------------------------------

  /** The number of '0's that end s. */
  function TrailingZeros(s: string): (n: nat)
    ensures n <= |s|
    ensures forall i :: |s| - n <= i < |s| ==> s[i] == '0'
    ensures n < |s| ==> s[|s| - n - 1] != '0'
  {
    if s == [] || s[|s| - 1] != '0' then 0 else TrailingZeros(s[..|s| - 1]) + 1
  }

  /** `.str.strip().str.replace(r"\.0+$", "")`: strip, then drop a final "." followed only by zeros. */
  function NormalizeHcpcs(code: string): (r: string)
    ensures r <= Strip(code)
    ensures r == Strip(code) || Strip(code) == r + "." + Zeros(|Strip(code)| - |r| - 1)
  {
    var t := Strip(code);
    var z := TrailingZeros(t);
    if 0 < z < |t| && t[|t| - z - 1] == '.' then
      DotZerosSplit(t, z);
      t[..|t| - z - 1]
    else t
  }

  /** A text ending in "." and z zeros is its head, the dot and the zeros. */
  lemma DotZerosSplit(t: string, z: nat)
    requires 0 < z < |t| && t[|t| - z - 1] == '.'
    requires forall i :: |t| - z <= i < |t| ==> t[i] == '0'
    ensures var r := t[..|t| - z - 1]; r <= t && t == r + "." + Zeros(z)
  {
    var r := t[..|t| - z - 1];
    assert t[|r| + 1..] == Zeros(z);
    assert t == r + "." + t[|r| + 1..];
  }

  /** A code read as a float ("99213.0") gets its digits back. */
  lemma FloatRenderingDropped(d: string, k: nat)
    requires k > 0 && (d == [] || !IsSpace(d[0]))
    ensures NormalizeHcpcs(d + "." + Zeros(k)) == d
  {
    var t := d + "." + Zeros(k);
    assert t[|t| - k - 1] == '.';
    assert forall i :: |t| - k <= i < |t| ==> t[i] == Zeros(k)[i - |d| - 1];
    assert t[..|t| - k - 1] == d;
    SuffixDropped(t, k);
  }

  /** A stripped code ending in "." and k > 0 zeros loses exactly that ending. */
  lemma SuffixDropped(t: string, k: nat)
    requires 0 < k < |t| && t[|t| - k - 1] == '.'
    requires forall i :: |t| - k <= i < |t| ==> t[i] == '0'
    requires !IsSpace(t[0])
    ensures NormalizeHcpcs(t) == t[..|t| - k - 1]
  {
    assert Strip(t) == t;
    TrailingZerosExactly(t, k);
  }

  /** k zeros end s and nothing but a non-zero comes before them. */
  lemma {:induction false} TrailingZerosExactly(s: string, k: nat)
    requires k < |s| && s[|s| - k - 1] != '0'
    requires forall i :: |s| - k <= i < |s| ==> s[i] == '0'
    ensures TrailingZeros(s) == k
    decreases k
  {
    if k > 0 {
      var init := s[..|s| - 1];
      assert forall i :: 0 <= i < |init| ==> init[i] == s[i];
      TrailingZerosExactly(init, k - 1);
    }
  }

  /** A code without a '.' is only stripped. */
  lemma NoPointOnlyStripped(code: string)
    requires Lacks(Strip(code), '.')
    ensures NormalizeHcpcs(code) == Strip(code)
  {
  }

  /** EM_CODES: new and established office visits, initial and subsequent hospital care, discharge day. */
  const EmCodes: map<string, nat> := map[
    "99211" := 1, "99212" := 2, "99213" := 3, "99214" := 4, "99215" := 5,
    "99201" := 1, "99202" := 2, "99203" := 3, "99204" := 4, "99205" := 5,
    "99221" := 2, "99222" := 3, "99223" := 4,
    "99231" := 2, "99232" := 3, "99233" := 4,
    "99238" := 4, "99239" := 5]

  /** `_complexity`: the level of the normalised code, missing for a code outside the map. */
  function Complexity(code: string): (r: Option<nat>)
    ensures r.Some? ==> 1 <= r.value <= 5
    ensures r.Some? <==> NormalizeHcpcs(code) in EmCodes
  {
    var c := NormalizeHcpcs(code);
    if c in EmCodes then Some(EmCodes[c]) else None
  }

  // ---------------------------------------------------------------------------
  // Providers
  // ---------------------------------------------------------------------------

  /** One row of the file: a provider's services under one HCPCS code (`Tot_Srvcs` already read, missing as 0). */
  datatype ServiceLine = ServiceLine(npi: string, specialty: string, hcpcs: string, services: real)

  /** df_em: the rows with a mapped E/M code. */
  function EmLines(lines: seq<ServiceLine>): (r: seq<ServiceLine>)
    ensures forall x :: x in r <==> x in lines && Complexity(x.hcpcs).Some?
  {
    Filter(lines, (x: ServiceLine) => Complexity(x.hcpcs).Some?)
  }

  /** The complexity levels of E/M rows, in order. */
  function Levels(lines: seq<ServiceLine>): (v: seq<real>)
    ensures |v| == |lines|
  {
    if lines == [] then []
    else
      var c := Complexity(lines[|lines| - 1].hcpcs);
      Levels(lines[..|lines| - 1]) + [if c.Some? then c.value as real else 0.0]
  }

  function Services(lines: seq<ServiceLine>): (v: seq<real>)
    ensures |v| == |lines|
  {
    if lines == [] then [] else Services(lines[..|lines| - 1]) + [lines[|lines| - 1].services]
  }

  lemma {:induction false} LevelsInRange(lines: seq<ServiceLine>)
    requires forall i :: 0 <= i < |lines| ==> Complexity(lines[i].hcpcs).Some?
    ensures forall i :: 0 <= i < |lines| ==> 1.0 <= Levels(lines)[i] <= 5.0
    decreases |lines|
  {
    if lines != [] {
      var init := lines[..|lines| - 1];
      assert forall i :: 0 <= i < |init| ==> init[i] == lines[i];
      LevelsInRange(init);
    }
  }

  lemma {:induction false} ServicesAt(lines: seq<ServiceLine>)
    ensures forall i :: 0 <= i < |lines| ==> Services(lines)[i] == lines[i].services
    decreases |lines|
  {
    if lines != [] {
      ServicesAt(lines[..|lines| - 1]);
    }
  }

  /** One provider after the per-(NPI, specialty) aggregation. */
  datatype Provider = Provider(npi: string, specialty: string, avgComplexity: Option<real>, totalServices: real)

  /** The aggregation of one provider's E/M rows: service-weighted complexity (NaN without services) and total services. */
  function ProviderOf(npi: string, specialty: string, lines: seq<ServiceLine>): (p: Provider)
    ensures p.npi == npi && p.specialty == specialty
    ensures p.totalServices == Sum(Services(lines))
    ensures p.avgComplexity.None? <==> p.totalServices <= 0.0
    ensures p.avgComplexity.Some? ==> p.avgComplexity.value == Dot(Levels(lines), Services(lines)) / p.totalServices
  {
    Provider(npi, specialty, WeightedAvg(Levels(lines), Services(lines)), Sum(Services(lines)))
  }

  /** Multiplying a quotient by a positive divisor gives the dividend back. */
  lemma DivisionUndone(a: real, n: real)
    ensures n > 0.0 ==> a / n * n == a
  {
  }

  /** With non-negative service counts, a provider's average complexity is a level between 1 and 5. */
  lemma ProviderComplexityInRange(npi: string, specialty: string, lines: seq<ServiceLine>)
    requires forall i :: 0 <= i < |lines| ==> Complexity(lines[i].hcpcs).Some? && lines[i].services >= 0.0
    ensures var p := ProviderOf(npi, specialty, lines);
            p.avgComplexity.Some? ==> 1.0 <= p.avgComplexity.value <= 5.0
    ensures ProviderOf(npi, specialty, lines).avgComplexity.None? <==> Sum(Services(lines)) <= 0.0
  {
    var v, w := Levels(lines), Services(lines);
    LevelsInRange(lines);
    ServicesAt(lines);
    assert forall i :: 0 <= i < |v| ==> 1.0 <= v[i] <= 5.0 && 0.0 <= w[i];
    WeightedAvgBounds(v, w, 1.0, 5.0);
    assert ProviderOf(npi, specialty, lines).avgComplexity == WeightedAvg(v, w);
  }

  const MinServices: real := 20.0

  /** prov_sub: providers with at least 20 services in one of the compared specialties. */
  function Compared(prov: seq<Provider>, compare: seq<string>): (r: seq<Provider>)
    ensures forall p :: p in r <==> p in prov && p.totalServices >= MinServices && p.specialty in compare
  {
    Filter(prov, (p: Provider) => p.totalServices >= MinServices && p.specialty in compare)
  }

  // ---------------------------------------------------------------------------
  // The overlap matrix
  // ---------------------------------------------------------------------------

  /** A specialty's present average complexities (`dropna()`), in order. */
  function ValuesOf(prov: seq<Provider>, spec: string): seq<real>
  {
    Collect(prov, (p: Provider) => if p.specialty == spec then p.avgComplexity else None)
  }

  /** `medians.get(spec, nan)`: the median as a parameter, absent when it is NaN. */
  function MedianOf(medians: map<string, real>, spec: string): Option<real>
  {
    if spec in medians then Some(medians[spec]) else None
  }

  /** One cell: the percentage of A's values above median(B); NaN when the median is NaN or A has no values. */
  function AboveShare(vals: seq<real>, med: Option<real>): (r: Option<real>)
    ensures r.None? <==> med.None? || vals == []
    ensures r.Some? ==> 0.0 <= r.value <= 100.0
    ensures r.Some? ==> (r.value == 0.0 <==> forall i :: 0 <= i < |vals| ==> vals[i] <= med.value)
  {
    if med.None? || vals == [] then None
    else
      var above := Filter(vals, (v: real) => v > med.value);
      assert |above| == 0 <==> forall i :: 0 <= i < |vals| ==> vals[i] <= med.value by {
        if i :| 0 <= i < |vals| && vals[i] > med.value {
          assert vals[i] in above;
        }
        if |above| > 0 {
          assert above[0] in above;
        }
      }
      DivideBetween(100.0 * |above| as real, |vals| as real, 0.0, 100.0);
      Some(100.0 * |above| as real / |vals| as real)
  }

  /** The value the matrix holds for the pair (A, B). */
  function Cell(prov: seq<Provider>, medians: map<string, real>, a: string, b: string): Option<real>
  {
    AboveShare(ValuesOf(prov, a), MedianOf(medians, b))
  }

  /** The nested loops that fill the overlap matrix cell by cell. */
  method BuildOverlap(compare: seq<string>, prov: seq<Provider>, medians: map<string, real>)
    returns (overlap: array2<Option<real>>)
    ensures fresh(overlap) && overlap.Length0 == |compare| && overlap.Length1 == |compare|
    ensures forall i, j :: 0 <= i < |compare| && 0 <= j < |compare| ==>
              overlap[i, j] == Cell(prov, medians, compare[i], compare[j])
  {
    var n := |compare|;
    overlap := new Option<real>[n, n]((i, j) => None);
    var i := 0;
    while i < n
      invariant 0 <= i <= n
      invariant forall x, y :: 0 <= x < i && 0 <= y < n ==> overlap[x, y] == Cell(prov, medians, compare[x], compare[y])
    {
      var aVals := ValuesOf(prov, compare[i]);
      var j := 0;
      while j < n
        invariant 0 <= j <= n
        invariant forall x, y :: 0 <= x < i && 0 <= y < n ==> overlap[x, y] == Cell(prov, medians, compare[x], compare[y])
        invariant forall y :: 0 <= y < j ==> overlap[i, y] == Cell(prov, medians, compare[i], compare[y])
      {
        overlap[i, j] := AboveShare(aVals, MedianOf(medians, compare[j]));
        j := j + 1;
      }
      i := i + 1;
    }
  }

  // ---------------------------------------------------------------------------
  // Surprising overlaps
  // ---------------------------------------------------------------------------

  /** (a, b, median(a), median(b), % of a above median(b)). */
  datatype Overlap = Overlap(a: string, b: string, medianA: real, medianB: real, pct: real)

  /** The pair (i, j) is called out: different specialties, both medians present, median(B) > median(A), and at least 20% of A above median(B). */
  predicate Surprising(compare: seq<string>, medians: map<string, real>, overlap: array2<Option<real>>, i: nat, j: nat)
    requires i < |compare| == overlap.Length0 && j < |compare| == overlap.Length1
    reads overlap
  {
    compare[i] != compare[j]
    && compare[i] in medians && compare[j] in medians
    && medians[compare[j]] > medians[compare[i]]
    && overlap[i, j].Some? && overlap[i, j].value >= 20.0
  }

  function EntryOf(compare: seq<string>, medians: map<string, real>, overlap: array2<Option<real>>, i: nat, j: nat): Overlap
    requires i < |compare| == overlap.Length0 && j < |compare| == overlap.Length1
    requires Surprising(compare, medians, overlap, i, j)
    reads overlap
  {
    Overlap(compare[i], compare[j], medians[compare[i]], medians[compare[j]], overlap[i, j].value)
  }

  /** The entries of row i for the columns before j, in column order. */
  function RowEntries(compare: seq<string>, medians: map<string, real>, overlap: array2<Option<real>>, i: nat, j: nat): seq<Overlap>
    requires i < |compare| == overlap.Length0 && j <= |compare| == overlap.Length1
    reads overlap
  {
    if j == 0 then []
    else
      RowEntries(compare, medians, overlap, i, j - 1)
      + (if Surprising(compare, medians, overlap, i, j - 1) then [EntryOf(compare, medians, overlap, i, j - 1)] else [])
  }

  /** The entries of the rows before i, in row-major order. */
  function Entries(compare: seq<string>, medians: map<string, real>, overlap: array2<Option<real>>, i: nat): seq<Overlap>
    requires i <= |compare| == overlap.Length0 && |compare| == overlap.Length1
    reads overlap
  {
    if i == 0 then [] else Entries(compare, medians, overlap, i - 1) + RowEntries(compare, medians, overlap, i - 1, |compare|)
  }

  /** The loops that append each surprising pair in row-major order. */
  method SurprisingPairs(compare: seq<string>, medians: map<string, real>, overlap: array2<Option<real>>)
    returns (surprising: seq<Overlap>)
    requires |compare| == overlap.Length0 && |compare| == overlap.Length1
    ensures surprising == Entries(compare, medians, overlap, |compare|)
  {
    var n := |compare|;
    surprising := [];
    var i := 0;
    while i < n
      invariant 0 <= i <= n
      invariant surprising == Entries(compare, medians, overlap, i)
    {
      var j := 0;
      while j < n
        invariant 0 <= j <= n
        invariant surprising == Entries(compare, medians, overlap, i) + RowEntries(compare, medians, overlap, i, j)
      {
        var a, b := compare[i], compare[j];
        if a != b && a in medians && b in medians && medians[b] > medians[a] {
          var pct := overlap[i, j];
          if pct.Some? && pct.value >= 20.0 {
            surprising := surprising + [Overlap(a, b, medians[a], medians[b], pct.value)];
          }
        }
        j := j + 1;
      }
      i := i + 1;
    }
  }

  lemma {:induction false} RowEntriesMembers(compare: seq<string>, medians: map<string, real>, overlap: array2<Option<real>>, i: nat, j: nat, t: Overlap)
    requires i < |compare| == overlap.Length0 && j <= |compare| == overlap.Length1
    ensures t in RowEntries(compare, medians, overlap, i, j) <==>
            exists y :: 0 <= y < j && Surprising(compare, medians, overlap, i, y) && t == EntryOf(compare, medians, overlap, i, y)
    decreases j
  {
    if j > 0 {
      RowEntriesMembers(compare, medians, overlap, i, j - 1, t);
    }
  }

  /** A pair is listed iff it is surprising: the list holds exactly the called-out pairs. */
  lemma {:induction false} SurprisingMembers(compare: seq<string>, medians: map<string, real>, overlap: array2<Option<real>>, i: nat, t: Overlap)
    requires i <= |compare| == overlap.Length0 && |compare| == overlap.Length1
    ensures t in Entries(compare, medians, overlap, i) <==>
            exists x, y :: 0 <= x < i && 0 <= y < |compare| && Surprising(compare, medians, overlap, x, y)
                           && t == EntryOf(compare, medians, overlap, x, y)
    decreases i
  {
    if i > 0 {
      SurprisingMembers(compare, medians, overlap, i - 1, t);
      RowEntriesMembers(compare, medians, overlap, i - 1, |compare|, t);
    }
  }

  /** Every listed pair is called out for a reason: A and B differ, median(B) > median(A), and the share is at least 20%. */
  lemma SurprisingSound(compare: seq<string>, medians: map<string, real>, overlap: array2<Option<real>>, t: Overlap)
    requires |compare| == overlap.Length0 && |compare| == overlap.Length1
    requires t in Entries(compare, medians, overlap, |compare|)
    ensures t.a != t.b && t.medianB > t.medianA && t.pct >= 20.0
    ensures t.a in medians && t.b in medians && t.medianA == medians[t.a] && t.medianB == medians[t.b]
  {
    SurprisingMembers(compare, medians, overlap, |compare|, t);
  }

  function PctKey(t: Overlap): real { t.pct }

  /** `sorted(surprising, key=lambda x: -x[4])`: a stable sort, by share, largest first. */
  function SortedSurprising(surprising: seq<Overlap>): (r: seq<Overlap>)
    ensures multiset(r) == multiset(surprising)
    ensures forall i, j :: 0 <= i < j < |r| ==> r[i].pct >= r[j].pct
  {
    var r := Sorting.SortDesc(surprising, PctKey);
    assert forall i, j :: 0 <= i < j < |r| ==> PctKey(r[i]) >= PctKey(r[j]);
    r
  }
}
