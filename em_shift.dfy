// The 2019-versus-2023 shift in E/M office-visit coding: per specialty and
// state, the services billed at levels 4-5 against all office/outpatient
// E/M services, pooled per specialty and per state, and the ten states whose
// share of high-level visits moved the most.
module EmShift {
  import opened Common
  import Sorting

  // ---------------------------------------------------------------------------
  // The code lists
  // ---------------------------------------------------------------------------

  /** em_codes: `[str(c) for c in range(99201, 99216)]`. */
  function CodeRange(first: nat, count: nat): (r: seq<string>)
    ensures |r| == count && forall i :: 0 <= i < count ==> r[i] == NatStr(first + i)
    decreases count
  {
    if count == 0 then [] else [NatStr(first)] + CodeRange(first + 1, count - 1)
  }

  const EmCodes: seq<string> := CodeRange(99201, 15)

  /** level4_5: the established-patient visits of levels 4 and 5. */
  const HighLevel: set<string> := {"99214", "99215"}

  lemma {:induction false} CodeRangeIff(first: nat, count: nat, code: string)
    ensures code in CodeRange(first, count) <==> exists n: nat :: first <= n < first + count && code == NatStr(n)
  {
    var r := CodeRange(first, count);
    if code in r {
      var i :| 0 <= i < |r| && r[i] == code;
      var n: nat := first + i;
      assert r[i] == NatStr(n);
      assert first <= n < first + count && code == NatStr(n);
      assert exists m: nat :: first <= m < first + count && code == NatStr(m);
    } else {
      forall n: nat | first <= n < first + count
        ensures code != NatStr(n)
      {
        assert r[n - first] == NatStr(n);
      }
    }
  }

  lemma CodeRangeDistinct(first: nat, count: nat)
    ensures forall i, j :: 0 <= i < j < count ==> CodeRange(first, count)[i] != CodeRange(first, count)[j]
  {
    var r := CodeRange(first, count);
    forall i, j | 0 <= i < j < count
      ensures r[i] != r[j]
    {
      if r[i] == r[j] {
        NatStrInjective(first + i, first + j);
      }
    }
  }

  /** A code is kept iff it spells a number from 99201 to 99215. */
  lemma EmCodeIff(code: string)
    ensures code in EmCodes <==> exists n: nat :: 99201 <= n <= 99215 && code == NatStr(n)
  {
    CodeRangeIff(99201, 15, code);
  }

  /** The fifteen codes are distinct. */
  lemma EmCodesDistinct()
    ensures |EmCodes| == 15 && forall i, j :: 0 <= i < j < |EmCodes| ==> EmCodes[i] != EmCodes[j]
  {
    CodeRangeDistinct(99201, 15);
  }

  /** The high levels are among the kept codes: high-level services are counted in the total. */
  lemma HighLevelIsEm()
    ensures forall c :: c in HighLevel ==> c in EmCodes
  {
    assert NatStr(99214) == "99214";
    assert NatStr(99215) == "99215";
    assert EmCodes[13] == NatStr(99214) && EmCodes[14] == NatStr(99215);
  }

  // ---------------------------------------------------------------------------
  // Tot_Srvcs
  // ---------------------------------------------------------------------------

  /** Text that `float()` reads as NaN: "nan" in any case, with an optional sign and blanks. */
  predicate NanText(t: string)
  {
    NanWord(Lower(Strip(t)))
  }

  /** "nan" after an optional sign, in lower case. */
  predicate NanWord(u: string)
  {
    var b := if |u| > 0 && (u[0] == '+' || u[0] == '-') then u[1..] else u;
    |b| == 3 && b[0] == 'n' && b[1] == 'a' && b[2] == 'n'
  }

  /**
   * Tot_Srvcs: commas dropped, `astype(float)` (which raises on text that is not a
   * number), NaN as 0, then `astype(int)`, which truncates toward zero.
   */
  function ParseServices(cell: Option<string>): (r: Result<int>)
    ensures cell.None? ==> r == Ok(0)
    ensures cell.Some? && NanText(RemoveChar(cell.value, ',')) ==> r == Ok(0)
    ensures cell.Some? && !NanText(RemoveChar(cell.value, ',')) ==>
              (r.Err? <==> ParseDecimal(RemoveChar(cell.value, ',')).None?)
    ensures cell.Some? && !NanText(RemoveChar(cell.value, ',')) && ParseDecimal(RemoveChar(cell.value, ',')).Some? ==>
              r == Ok(Trunc(ParseDecimal(RemoveChar(cell.value, ',')).value))
  {
    match cell
    case None => Ok(0)
    case Some(s) =>
      var t := RemoveChar(s, ',');
      if NanText(t) then Ok(0)
      else
        match ParseDecimal(t)
        case None => Err("ValueError: could not convert string to float")
        case Some(x) => Ok(Trunc(x))
  }

  /** Text without commas that is not NaN and reads as x gives int(x). */
  lemma ServicesOfText(t: string, x: real)
    requires Lacks(t, ',') && !NanText(t) && ParseDecimal(t) == Some(x)
    ensures ParseServices(Some(t)) == Ok(Trunc(x))
  {
    assert RemoveChar(t, ',') == t;
  }

  /** Text that starts with a digit and ends in no blank is not NaN. */
  lemma NotNanText(t: string)
    requires |t| > 0 && IsDigit(t[0]) && !IsSpace(t[|t| - 1])
    ensures !NanText(t)
  {
    StripUnchanged(t);
    LowerDigitHead(t);
    DigitNotNanWord(Lower(t));
  }

  lemma LowerDigitHead(t: string)
    requires |t| > 0 && IsDigit(t[0])
    ensures |Lower(t)| > 0 && IsDigit(Lower(t)[0])
  {
  }

  lemma DigitNotNanWord(u: string)
    requires |u| > 0 && IsDigit(u[0])
    ensures !NanWord(u)
  {
  }

  /** A count written with a fraction ("71842.6") is truncated to its whole part. */
  lemma FractionTruncated(p: string, q: string)
    requires |p| > 0 && AllDigits(p) && AllDigits(q)
    ensures ParseServices(Some(p + "." + q)) == Ok(DigitsValue(p))
  {
    var s := p + "." + q;
    assert Lacks(s, ',') by {
      forall i | 0 <= i < |s| ensures s[i] != ',' {
        assert s[i] == '.' || IsDigit(s[i]);
      }
    }
    assert s[0] == p[0] && (IsDigit(s[|s| - 1]) || s[|s| - 1] == '.');
    NotNanText(s);
    DecimalWholePart(p, q);
    var x := ParseDecimal(s).value;
    ServicesOfText(s, x);
    TruncOfWhole(x, DigitsValue(p));
  }

  /** A missing count written as "nan" is counted as 0. */
  lemma NanCountIsZero()
    ensures ParseServices(Some("NaN")) == Ok(0)
  {
    NanLacksComma();
    NanTextOfNaN();
    ServicesOfNan("NaN");
  }

  lemma NanLacksComma()
    ensures Lacks("NaN", ',')
  {
    var t := "NaN";
    assert t[0] != ',' && t[1] != ',' && t[2] != ',';
  }

  lemma NanTextOfNaN()
    ensures NanText("NaN")
  {
    var t := "NaN";
    assert Strip(t) == t;
    var u := Lower(t);
    assert u[0] == 'n' && u[1] == 'a' && u[2] == 'n';
  }

  /** Text without commas that reads as NaN gives 0. */
  lemma ServicesOfNan(t: string)
    requires Lacks(t, ',') && NanText(t)
    ensures ParseServices(Some(t)) == Ok(0)
  {
    assert RemoveChar(t, ',') == t;
  }

  /** A plain count reads as itself. */
  lemma ServicesOfCount(n: nat)
    ensures ParseServices(Some(NatStr(n))) == Ok(n)
  {
    var s := NatStr(n);
    assert Lacks(s, ',') by {
      forall i | 0 <= i < |s| ensures s[i] != ',' {
        assert IsDigit(s[i]);
      }
    }
    NotNanText(s);
    ParseDecimalNatStr(n);
    ServicesOfText(s, n as real);
    TruncOfWhole(n as real, n);
  }

  /** A thousands separator does not change the count. */
  lemma CommasIgnored(a: string, b: string)
    ensures ParseServices(Some(a + "," + b)) == ParseServices(Some(a + b))
  {
    RemoveCharAppend(a + ",", b, ',');
    RemoveCharAppend(a, ",", ',');
    RemoveCharAppend(a, b, ',');
    assert RemoveChar(",", ',') == [];
    assert RemoveChar(a, ',') + [] == RemoveChar(a, ',');
  }

  /** One row of a year's file as read (`dtype=str`). */
  datatype RawRow = RawRow(hcpcs: string, specialty: string, state: string, totSrvcs: Option<string>)

  /** A row after the Tot_Srvcs clean-up. */
  datatype Row = Row(hcpcs: string, specialty: string, state: string, services: int)

  /** The clean-up of a whole file: the first unreadable count raises. */
  function CleanRows(raw: seq<RawRow>): (r: Result<seq<Row>>)
    ensures r.Err? <==> exists i :: 0 <= i < |raw| && ParseServices(raw[i].totSrvcs).Err?
    ensures r.Ok? ==> |r.value| == |raw|
    ensures r.Ok? ==> forall i :: 0 <= i < |raw| ==>
              r.value[i] == Row(raw[i].hcpcs, raw[i].specialty, raw[i].state, ParseServices(raw[i].totSrvcs).value)
  {
    if raw == [] then Ok([])
    else
      match ParseServices(raw[0].totSrvcs)
      case Err(e) => Err(e)
      case Ok(n) =>
        match CleanRows(raw[1..])
        case Err(e) => Err(e)
        case Ok(rest) =>
          var r := [Row(raw[0].hcpcs, raw[0].specialty, raw[0].state, n)] + rest;
          assert forall i :: 1 <= i < |raw| ==> raw[i] == raw[1..][i - 1];
          Ok(r)
  }

  // ---------------------------------------------------------------------------
  // Per specialty and state
  // ---------------------------------------------------------------------------

  function ServiceSum(rows: seq<Row>): int
  {
    if rows == [] then 0 else rows[0].services + ServiceSum(rows[1..])
  }

  /** The kept E/M rows of one specialty in one state. */
  function GroupRows(rows: seq<Row>, specialty: string, state: string): (g: seq<Row>)
    ensures forall r :: r in g <==> r in rows && r.specialty == specialty && r.state == state && r.hcpcs in EmCodes
  {
    Filter(rows, (r: Row) => r.specialty == specialty && r.state == state && r.hcpcs in EmCodes)
  }

  function IsHigh(r: Row): bool { r.hcpcs in HighLevel }

  function IsLow(r: Row): bool { r.hcpcs !in HighLevel }

  /** One summary row: services at low and high level, their total, and the high share (NaN as None). */
  datatype Summary = Summary(specialty: string, state: string, year: int, low: int, high: int, total: int, shareHigh: Option<real>)

  /** high / total, NaN (None) when the total is 0. */
  function ShareOf(high: int, total: int): Option<real>
  {
    if total == 0 then None else Some(high as real / total as real)
  }

  lemma FractionBetween(part: int, whole: int)
    requires 0 <= part <= whole && whole != 0
    ensures 0.0 <= part as real / whole as real <= 1.0
  {
    var p, w := part as real, whole as real;
    assert w * 0.0 == 0.0 && w * 1.0 == w;
    DivideBetween(p, w, 0.0, 1.0);
  }

  /** load_and_aggregate for one (specialty, state) pair of one year. */
  function SummaryOf(rows: seq<Row>, specialty: string, state: string, year: int): Summary
  {
    var g := GroupRows(rows, specialty, state);
    var high := ServiceSum(Filter(g, IsHigh));
    var low := ServiceSum(Filter(g, IsLow));
    Summary(specialty, state, year, low, high, low + high, ShareOf(high, low + high))
  }

  /** Splitting rows by a test and its negation splits their services. */
  lemma {:induction false} SumSplits(rows: seq<Row>)
    ensures ServiceSum(Filter(rows, IsHigh)) + ServiceSum(Filter(rows, IsLow)) == ServiceSum(rows)
    decreases |rows|
  {
    if rows != [] {
      SumSplits(rows[1..]);
      var h := if IsHigh(rows[0]) then [rows[0]] else [];
      var l := if IsLow(rows[0]) then [rows[0]] else [];
      assert Filter(rows, IsHigh) == h + Filter(rows[1..], IsHigh);
      assert Filter(rows, IsLow) == l + Filter(rows[1..], IsLow);
      SumAppend(h, Filter(rows[1..], IsHigh));
      SumAppend(l, Filter(rows[1..], IsLow));
    }
  }

  lemma {:induction false} SumAppend(a: seq<Row>, b: seq<Row>)
    ensures ServiceSum(a + b) == ServiceSum(a) + ServiceSum(b)
    decreases |a|
  {
    if a == [] {
      assert a + b == b;
    } else {
      assert (a + b)[0] == a[0];
      assert (a + b)[1..] == a[1..] + b;
      SumAppend(a[1..], b);
    }
  }

  /** The total counts every kept E/M service of the pair once. */
  lemma TotalIsAllServices(rows: seq<Row>, specialty: string, state: string, year: int)
    ensures SummaryOf(rows, specialty, state, year).total == ServiceSum(GroupRows(rows, specialty, state))
  {
    SumSplits(GroupRows(rows, specialty, state));
  }

  lemma {:induction false} SumNonNegative(rows: seq<Row>)
    requires forall i :: 0 <= i < |rows| ==> rows[i].services >= 0
    ensures ServiceSum(rows) >= 0
    decreases |rows|
  {
    if rows != [] {
      SumNonNegative(rows[1..]);
    }
  }

  lemma FilterKeepsNonNegative(rows: seq<Row>, p: Row -> bool)
    requires forall i :: 0 <= i < |rows| ==> rows[i].services >= 0
    ensures ServiceSum(Filter(rows, p)) >= 0
  {
    var f := Filter(rows, p);
    forall i | 0 <= i < |f| ensures f[i].services >= 0 {
      assert f[i] in f;
    }
    SumNonNegative(f);
  }

  lemma GroupNonNegative(rows: seq<Row>, specialty: string, state: string, p: Row -> bool)
    requires forall i :: 0 <= i < |rows| ==> rows[i].services >= 0
    ensures ServiceSum(Filter(GroupRows(rows, specialty, state), p)) >= 0
  {
    var g := GroupRows(rows, specialty, state);
    forall i | 0 <= i < |g| ensures g[i].services >= 0 {
      assert g[i] in g;
    }
    FilterKeepsNonNegative(g, p);
  }

  /** With non-negative counts the high share is a fraction, and it is present iff some service was billed. */
  lemma ShareIsFraction(rows: seq<Row>, specialty: string, state: string, year: int)
    requires forall i :: 0 <= i < |rows| ==> rows[i].services >= 0
    ensures var s := SummaryOf(rows, specialty, state, year);
            0 <= s.high <= s.total && (s.shareHigh.Some? <==> s.total > 0)
            && (s.shareHigh.Some? ==> 0.0 <= s.shareHigh.value <= 1.0)
  {
    GroupNonNegative(rows, specialty, state, IsHigh);
    GroupNonNegative(rows, specialty, state, IsLow);
    var s := SummaryOf(rows, specialty, state, year);
    if s.total > 0 {
      FractionBetween(s.high, s.total);
    }
  }

  // ---------------------------------------------------------------------------
  // One year's summary table
  // ---------------------------------------------------------------------------

  function Kept(r: Row): bool { r.hcpcs in EmCodes }

  function PairOf(r: Row): (string, string) { (r.specialty, r.state) }

  /** The (specialty, state) pairs that have a kept row, each once: the groups of `groupby`. */
  function Groups(rows: seq<Row>): (g: seq<(string, string)>)
    ensures forall i, j :: 0 <= i < j < |g| ==> g[i] != g[j]
    ensures forall k :: k in g <==> exists r :: r in rows && Kept(r) && PairOf(r) == k
  {
    if rows == [] then []
    else
      var rest := Groups(rows[1..]);
      assert forall r :: r in rows <==> r == rows[0] || r in rows[1..];
      if !Kept(rows[0]) || PairOf(rows[0]) in rest then rest else [PairOf(rows[0])] + rest
  }

  /** Some kept row is of level 4-5 (high) or of another level (not high). */
  predicate HasLevel(rows: seq<Row>, high: bool)
  {
    exists r :: r in rows && Kept(r) && IsHigh(r) == high
  }

  function SummariesOf(rows: seq<Row>, groups: seq<(string, string)>, year: int): (s: seq<Summary>)
    ensures |s| == |groups|
    ensures forall i :: 0 <= i < |groups| ==> s[i] == SummaryOf(rows, groups[i].0, groups[i].1, year)
  {
    if groups == [] then [] else [SummaryOf(rows, groups[0].0, groups[0].1, year)] + SummariesOf(rows, groups[1..], year)
  }

  /**
   * load_and_aggregate: one summary per (specialty, state) pair with an E/M row.
   * `unstack` makes a column only for the levels it sees, so a year without a
   * low-level or without a high-level E/M row fails on `summary["low"]` or
   * `summary["high"]`.
   */
  function YearSummaries(rows: seq<Row>, year: int): (r: Result<seq<Summary>>)
    ensures r.Err? <==> !HasLevel(rows, false) || !HasLevel(rows, true)
    ensures !HasLevel(rows, false) ==> r == Err("KeyError: 'low'")
    ensures HasLevel(rows, false) && !HasLevel(rows, true) ==> r == Err("KeyError: 'high'")
    ensures r.Ok? ==> |r.value| == |Groups(rows)|
    ensures r.Ok? ==> forall x :: x in r.value ==> x.year == year && (x.specialty, x.state) in Groups(rows)
    ensures r.Ok? ==> forall k :: k in Groups(rows) ==> SummaryOf(rows, k.0, k.1, year) in r.value
  {
    if !HasLevel(rows, false) then Err("KeyError: 'low'")
    else if !HasLevel(rows, true) then Err("KeyError: 'high'")
    else Ok(GroupSummaries(rows, year))
  }

  /** The summaries of all groups, once both level columns exist. */
  function GroupSummaries(rows: seq<Row>, year: int): (s: seq<Summary>)
    ensures |s| == |Groups(rows)|
    ensures forall x :: x in s ==> x.year == year && (x.specialty, x.state) in Groups(rows)
    ensures forall k :: k in Groups(rows) ==> SummaryOf(rows, k.0, k.1, year) in s
  {
    var g := Groups(rows);
    var s := SummariesOf(rows, g, year);
    assert forall k :: k in g ==> SummaryOf(rows, k.0, k.1, year) in s by {
      forall k | k in g ensures SummaryOf(rows, k.0, k.1, year) in s {
        var i :| 0 <= i < |g| && g[i] == k;
        assert s[i] == SummaryOf(rows, k.0, k.1, year);
      }
    }
    s
  }

  // ---------------------------------------------------------------------------
  // A pooled share is the share of the pool's rows
  // ---------------------------------------------------------------------------

  /** What the charts pool over: the summaries of one state, or of one specialty. */
  datatype Pool = ByState(state: string) | BySpecialty(specialty: string)

  predicate InPool(pool: Pool, k: (string, string))
  {
    match pool
    case ByState(st) => k.1 == st
    case BySpecialty(sp) => k.0 == sp
  }

  function KeepOf(pool: Pool): Summary -> bool
  {
    match pool
    case ByState(st) => OfState(st)
    case BySpecialty(sp) => OfSpecialty(sp)
  }

  /** The kept rows of a pool, straight from the year's rows. */
  function PoolRows(rows: seq<Row>, pool: Pool): seq<Row>
  {
    Filter(rows, (r: Row) => Kept(r) && InPool(pool, PairOf(r)))
  }

  /** The services of the kept rows of pair k that pass p. */
  function PairTally(rows: seq<Row>, k: (string, string), p: Row -> bool): int
  {
    if rows == [] then 0
    else (if Kept(rows[0]) && PairOf(rows[0]) == k && p(rows[0]) then rows[0].services else 0) + PairTally(rows[1..], k, p)
  }

  /** The services of the kept rows of a pool that pass p. */
  function PoolTally(rows: seq<Row>, pool: Pool, p: Row -> bool): int
  {
    if rows == [] then 0
    else (if Kept(rows[0]) && InPool(pool, PairOf(rows[0])) && p(rows[0]) then rows[0].services else 0) + PoolTally(rows[1..], pool, p)
  }

  /** PairTally summed over the groups of a pool. */
  function GroupsTally(rows: seq<Row>, groups: seq<(string, string)>, pool: Pool, p: Row -> bool): int
  {
    if groups == [] then 0
    else (if InPool(pool, groups[0]) then PairTally(rows, groups[0], p) else 0) + GroupsTally(rows, groups[1..], pool, p)
  }

  /** What one row adds to GroupsTally. */
  function RowTally(r: Row, groups: seq<(string, string)>, pool: Pool, p: Row -> bool): int
  {
    if groups == [] then 0
    else (if InPool(pool, groups[0]) && Kept(r) && PairOf(r) == groups[0] && p(r) then r.services else 0)
         + RowTally(r, groups[1..], pool, p)
  }

  lemma {:induction false} PairTallyIsGroupSum(rows: seq<Row>, k: (string, string), p: Row -> bool)
    ensures PairTally(rows, k, p) == ServiceSum(Filter(GroupRows(rows, k.0, k.1), p))
    decreases |rows|
  {
    if rows != [] {
      PairTallyIsGroupSum(rows[1..], k, p);
      var g, g' := GroupRows(rows, k.0, k.1), GroupRows(rows[1..], k.0, k.1);
      var h := if Kept(rows[0]) && PairOf(rows[0]) == k then [rows[0]] else [];
      assert g == h + g';
      FilterAppend(h, g', p);
      SumAppend(Filter(h, p), Filter(g', p));
    }
  }

  lemma {:induction false} PoolTallyIsPoolSum(rows: seq<Row>, pool: Pool, p: Row -> bool)
    ensures PoolTally(rows, pool, p) == ServiceSum(Filter(PoolRows(rows, pool), p))
    decreases |rows|
  {
    if rows != [] {
      PoolTallyIsPoolSum(rows[1..], pool, p);
      var h := PoolRowsStep(rows, pool);
      var g' := PoolRows(rows[1..], pool);
      FilterAppend(h, g', p);
      SumAppend(Filter(h, p), Filter(g', p));
    }
  }

  /** The pool's rows are the first row's share followed by the rest's. */
  lemma PoolRowsStep(rows: seq<Row>, pool: Pool) returns (h: seq<Row>)
    requires rows != []
    ensures h == if Kept(rows[0]) && InPool(pool, PairOf(rows[0])) then [rows[0]] else []
    ensures PoolRows(rows, pool) == h + PoolRows(rows[1..], pool)
  {
    h := if Kept(rows[0]) && InPool(pool, PairOf(rows[0])) then [rows[0]] else [];
  }

  /** Taking the first row off every group's tally takes off that row's part. */
  lemma {:induction false} GroupsTallyStep(rows: seq<Row>, groups: seq<(string, string)>, pool: Pool, p: Row -> bool)
    requires rows != []
    ensures GroupsTally(rows, groups, pool, p) == RowTally(rows[0], groups, pool, p) + GroupsTally(rows[1..], groups, pool, p)
    decreases |groups|
  {
    if groups != [] {
      GroupsTallyStep(rows, groups[1..], pool, p);
    }
  }

  /** With distinct groups a row is counted once if its pair is a group of the pool, and not at all otherwise. */
  lemma {:induction false} RowTallyOnce(r: Row, groups: seq<(string, string)>, pool: Pool, p: Row -> bool)
    requires forall i, j :: 0 <= i < j < |groups| ==> groups[i] != groups[j]
    ensures RowTally(r, groups, pool, p)
         == if Kept(r) && PairOf(r) in groups && InPool(pool, PairOf(r)) && p(r) then r.services else 0
    decreases |groups|
  {
    if groups != [] {
      var rest := groups[1..];
      assert forall i, j :: 0 <= i < j < |rest| ==> rest[i] != rest[j] by {
        forall i, j | 0 <= i < j < |rest| ensures rest[i] != rest[j] {
          assert rest[i] == groups[i + 1] && rest[j] == groups[j + 1];
        }
      }
      RowTallyOnce(r, rest, pool, p);
      if PairOf(r) == groups[0] {
        assert PairOf(r) !in rest by {
          forall j | 0 <= j < |rest| ensures rest[j] != groups[0] {
            assert rest[j] == groups[j + 1];
          }
        }
      }
      assert PairOf(r) in groups <==> PairOf(r) == groups[0] || PairOf(r) in rest;
    }
  }

  /** Summing per group and summing per pool agree when the groups are distinct and cover every kept row. */
  lemma {:induction false} GroupsTallyIsPoolTally(rows: seq<Row>, groups: seq<(string, string)>, pool: Pool, p: Row -> bool)
    requires forall i, j :: 0 <= i < j < |groups| ==> groups[i] != groups[j]
    requires forall r :: r in rows && Kept(r) ==> PairOf(r) in groups
    ensures GroupsTally(rows, groups, pool, p) == PoolTally(rows, pool, p)
    decreases |rows|
  {
    if rows == [] {
      GroupsTallyEmpty(groups, pool, p);
    } else {
      assert rows[0] in rows;
      assert forall r :: r in rows[1..] ==> r in rows;
      GroupsTallyStep(rows, groups, pool, p);
      RowTallyOnce(rows[0], groups, pool, p);
      GroupsTallyIsPoolTally(rows[1..], groups, pool, p);
    }
  }

  lemma {:induction false} GroupsTallyEmpty(groups: seq<(string, string)>, pool: Pool, p: Row -> bool)
    ensures GroupsTally([], groups, pool, p) == 0
    decreases |groups|
  {
    if groups != [] {
      GroupsTallyEmpty(groups[1..], pool, p);
    }
  }

  /** Pooling the summaries of some groups adds up their high and their total services. */
  lemma {:induction false} PooledGroups(rows: seq<Row>, groups: seq<(string, string)>, pool: Pool, year: int)
    ensures PooledHigh(SummariesOf(rows, groups, year), KeepOf(pool)) == GroupsTally(rows, groups, pool, IsHigh)
    ensures PooledTotal(SummariesOf(rows, groups, year), KeepOf(pool))
         == GroupsTally(rows, groups, pool, IsHigh) + GroupsTally(rows, groups, pool, IsLow)
    decreases |groups|
  {
    if groups != [] {
      var k := groups[0];
      var s := SummariesOf(rows, groups, year);
      assert s[1..] == SummariesOf(rows, groups[1..], year);
      PooledGroups(rows, groups[1..], pool, year);
      PairTallyIsGroupSum(rows, k, IsHigh);
      PairTallyIsGroupSum(rows, k, IsLow);
      assert KeepOf(pool)(s[0]) == InPool(pool, k);
    }
  }

  /**
   * The pooled share of a state or a specialty (`groupby(...)[["high", "total"]].sum()`
   * over the summary table) is the share of level 4-5 services among all the
   * pool's E/M rows of the year: grouping by pair first changes nothing.
   */
  lemma PooledShareOfRows(rows: seq<Row>, year: int, pool: Pool)
    requires YearSummaries(rows, year).Ok?
    ensures var s := YearSummaries(rows, year).value;
            var high := ServiceSum(Filter(PoolRows(rows, pool), IsHigh));
            var total := ServiceSum(PoolRows(rows, pool));
            PooledHigh(s, KeepOf(pool)) == high && PooledTotal(s, KeepOf(pool)) == total
            && PooledShare(s, KeepOf(pool)) == ShareOf(high, total)
  {
    var g := Groups(rows);
    assert YearSummaries(rows, year).value == SummariesOf(rows, g, year);
    PooledCoveringGroups(rows, g, year, pool);
  }

  lemma PooledCoveringGroups(rows: seq<Row>, g: seq<(string, string)>, year: int, pool: Pool)
    requires forall i, j :: 0 <= i < j < |g| ==> g[i] != g[j]
    requires forall r :: r in rows && Kept(r) ==> PairOf(r) in g
    ensures PooledHigh(SummariesOf(rows, g, year), KeepOf(pool)) == ServiceSum(Filter(PoolRows(rows, pool), IsHigh))
    ensures PooledTotal(SummariesOf(rows, g, year), KeepOf(pool)) == ServiceSum(PoolRows(rows, pool))
  {
    PooledGroups(rows, g, pool, year);
    GroupsTallyIsPoolTally(rows, g, pool, IsHigh);
    GroupsTallyIsPoolTally(rows, g, pool, IsLow);
    PoolTallyIsPoolSum(rows, pool, IsHigh);
    PoolTallyIsPoolSum(rows, pool, IsLow);
    SumSplits(PoolRows(rows, pool));
  }

  // ---------------------------------------------------------------------------
  // Pooled shares and the top states
  // ---------------------------------------------------------------------------

  /** The high and total services of the summaries that pass a test (`groupby(...)[["high", "total"]].sum()`). */
  function PooledHigh(s: seq<Summary>, keep: Summary -> bool): int
  {
    if s == [] then 0 else (if keep(s[0]) then s[0].high else 0) + PooledHigh(s[1..], keep)
  }

  function PooledTotal(s: seq<Summary>, keep: Summary -> bool): int
  {
    if s == [] then 0 else (if keep(s[0]) then s[0].total else 0) + PooledTotal(s[1..], keep)
  }

  /** The pooled share of high-level services; NaN (None) when nothing was billed. */
  function PooledShare(s: seq<Summary>, keep: Summary -> bool): Option<real>
  {
    ShareOf(PooledHigh(s, keep), PooledTotal(s, keep))
  }

  lemma {:induction false} PooledBounds(s: seq<Summary>, keep: Summary -> bool)
    requires forall i :: 0 <= i < |s| ==> 0 <= s[i].high <= s[i].total
    ensures 0 <= PooledHigh(s, keep) <= PooledTotal(s, keep)
    decreases |s|
  {
    if s != [] {
      PooledBounds(s[1..], keep);
    }
  }

  /** A pooled share of summaries whose high count is within their total is a fraction. */
  lemma PooledShareIsFraction(s: seq<Summary>, keep: Summary -> bool)
    requires forall i :: 0 <= i < |s| ==> 0 <= s[i].high <= s[i].total
    ensures PooledShare(s, keep).Some? ==> 0.0 <= PooledShare(s, keep).value <= 1.0
  {
    PooledBounds(s, keep);
    if PooledTotal(s, keep) != 0 {
      FractionBetween(PooledHigh(s, keep), PooledTotal(s, keep));
    }
  }

  function OfState(state: string): Summary -> bool
  {
    (x: Summary) => x.state == state
  }

  function OfSpecialty(specialty: string): Summary -> bool
  {
    (x: Summary) => x.specialty == specialty
  }

  /** valid_states: the fifty states and DC. */
  const ValidStates: seq<string> := [
    "AL", "AK", "AZ", "AR", "CA", "CO", "CT", "DE", "FL", "GA", "HI", "ID", "IL", "IN", "IA",
    "KS", "KY", "LA", "ME", "MD", "MA", "MI", "MN", "MS", "MO", "MT", "NE", "NV", "NH", "NJ",
    "NM", "NY", "NC", "ND", "OH", "OK", "OR", "PA", "RI", "SC", "SD", "TN", "TX", "UT", "VT",
    "VA", "WA", "WV", "WI", "WY", "DC"]

  /** One row of the state pivot: the pooled share in each year and its change. */
  datatype Shift = Shift(key: string, share2019: real, share2023: real, delta: real)

  /** The pivot row of one group, dropped (`dropna`) unless both years have a share. */
  function ShiftOf(key: string, y2019: seq<Summary>, y2023: seq<Summary>, keep: Summary -> bool): (r: Option<Shift>)
    ensures r.Some? <==> PooledShare(y2019, keep).Some? && PooledShare(y2023, keep).Some?
    ensures r.Some? ==> r.value.delta == r.value.share2023 - r.value.share2019
  {
    var a, b := PooledShare(y2019, keep), PooledShare(y2023, keep);
    if a.Some? && b.Some? then Some(Shift(key, a.value, b.value, b.value - a.value)) else None
  }

  /** The pivot of the groups named by `keys` with `dropna`: one row per group with a share in both years. */
  function Shifts(keys: seq<string>, y2019: seq<Summary>, y2023: seq<Summary>, group: string -> (Summary -> bool)): (r: seq<Shift>)
    ensures forall x :: x in r ==> x.key in keys && ShiftOf(x.key, y2019, y2023, group(x.key)) == Some(x)
    ensures forall k :: k in keys && ShiftOf(k, y2019, y2023, group(k)).Some? ==> ShiftOf(k, y2019, y2023, group(k)).value in r
  {
    if keys == [] then []
    else
      var here := ShiftOf(keys[0], y2019, y2023, group(keys[0]));
      (if here.Some? then [here.value] else []) + Shifts(keys[1..], y2019, y2023, group)
  }

  /** state_shift: the valid states with a pooled share in both years. */
  function StateShift(y2019: seq<Summary>, y2023: seq<Summary>): (r: seq<Shift>)
    ensures forall x :: x in r ==> x.key in ValidStates
  {
    Shifts(ValidStates, y2019, y2023, OfState)
  }

  function Delta(x: Shift): real { x.delta }

  /** spec_sorted: the specialties with a pooled share in both years, largest increase first. */
  function SpecialtyRanking(specialties: seq<string>, y2019: seq<Summary>, y2023: seq<Summary>): (r: seq<Shift>)
    ensures multiset(r) == multiset(Shifts(specialties, y2019, y2023, OfSpecialty))
    ensures forall i, j :: 0 <= i < j < |r| ==> r[i].delta >= r[j].delta
  {
    var r := Sorting.SortDesc(Shifts(specialties, y2019, y2023, OfSpecialty), Delta);
    assert forall i, j :: 0 <= i < j < |r| ==> Delta(r[i]) >= Delta(r[j]);
    r
  }

  /** The specialties of some summaries, each once: the pivot's index before `dropna`. */
  function SpecialtiesOf(s: seq<Summary>): (r: seq<string>)
    ensures forall i, j :: 0 <= i < j < |r| ==> r[i] != r[j]
    ensures forall sp :: sp in r <==> exists x :: x in s && x.specialty == sp
  {
    if s == [] then []
    else
      var rest := SpecialtiesOf(s[1..]);
      assert forall x :: x in s <==> x == s[0] || x in s[1..];
      if s[0].specialty in rest then rest else [s[0].specialty] + rest
  }

  /** A pool with a non-zero total has a summary in it. */
  lemma {:induction false} PooledTotalHasMember(s: seq<Summary>, keep: Summary -> bool)
    requires PooledTotal(s, keep) != 0
    ensures exists x :: x in s && keep(x)
    decreases |s|
  {
    if !keep(s[0]) {
      PooledTotalHasMember(s[1..], keep);
      var x :| x in s[1..] && keep(x);
      assert x in s;
    }
  }

  /** spec_sorted over every specialty seen in either year. */
  function SpecialtyTable(y2019: seq<Summary>, y2023: seq<Summary>): seq<Shift>
  {
    SpecialtyRanking(SpecialtiesOf(y2019 + y2023), y2019, y2023)
  }

  /**
   * The specialty table has a row for a specialty iff its pooled share exists in
   * both years, and that row carries the two shares and their difference.
   */
  lemma SpecialtyTableRows(y2019: seq<Summary>, y2023: seq<Summary>, sp: string)
    ensures (exists x :: x in SpecialtyTable(y2019, y2023) && x.key == sp)
            <==> PooledShare(y2019, OfSpecialty(sp)).Some? && PooledShare(y2023, OfSpecialty(sp)).Some?
    ensures forall x :: x in SpecialtyTable(y2019, y2023) && x.key == sp ==>
              x == Shift(sp, PooledShare(y2019, OfSpecialty(sp)).value, PooledShare(y2023, OfSpecialty(sp)).value,
                         PooledShare(y2023, OfSpecialty(sp)).value - PooledShare(y2019, OfSpecialty(sp)).value)
  {
    var keys := SpecialtiesOf(y2019 + y2023);
    var shifts := Shifts(keys, y2019, y2023, OfSpecialty);
    var t := SpecialtyTable(y2019, y2023);
    assert multiset(t) == multiset(shifts);
    forall x | x in t
      ensures x in shifts
    {
      assert x in multiset(shifts);
    }
    var a, b := PooledShare(y2019, OfSpecialty(sp)), PooledShare(y2023, OfSpecialty(sp));
    if a.Some? && b.Some? {
      PooledTotalHasMember(y2019, OfSpecialty(sp));
      var y :| y in y2019 && OfSpecialty(sp)(y);
      assert y in y2019 + y2023;
      assert sp in keys;
      var x := ShiftOf(sp, y2019, y2023, OfSpecialty(sp)).value;
      assert x in multiset(t);
      assert x in t && x.key == sp;
    }
  }

  /** spec from both years' rows: either year's KeyError, 2019 first, or the ranked specialty table. */
  function SpecialtyChart(rows2019: seq<Row>, rows2023: seq<Row>): (r: Result<seq<Shift>>)
    ensures r.Err? <==> YearSummaries(rows2019, 2019).Err? || YearSummaries(rows2023, 2023).Err?
    ensures YearSummaries(rows2019, 2019).Err? ==> r == Err(YearSummaries(rows2019, 2019).error)
  {
    match YearSummaries(rows2019, 2019)
    case Err(e) => Err(e)
    case Ok(a) =>
      match YearSummaries(rows2023, 2023)
      case Err(e) => Err(e)
      case Ok(b) => Ok(SpecialtyTable(a, b))
  }

  /** top_states from both years' rows. */
  function TopStatesChart(rows2019: seq<Row>, rows2023: seq<Row>): (r: Result<seq<string>>)
    ensures r.Err? <==> YearSummaries(rows2019, 2019).Err? || YearSummaries(rows2023, 2023).Err?
    ensures r.Ok? ==> |r.value| <= 10 && forall st :: st in r.value ==> st in ValidStates
  {
    match YearSummaries(rows2019, 2019)
    case Err(e) => Err(e)
    case Ok(a) =>
      match YearSummaries(rows2023, 2023)
      case Err(e) => Err(e)
      case Ok(b) =>
        var shifts := StateShift(a, b);
        var top := TopStates(shifts);
        assert forall st :: st in top ==> st in ValidStates by {
          forall st | st in top ensures st in ValidStates {
            var x :| x in shifts && x.key == st;
          }
        }
        Ok(top)
  }

  function AbsDelta(x: Shift): real { Abs(x.delta) }

  function Keys(s: seq<Shift>): (r: seq<string>)
    ensures |r| == |s| && forall i :: 0 <= i < |s| ==> r[i] == s[i].key
  {
    if s == [] then [] else [s[0].key] + Keys(s[1..])
  }

  /** The pivot rows of top_states: the (at most) ten with the largest absolute change, largest first. */
  function TopShifts(shifts: seq<Shift>): (r: seq<Shift>)
    ensures |r| == if |shifts| < 10 then |shifts| else 10
    ensures forall x :: x in r ==> x in shifts
    ensures Sorting.SortedDesc(r, AbsDelta)
  {
    var sorted := Sorting.SortDesc(shifts, AbsDelta);
    var r := sorted[..if |sorted| < 10 then |sorted| else 10];
    assert forall x :: x in r ==> x in multiset(sorted);
    r
  }

  /** top_states: the states of those rows. */
  function TopStates(shifts: seq<Shift>): (r: seq<string>)
    ensures |r| <= 10 && forall k :: k in r ==> exists x :: x in shifts && x.key == k
  {
    var top := TopShifts(shifts);
    assert forall i :: 0 <= i < |top| ==> top[i] in shifts;
    Keys(top)
  }

  /** No state left out of the top ten moved more than one in it. */
  lemma TopShiftsDominate(shifts: seq<Shift>, x: Shift, y: Shift)
    requires x in TopShifts(shifts) && y in shifts && y !in TopShifts(shifts)
    ensures Abs(x.delta) >= Abs(y.delta)
  {
    var sorted := Sorting.SortDesc(shifts, AbsDelta);
    var n := |TopShifts(shifts)|;
    assert TopShifts(shifts) == sorted[..n];
    assert y in multiset(sorted);
    assert sorted == sorted[..n] + sorted[n..];
    assert y in sorted[n..];
    Sorting.TopDominates(sorted, AbsDelta, n, x, y);
  }
}
