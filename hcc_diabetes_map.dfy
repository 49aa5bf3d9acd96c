// County diabetes prevalence from CDC PLACES, the proxy for the CMS-HCC v28
// diabetes categories: the clean-up of the downloaded table (column names,
// prevalence column, five-digit county FIPS codes) and the choice of the
// counties the caption lists.
module HccDiabetesMap {
  import opened Common
  import Sorting

  // ---------------------------------------------------------------------------
  // Column names
  // ---------------------------------------------------------------------------

  function Snake(c: char): char { if c == ' ' then '_' else c }

  /** A column name as the cleaned table spells it. */
  predicate CleanName(s: string)
  {
    && Lacks(s, ' ')
    && (forall i :: 0 <= i < |s| ==> !('A' <= s[i] <= 'Z'))
    && (s == [] || (!IsSpace(s[0]) && !IsSpace(s[|s| - 1])))
  }

  /** `t.lower().replace(" ", "_")` */
  function Snaked(t: string): (r: string)
    ensures |r| == |t| && forall i :: 0 <= i < |t| ==> r[i] == Snake(LowerChar(t[i]))
  {
    seq(|t|, i requires 0 <= i < |t| => Snake(LowerChar(t[i])))
  }

  /** `c.strip().lower().replace(" ", "_")` */
  function ColumnKey(c: string): (r: string)
    ensures CleanName(r)
    ensures |r| <= |c|
  {
    var t := Strip(c);
    forall i | 0 <= i < |t| {
      SnakeLowerChar(t[i]);
    }
    Snaked(t)
  }

  lemma SnakeLowerChar(x: char)
    ensures var y := Snake(LowerChar(x));
            y != ' ' && !('A' <= y <= 'Z') && (!IsSpace(x) ==> !IsSpace(y))
  {
  }

  /** A name already in clean form is kept as it is, so cleaning twice changes nothing. */
  lemma ColumnKeyFixed(c: string)
    requires CleanName(c)
    ensures ColumnKey(c) == c
  {
    assert Strip(c) == c;
    forall i | 0 <= i < |c|
      ensures Snaked(c)[i] == c[i]
    {
      assert c[i] != ' ' && !('A' <= c[i] <= 'Z');
    }
  }

  lemma ColumnKeyIdempotent(c: string)
    ensures ColumnKey(ColumnKey(c)) == ColumnKey(c)
  {
    ColumnKeyFixed(ColumnKey(c));
  }

  /** Lower-casing before cleaning changes nothing. */
  lemma SnakedLower(t: string)
    ensures Snaked(Lower(t)) == Snaked(t)
  {
    var u := Lower(t);
    forall i | 0 <= i < |t|
      ensures Snaked(u)[i] == Snaked(t)[i]
    {
      LowerCharTwice(t[i]);
    }
  }

  /** The case of a header does not matter. */
  lemma ColumnKeyIgnoresCase(c: string)
    ensures ColumnKey(Lower(c)) == ColumnKey(c)
  {
    StripLeftLower(c);
    StripRightLower(StripLeft(c));
    assert Strip(Lower(c)) == Lower(Strip(c));
    SnakedLower(Strip(c));
  }

  lemma LowerCharTwice(x: char)
    ensures LowerChar(LowerChar(x)) == LowerChar(x)
  {
  }

  /** Position of the first column called `name`. */
  function ColumnIndex(keys: seq<string>, name: string): (r: Option<nat>)
    ensures r.None? <==> name !in keys
    ensures r.Some? ==> r.value < |keys| && keys[r.value] == name && name !in keys[..r.value]
  {
    if keys == [] then None
    else if keys[0] == name then Some(0)
    else
      match ColumnIndex(keys[1..], name)
      case None => None
      case Some(j) =>
        assert keys[..j + 1] == [keys[0]] + keys[1..][..j];
        Some(j + 1)
  }

  // ---------------------------------------------------------------------------
  // Prevalence column
  // ---------------------------------------------------------------------------

  const AdjPrev := "diabetes_adjprev"
  const CrudePrev := "diabetes_crudeprev"

  /** The age-adjusted prevalence if the table has it, else the crude one, else a ValueError. */
  function PrevalenceColumn(keys: seq<string>): (r: Result<string>)
    ensures r.Err? <==> AdjPrev !in keys && CrudePrev !in keys
    ensures r.Ok? ==> r.value in keys && (r.value == AdjPrev || r.value == CrudePrev)
    ensures r.Ok? && r.value == CrudePrev ==> AdjPrev !in keys
  {
    if AdjPrev in keys then Ok(AdjPrev)
    else if CrudePrev in keys then Ok(CrudePrev)
    else Err("ValueError")
  }

  // ---------------------------------------------------------------------------
  // County FIPS codes
  // ---------------------------------------------------------------------------

  /** `astype(str)` of a cell: an empty cell reads "nan". */
  function CellText(cell: Option<string>): string
  {
    match cell
    case None => "nan"
    case Some(s) => s
  }

  /** `str.zfill(5)` of the FIPS text, kept iff the padded code has five characters. */
  function FipsCode(cell: Option<string>): (r: Option<string>)
    ensures r.Some? <==> |CellText(cell)| <= 5
    ensures r.Some? ==> |r.value| == 5
  {
    var p := ZFill(CellText(cell), 5);
    assert |p| == 5 <==> |CellText(cell)| <= 5;
    if |p| == 5 then Some(p) else None
  }

  /** A code of one to five digits is padded to five digits that spell the same county number. */
  lemma FipsCodeDigits(s: string)
    requires 0 < |s| <= 5 && AllDigits(s)
    ensures var r := FipsCode(Some(s));
            r.Some? && AllDigits(r.value) && ParseNat(r.value) == ParseNat(s)
  {
    ZFillDigits(s, 5);
  }

  /** An empty FIPS cell is not dropped: "nan" pads to "00nan", which has five characters. */
  lemma MissingFipsKept()
    ensures FipsCode(None) == Some("00nan")
  {
    var n := "nan";
    assert |n| == 3 && n[0] == 'n';
    assert Zeros(2) == "0" + Zeros(1) == "00";
    assert ZFill(n, 5) == Zeros(2) + n;
    assert "00" + n == "00nan";
  }

  // ---------------------------------------------------------------------------
  // The cleaned table
  // ---------------------------------------------------------------------------

  /** A raw CSV table: its header and, per row, its cells (None for an empty cell). */
  datatype Table = Table(header: seq<string>, rows: seq<seq<Option<string>>>)

  /** A row of the kept columns, the population already coerced to a number (None for NaN). */
  datatype County = County(fips: string, name: Option<string>, state: Option<string>,
                           population: Option<real>, prevalence: real, year: int)

  /** Where the kept columns sit in the cleaned header. */
  datatype Layout = Layout(fips: nat, name: nat, state: nat, population: nat, prevalence: nat)

  /** A cell of a row; a short row reads as empty. */
  function Cell(row: seq<Option<string>>, j: nat): Option<string>
  {
    if j < |row| then row[j] else None
  }

  /** `pd.to_numeric(..., errors="coerce")`, None standing for NaN. */
  function Numeric(cell: Option<string>): Option<real>
  {
    match cell
    case None => None
    case Some(s) => ParseDecimal(s)
  }

  /** One raw row after the FIPS filter and the prevalence `dropna`. */
  function RowCounty(at: Layout, year: int, row: seq<Option<string>>): (r: Option<County>)
    ensures r.Some? <==> FipsCode(Cell(row, at.fips)).Some? && Numeric(Cell(row, at.prevalence)).Some?
    ensures r.Some? ==> r.value.fips == ZFill(CellText(Cell(row, at.fips)), 5)
                        && Numeric(Cell(row, at.prevalence)) == Some(r.value.prevalence)
                        && r.value.name == Cell(row, at.name) && r.value.state == Cell(row, at.state)
                        && r.value.population == Numeric(Cell(row, at.population)) && r.value.year == year
  {
    match FipsCode(Cell(row, at.fips))
    case None => None
    case Some(code) =>
      match Numeric(Cell(row, at.prevalence))
      case None => None
      case Some(p) => Some(County(code, Cell(row, at.name), Cell(row, at.state), Numeric(Cell(row, at.population)), p, year))
  }

  function Keys(header: seq<string>): (r: seq<string>)
    ensures |r| == |header| && forall i :: 0 <= i < |header| ==> r[i] == ColumnKey(header[i])
  {
    seq(|header|, i requires 0 <= i < |header| => ColumnKey(header[i]))
  }

  /** The kept columns' positions: a ValueError without a prevalence column, a KeyError without a kept column. */
  function LayoutOf(keys: seq<string>): (r: Result<Layout>)
    ensures r.Err? <==> PrevalenceColumn(keys).Err?
                        || "countyfips" !in keys || "countyname" !in keys
                        || "stateabbr" !in keys || "totalpopulation" !in keys
    ensures r.Err? && PrevalenceColumn(keys).Err? ==> r.error == "ValueError"
    ensures r.Ok? ==> && r.value.fips < |keys| && r.value.name < |keys| && r.value.state < |keys|
                      && r.value.population < |keys| && r.value.prevalence < |keys|
                      && keys[r.value.fips] == "countyfips" && keys[r.value.name] == "countyname"
                      && keys[r.value.state] == "stateabbr" && keys[r.value.population] == "totalpopulation"
                      && keys[r.value.prevalence] == PrevalenceColumn(keys).value
  {
    match PrevalenceColumn(keys)
    case Err(e) => Err(e)
    case Ok(p) =>
      var f, n, s, t := ColumnIndex(keys, "countyfips"), ColumnIndex(keys, "countyname"),
                        ColumnIndex(keys, "stateabbr"), ColumnIndex(keys, "totalpopulation");
      if f.None? || n.None? || s.None? || t.None? then Err("KeyError")
      else Ok(Layout(f.value, n.value, s.value, t.value, ColumnIndex(keys, p).value))
  }

  /** fetch_places_diabetes after the download: the rows that survive, in table order. */
  function PlacesCounties(t: Table, year: int): (r: Result<seq<County>>)
    ensures r.Err? <==> LayoutOf(Keys(t.header)).Err?
    ensures r.Ok? ==> |r.value| <= |t.rows|
  {
    match LayoutOf(Keys(t.header))
    case Err(e) => Err(e)
    case Ok(at) => Ok(Collect(t.rows, row => RowCounty(at, year, row)))
  }

  /** A row becomes a county exactly when its padded FIPS has five characters and its prevalence is numeric. */
  lemma PlacesRowKept(t: Table, year: int, c: County)
    requires LayoutOf(Keys(t.header)).Ok?
    ensures var at := LayoutOf(Keys(t.header)).value;
            c in PlacesCounties(t, year).value <==>
              exists i :: 0 <= i < |t.rows| && RowCounty(at, year, t.rows[i]) == Some(c)
  {
    var at := LayoutOf(Keys(t.header)).value;
    CollectMembers(t.rows, row => RowCounty(at, year, row), c);
  }

  /** Every surviving county has a five-character FIPS code. */
  lemma PlacesCodesHaveFiveChars(t: Table, year: int, c: County)
    requires PlacesCounties(t, year).Ok? && c in PlacesCounties(t, year).value
    ensures |c.fips| == 5
  {
    PlacesRowKept(t, year, c);
  }

  /** A table whose every row has a code of at most five characters and a numeric prevalence loses no row. */
  lemma PlacesKeepsCleanRows(t: Table, year: int)
    requires LayoutOf(Keys(t.header)).Ok?
    requires var at := LayoutOf(Keys(t.header)).value;
             forall i :: 0 <= i < |t.rows| ==>
               |CellText(Cell(t.rows[i], at.fips))| <= 5 && Numeric(Cell(t.rows[i], at.prevalence)).Some?
    ensures |PlacesCounties(t, year).value| == |t.rows|
  {
    var at := LayoutOf(Keys(t.header)).value;
    var f := row => RowCounty(at, year, row);
    forall i | 0 <= i < |t.rows|
      ensures f(t.rows[i]).Some?
    {
      var row := t.rows[i];
      assert FipsCode(Cell(row, at.fips)).Some?;
    }
    CollectTotal(t.rows, f);
    assert PlacesCounties(t, year).value == Collect(t.rows, f);
  }

  /** main: an empty cleaned table stops the program. */
  function MapCounties(t: Table, year: int): (r: Result<seq<County>>)
    ensures r.Ok? <==> PlacesCounties(t, year).Ok? && PlacesCounties(t, year).value != []
    ensures r.Ok? ==> r.value == PlacesCounties(t, year).value
    ensures PlacesCounties(t, year).Ok? && r.Err? ==> r.error == "SystemExit"
  {
    match PlacesCounties(t, year)
    case Err(e) => Err(e)
    case Ok(cs) => if cs == [] then Err("SystemExit") else Ok(cs)
  }

  // ---------------------------------------------------------------------------
  // The caption's counties
  // ---------------------------------------------------------------------------

  const PopThreshold := 10000.0
  const ListSize := 10

  /** `pd.to_numeric(totalpopulation, errors="coerce").fillna(0)` */
  function Population(c: County): real
  {
    match c.population
    case None => 0.0
    case Some(p) => p
  }

  predicate Stable(c: County) { Population(c) > PopThreshold }

  function Prevalence(c: County): real { c.prevalence }

  /** The counties the caption ranks: those above the population threshold, or all if none is. */
  function CaptionPool(cs: seq<County>): (r: seq<County>)
  {
    var s := Filter(cs, Stable);
    if s == [] then cs else s
  }

  /** The pool keeps every large county when there is one, and falls back to the whole table otherwise. */
  lemma CaptionPoolChoice(cs: seq<County>)
    ensures (exists c :: c in cs && Stable(c)) ==>
              forall c :: c in CaptionPool(cs) <==> c in cs && Stable(c)
    ensures (forall c :: c in cs ==> !Stable(c)) ==> CaptionPool(cs) == cs
    ensures CaptionPool(cs) == [] <==> cs == []
  {
    var s := Filter(cs, Stable);
    if s == [] {
      assert CaptionPool(cs) == cs;
      assert forall c :: c in cs && Stable(c) ==> c in s;
    } else {
      assert CaptionPool(cs) == s;
      assert s[0] in s;
    }
  }

  function Take<T>(s: seq<T>, n: nat): (r: seq<T>)
    ensures |r| == if |s| < n then |s| else n
    ensures r == s[..|r|]
  {
    if |s| < n then s else s[..n]
  }

  /** `nlargest(10, "diabetes_prevalence")`: ties keep table order. */
  function Highest(cs: seq<County>): (r: seq<County>)
  {
    Take(Sorting.SortDesc(CaptionPool(cs), Prevalence), ListSize)
  }

  /** `nsmallest(10, "diabetes_prevalence")`: ties keep table order. */
  function Lowest(cs: seq<County>): (r: seq<County>)
  {
    Take(Sorting.SortAsc(CaptionPool(cs), Prevalence), ListSize)
  }

  /** The two lists of the caption. */
  datatype Caption = Caption(highest: seq<County>, lowest: seq<County>)

  function FormatCaption(cs: seq<County>): (r: Caption)
    ensures |r.highest| == |r.lowest| <= ListSize
    ensures |r.highest| == if |CaptionPool(cs)| < ListSize then |CaptionPool(cs)| else ListSize
    ensures forall i, j :: 0 <= i < j < |r.highest| ==> r.highest[i].prevalence >= r.highest[j].prevalence
    ensures forall i, j :: 0 <= i < j < |r.lowest| ==> r.lowest[i].prevalence <= r.lowest[j].prevalence
  {
    Caption(Highest(cs), Lowest(cs))
  }

  /** Every listed county comes from the pool. */
  lemma CaptionFromPool(cs: seq<County>, c: County)
    ensures c in FormatCaption(cs).highest ==> c in CaptionPool(cs)
    ensures c in FormatCaption(cs).lowest ==> c in CaptionPool(cs)
  {
    var d := Sorting.SortDesc(CaptionPool(cs), Prevalence);
    var a := Sorting.SortAsc(CaptionPool(cs), Prevalence);
    if c in Highest(cs) {
      assert c in d;
      assert c in multiset(d);
    }
    if c in Lowest(cs) {
      assert c in a;
      assert c in multiset(a);
    }
  }

  /** No county of the pool left off the top list has a higher prevalence than one on it. */
  lemma HighestDominates(cs: seq<County>, x: County, y: County)
    requires var d := Sorting.SortDesc(CaptionPool(cs), Prevalence);
             x in Highest(cs) && y in d[|Highest(cs)|..]
    ensures x.prevalence >= y.prevalence
  {
    var d := Sorting.SortDesc(CaptionPool(cs), Prevalence);
    Sorting.TopDominates(d, Prevalence, |Highest(cs)|, x, y);
  }

  /** No county of the pool left off the bottom list has a lower prevalence than one on it. */
  lemma LowestDominated(cs: seq<County>, x: County, y: County)
    requires var a := Sorting.SortAsc(CaptionPool(cs), Prevalence);
             x in Lowest(cs) && y in a[|Lowest(cs)|..]
    ensures x.prevalence <= y.prevalence
  {
    var a := Sorting.SortAsc(CaptionPool(cs), Prevalence);
    var n := |Lowest(cs)|;
    var i :| 0 <= i < n && a[..n][i] == x;
    var j :| 0 <= j < |a| - n && a[n..][j] == y;
    assert a[i] == x && a[n + j] == y;
  }

  /** With at most ten counties in the pool, both lists hold all of them. */
  lemma SmallPoolListsAll(cs: seq<County>)
    requires |CaptionPool(cs)| <= ListSize
    ensures multiset(FormatCaption(cs).highest) == multiset(CaptionPool(cs))
    ensures multiset(FormatCaption(cs).lowest) == multiset(CaptionPool(cs))
  {
    var pool := CaptionPool(cs);
    assert Highest(cs) == Sorting.SortDesc(pool, Prevalence);
    assert Lowest(cs) == Sorting.SortAsc(pool, Prevalence);
  }
}
