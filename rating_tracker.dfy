// The CMS star-rating tracker: normalises the provider CSV, compares each
// facility's two latest processing dates, keeps a de-duplicated history and
// summarises recent trends.
module RatingTracker {
  import opened Common

  // ---------------------------------------------------------------------------
  // Calendar dates
  // ---------------------------------------------------------------------------

  datatype Date = Date(year: int, month: int, day: int)

  predicate LeapYear(y: int) { y % 4 == 0 && (y % 100 != 0 || y % 400 == 0) }

  function DaysInMonth(year: int, month: int): int
  {
    if month == 2 then (if LeapYear(year) then 29 else 28)
    else if month == 4 || month == 6 || month == 9 || month == 11 then 30
    else 31
  }

  /** The dates Python's `datetime.date` can hold. */
  predicate ValidDate(d: Date)
  {
    1 <= d.year <= 9999 && 1 <= d.month <= 12 && 1 <= d.day <= DaysInMonth(d.year, d.month)
  }

  /**
   * A date whose fields are in range; whether the day exists in that month is
   * checked where dates are read (ParseIsoDate).
   */
  type CalendarDate = d: Date | 1 <= d.year <= 9999 && 1 <= d.month <= 12 && 1 <= d.day <= 31
    witness Date(1970, 1, 1)

  /** A number that orders valid dates chronologically. */
  function Ordinal(d: Date): int { d.year * 10000 + d.month * 100 + d.day }

  /** Ordinal order is calendar order, and equal ordinals mean equal dates. */
  lemma OrdinalOrder(a: CalendarDate, b: CalendarDate)
    ensures Ordinal(a) < Ordinal(b) <==>
            a.year < b.year || (a.year == b.year && (a.month < b.month || (a.month == b.month && a.day < b.day)))
    ensures Ordinal(a) == Ordinal(b) <==> a == b
  {
  }

  /** `date.isoformat()`: YYYY-MM-DD. */
  function IsoDate(d: CalendarDate): (s: string)
    ensures |s| == 10 && s[4] == '-' && s[7] == '-'
  {
    NatStrLength(d.year, 4);
    NatStrLength(d.month, 2);
    NatStrLength(d.day, 2);
    ZFill(NatStr(d.year), 4) + "-" + ZFill(NatStr(d.month), 2) + "-" + ZFill(NatStr(d.day), 2)
  }

  function Pow10Nat(k: nat): nat
  {
    if k == 0 then 1 else 10 * Pow10Nat(k - 1)
  }

  lemma {:induction false} NatStrLength(n: nat, k: nat)
    requires 1 <= k && n < Pow10Nat(k)
    ensures |NatStr(n)| <= k
  {
    if n >= 10 {
      NatStrLength(n / 10, k - 1);
    }
  }

  /** `pd.to_datetime(text, errors="coerce")` for ISO dates; anything else is NaT. */
  function ParseIsoDate(s: string): (r: Option<CalendarDate>)
    ensures r.Some? ==> |s| == 10 && ValidDate(r.value)
  {
    if |s| == 10 && s[4] == '-' && s[7] == '-'
       && AllDigits(s[..4]) && AllDigits(s[5..7]) && AllDigits(s[8..]) then
      var d := Date(DigitsValue(s[..4]), DigitsValue(s[5..7]), DigitsValue(s[8..]));
      if ValidDate(d) then Some(d) else None
    else None
  }

  lemma PaddedValue(n: nat, width: nat)
    requires |NatStr(n)| <= width
    ensures var p := ZFill(NatStr(n), width);
            |p| == width && AllDigits(p) && DigitsValue(p) == n
  {
    DigitsValueOfNatStr(n);
    ZFillDigits(NatStr(n), width);
  }

  /** Reading back an ISO date gives the date back. */
  lemma IsoDateRoundTrip(d: CalendarDate)
    requires ValidDate(d)
    ensures ParseIsoDate(IsoDate(d)) == Some(d)
  {
    NatStrLength(d.year, 4);
    NatStrLength(d.month, 2);
    NatStrLength(d.day, 2);
    var y, m, dd := ZFill(NatStr(d.year), 4), ZFill(NatStr(d.month), 2), ZFill(NatStr(d.day), 2);
    PaddedValue(d.year, 4);
    PaddedValue(d.month, 2);
    PaddedValue(d.day, 2);
    var s := IsoDate(d);
    assert s == y + "-" + m + "-" + dd;
    assert s[..4] == y && s[5..7] == m && s[8..] == dd;
  }

  // ---------------------------------------------------------------------------
  // The raw CSV and its normalisation
  // ---------------------------------------------------------------------------

  /** A CSV as read: its header and, per row, the non-empty cells by column name. */
  datatype RawTable = RawTable(columns: seq<string>, rows: seq<map<string, string>>)

  const CcnCsvColumn: string := "CMS Certification Number (CCN)"

  /** The column_mapping of normalize_data; other names are kept. */
  function Rename(c: string): string
  {
    if c == CcnCsvColumn then "federal_provider_number"
    else if c == "Provider Name" then "provider_name"
    else if c == "City/Town" then "city"
    else if c == "State" then "state"
    else if c == "Overall Rating" then "overall_rating"
    else if c == "Health Inspection Rating" then "health_inspection_rating"
    else if c == "QM Rating" then "quality_measures_rating"
    else if c == "Staffing Rating" then "staffing_rating"
    else if c == "Processing Date" then "month_year"
    else c
  }

  /** The header after renaming. */
  function Renamed(cols: seq<string>): (r: seq<string>)
    ensures |r| == |cols|
  {
    seq(|cols|, i requires 0 <= i < |cols| => Rename(cols[i]))
  }

  /** The CCN can be derived iff the CSV has the CCN column under its CSV or internal name. */
  lemma CcnColumnAfterRename(cols: seq<string>)
    ensures "federal_provider_number" in Renamed(cols) <==>
            CcnCsvColumn in cols || "federal_provider_number" in cols
  {
    var r := Renamed(cols);
    if "federal_provider_number" in r {
      var i :| 0 <= i < |r| && r[i] == "federal_provider_number";
      assert Rename(cols[i]) == "federal_provider_number";
    }
    if CcnCsvColumn in cols {
      var i :| 0 <= i < |cols| && cols[i] == CcnCsvColumn;
      assert r[i] == "federal_provider_number";
    }
    if "federal_provider_number" in cols {
      var i :| 0 <= i < |cols| && cols[i] == "federal_provider_number";
      assert r[i] == "federal_provider_number";
    }
  }

  /** The first CSV column that is renamed to `target`. */
  function SourceColumn(cols: seq<string>, target: string): (r: Option<string>)
    ensures r.Some? ==> r.value in cols && Rename(r.value) == target
    ensures r.None? ==> target !in Renamed(cols)
  {
    if cols == [] then None
    else if Rename(cols[0]) == target then Some(cols[0])
    else
      var rest := SourceColumn(cols[1..], target);
      RenamedTail(cols, target);
      rest
  }

  lemma RenamedTail(cols: seq<string>, target: string)
    requires |cols| > 0 && Rename(cols[0]) != target
    ensures target in Renamed(cols) ==> target in Renamed(cols[1..])
  {
    var r, t := Renamed(cols), Renamed(cols[1..]);
    if target in r {
      var i :| 0 <= i < |r| && r[i] == target;
      assert t[i - 1] == target;
    }
  }

  /** A cell of the renamed table; None for a missing column or an empty (NaN) cell. */
  function Cell(row: map<string, string>, cols: seq<string>, target: string): Option<string>
  {
    match SourceColumn(cols, target)
    case None => None
    case Some(c) => if c in row then Some(row[c]) else None
  }

  datatype RatingField = Overall | StaffingStar | QualityMeasures | HealthInspection

  /** RATING_LABELS, in its order. */
  const RatingFields: seq<RatingField> := [Overall, StaffingStar, QualityMeasures, HealthInspection]

  function ColumnOf(f: RatingField): string
  {
    match f
    case Overall => "overall_rating"
    case StaffingStar => "staffing_rating"
    case QualityMeasures => "quality_measures_rating"
    case HealthInspection => "health_inspection_rating"
  }

  function Label(f: RatingField): string
  {
    match f
    case Overall => "Overall"
    case StaffingStar => "Staffing"
    case QualityMeasures => "Quality Measures"
    case HealthInspection => "Health Inspection"
  }

  /** One normalised row. */
  datatype TrackedRow = TrackedRow(
    ccn: string, name: Option<string>, city: Option<string>, state: Option<string>,
    monthYear: CalendarDate,
    overall: Option<real>, staffing: Option<real>, qualityMeasures: Option<real>, healthInspection: Option<real>)

  function RatingOf(r: TrackedRow, f: RatingField): Option<real>
  {
    match f
    case Overall => r.overall
    case StaffingStar => r.staffing
    case QualityMeasures => r.qualityMeasures
    case HealthInspection => r.healthInspection
  }

  /** `pd.to_numeric(errors="coerce")`: a missing column or an unparsable cell is NA. */
  function NumericCell(row: map<string, string>, cols: seq<string>, target: string): Option<real>
  {
    match Cell(row, cols, target)
    case None => None
    case Some(t) => ParseDecimal(t)
  }

  /** The row's processing date; `now` when the CSV has no date column. */
  function RowDate(row: map<string, string>, cols: seq<string>, now: CalendarDate): (r: Option<CalendarDate>)
    ensures "month_year" !in Renamed(cols) ==> r == Some(now)
    ensures "month_year" in Renamed(cols) ==>
              (r.Some? <==> Cell(row, cols, "month_year").Some? && ParseIsoDate(Cell(row, cols, "month_year").value).Some?)
  {
    if "month_year" !in Renamed(cols) then Some(now)
    else match Cell(row, cols, "month_year")
      case None => None
      case Some(t) => ParseIsoDate(t)
  }

  /** One CSV row after normalisation, or None when it has no usable date. */
  function NormalizeRow(row: map<string, string>, cols: seq<string>, now: CalendarDate): (r: Option<TrackedRow>)
    ensures r.Some? <==> RowDate(row, cols, now).Some?
    ensures r.Some? ==> |r.value.ccn| >= 6
  {
    match RowDate(row, cols, now)
    case None => None
    case Some(d) =>
      var number := Cell(row, cols, "federal_provider_number");
      Some(TrackedRow(
        ZFill(if number.Some? then number.value else "nan", 6),
        Cell(row, cols, "provider_name"), Cell(row, cols, "city"), Cell(row, cols, "state"), d,
        NumericCell(row, cols, "overall_rating"), NumericCell(row, cols, "staffing_rating"),
        NumericCell(row, cols, "quality_measures_rating"), NumericCell(row, cols, "health_inspection_rating")))
  }

  /** The rows that survive `dropna(subset=["month_year"])`, in CSV order. */
  function DatedRows(rows: seq<map<string, string>>, cols: seq<string>, now: CalendarDate): (r: seq<TrackedRow>)
    ensures |r| <= |rows|
  {
    Collect(rows, row => NormalizeRow(row, cols, now))
  }

  /** A row is kept iff it is the normalisation of some CSV row with a usable date. */
  lemma DatedRowsOrigin(rows: seq<map<string, string>>, cols: seq<string>, now: CalendarDate, x: TrackedRow)
    ensures x in DatedRows(rows, cols, now) <==> exists i :: 0 <= i < |rows| && NormalizeRow(rows[i], cols, now) == Some(x)
    ensures x in DatedRows(rows, cols, now) ==> |x.ccn| >= 6
  {
    CollectMembers(rows, row => NormalizeRow(row, cols, now), x);
  }

  // Sorting by (ccn, month_year) -------------------------------------------

  predicate RowLe(a: TrackedRow, b: TrackedRow)
  {
    LexLe(a.ccn, b.ccn) && (a.ccn == b.ccn ==> Ordinal(a.monthYear) <= Ordinal(b.monthYear))
  }

  lemma RowLeTotal(a: TrackedRow, b: TrackedRow)
    ensures RowLe(a, b) || RowLe(b, a)
  {
    LexLeTotal(a.ccn, b.ccn);
    if LexLe(a.ccn, b.ccn) && LexLe(b.ccn, a.ccn) {
      LexLeAntisymmetric(a.ccn, b.ccn);
    }
  }

  lemma RowLeTransitive(a: TrackedRow, b: TrackedRow, c: TrackedRow)
    requires RowLe(a, b) && RowLe(b, c)
    ensures RowLe(a, c)
  {
    LexLeTransitive(a.ccn, b.ccn, c.ccn);
    if a.ccn == c.ccn {
      LexLeAntisymmetric(a.ccn, b.ccn);
    }
  }

  predicate SortedRows(s: seq<TrackedRow>)
  {
    forall i, j :: 0 <= i < j < |s| ==> RowLe(s[i], s[j])
  }

  /** Insert x after every row not above it (so equal rows keep their order). */
  function InsertRow(x: TrackedRow, s: seq<TrackedRow>): seq<TrackedRow>
  {
    if s == [] then [x]
    else if RowLe(s[|s| - 1], x) then s + [x]
    else InsertRow(x, s[..|s| - 1]) + [s[|s| - 1]]
  }

  /** Inserting keeps every row at or below an upper bound of x and of s. */
  lemma {:induction false} InsertRowBound(x: TrackedRow, s: seq<TrackedRow>, b: TrackedRow)
    requires RowLe(x, b) && forall i :: 0 <= i < |s| ==> RowLe(s[i], b)
    ensures var r := InsertRow(x, s); |r| == |s| + 1 && forall i :: 0 <= i < |r| ==> RowLe(r[i], b)
  {
    if s != [] && !RowLe(s[|s| - 1], x) {
      InsertRowBound(x, s[..|s| - 1], b);
    }
  }

  /** Inserting adds x and keeps the rest. */
  lemma {:induction false} InsertRowPerm(x: TrackedRow, s: seq<TrackedRow>)
    ensures var r := InsertRow(x, s);
            |r| == |s| + 1 && multiset(r) == multiset(s) + multiset{x}
  {
    if s != [] {
      var init, last := s[..|s| - 1], s[|s| - 1];
      MultisetSnoc(s);
      if !RowLe(last, x) {
        InsertRowPerm(x, init);
        MultisetSnoc(InsertRow(x, s));
        assert InsertRow(x, s)[..|s|] == InsertRow(x, init);
      }
    }
  }

  lemma AppendSorted(a: seq<TrackedRow>, y: TrackedRow)
    requires SortedRows(a) && forall i :: 0 <= i < |a| ==> RowLe(a[i], y)
    ensures SortedRows(a + [y])
  {
    var r := a + [y];
    forall i, j | 0 <= i < j < |r| ensures RowLe(r[i], r[j]) {
      assert r[i] == a[i];
      if j == |a| {
        assert r[j] == y;
      } else {
        assert r[j] == a[j];
      }
    }
  }

  /** Inserting into (ccn, month_year) order keeps that order. */
  lemma {:induction false} InsertRowSorted(x: TrackedRow, s: seq<TrackedRow>)
    requires SortedRows(s)
    ensures SortedRows(InsertRow(x, s))
  {
    if s == [] {
      assert InsertRow(x, s) == [x];
    } else {
      var init, last := s[..|s| - 1], s[|s| - 1];
      assert forall i :: 0 <= i < |init| ==> init[i] == s[i];
      assert forall i :: 0 <= i < |init| ==> RowLe(init[i], last);
      if RowLe(last, x) {
        forall i | 0 <= i < |s| ensures RowLe(s[i], x) {
          if i < |s| - 1 {
            RowLeTransitive(s[i], last, x);
          }
        }
        AppendSorted(s, x);
      } else {
        RowLeTotal(last, x);
        assert SortedRows(init);
        InsertRowSorted(x, init);
        InsertRowBound(x, init, last);
        AppendSorted(InsertRow(x, init), last);
      }
    }
  }

  /** `sort_values(["ccn", "month_year"])`. */
  function SortRows(s: seq<TrackedRow>): seq<TrackedRow>
  {
    if s == [] then [] else InsertRow(s[|s| - 1], SortRows(s[..|s| - 1]))
  }

  /** The sorted table is a permutation of the table, ordered by (ccn, month_year). */
  lemma SortRowsSpec(s: seq<TrackedRow>)
    ensures var r := SortRows(s); |r| == |s| && multiset(r) == multiset(s) && SortedRows(r)
  {
    SortRowsPerm(s);
    SortRowsSorted(s);
  }

  lemma {:induction false} SortRowsPerm(s: seq<TrackedRow>)
    ensures var r := SortRows(s); |r| == |s| && multiset(r) == multiset(s)
  {
    if s != [] {
      var init := s[..|s| - 1];
      SortRowsPerm(init);
      InsertRowPerm(s[|s| - 1], SortRows(init));
      MultisetSnoc(s);
    }
  }

  lemma {:induction false} SortRowsSorted(s: seq<TrackedRow>)
    ensures SortedRows(SortRows(s))
  {
    if s != [] {
      var init := s[..|s| - 1];
      SortRowsSorted(init);
      InsertRowSorted(s[|s| - 1], SortRows(init));
    }
  }

  predicate HasCcnColumn(cols: seq<string>) { "federal_provider_number" in Renamed(cols) }

  /**
   * normalize_data: rename, derive the 6-character CCN, parse dates and drop
   * undated rows, coerce ratings, sort by (ccn, month_year).
   */
  function NormalizeData(t: RawTable, now: CalendarDate): (r: seq<TrackedRow>)
    ensures t.rows == [] || !HasCcnColumn(t.columns) ==> r == []
    ensures t.rows != [] && HasCcnColumn(t.columns) ==> multiset(r) == multiset(DatedRows(t.rows, t.columns, now))
    ensures SortedRows(r)
    ensures forall x :: x in r ==> |x.ccn| >= 6
  {
    if t.rows == [] || !HasCcnColumn(t.columns) then []
    else
      var r := SortRows(DatedRows(t.rows, t.columns, now));
      SortRowsSpec(DatedRows(t.rows, t.columns, now));
      forall x | x in r ensures |x.ccn| >= 6 {
        assert x in multiset(r);
        DatedRowsOrigin(t.rows, t.columns, now, x);
      }
      r
  }

  // ---------------------------------------------------------------------------
  // Change detection
  // ---------------------------------------------------------------------------

  datatype RatingChange = RatingChange(
    ccn: string, providerName: Option<string>, city: Option<string>, state: Option<string>,
    asOfDate: string, changes: seq<string>, previousDate: string)

  const UpArrow: char := '\U{2191}'
  const DownArrow: char := '\U{2193}'

  /** `int(x)` shown in decimal. */
  function IntText(x: real): string { IntStr(Trunc(x)) }

  /** The change string of one rating, when both values are present and differ. */
  function ChangeLine(f: RatingField, before: Option<real>, after: Option<real>): seq<string>
  {
    if before.Some? && after.Some? && before.value != after.value then
      var arrow := if after.value > before.value then UpArrow else DownArrow;
      var move := IntText(before.value) + "\U{2192}" + IntText(after.value) + " " + [arrow];
      [Label(f) + ": " + move]
    else []
  }

  /**
   * One line at most; a line iff both values are present and differ; it starts
   * with the rating's label and ends with an up arrow iff the rating rose.
   */
  lemma ChangeLineSpec(f: RatingField, before: Option<real>, after: Option<real>)
    ensures var lines := ChangeLine(f, before, after);
            |lines| <= 1
            && (|lines| == 1 <==> before.Some? && after.Some? && before.value != after.value)
            && (|lines| == 1 ==> Label(f) + ": " <= lines[0])
            && (|lines| == 1 ==>
                  lines[0][|lines[0]| - 1] == (if after.value > before.value then UpArrow else DownArrow))
  {
    if before.Some? && after.Some? && before.value != after.value {
      var arrow := if after.value > before.value then UpArrow else DownArrow;
      var head := Label(f) + ": ";
      var move := IntText(before.value) + "\U{2192}" + IntText(after.value) + " " + [arrow];
      assert ChangeLine(f, before, after) == [head + move];
      assert move[|move| - 1] == arrow;
      assert (head + move)[|head + move| - 1] == arrow;
    }
  }

  /** The change strings of the listed ratings, in order. */
  function FieldLines(fields: seq<RatingField>, prev: TrackedRow, curr: TrackedRow): seq<string>
  {
    if fields == [] then []
    else
      var f := fields[|fields| - 1];
      FieldLines(fields[..|fields| - 1], prev, curr) + ChangeLine(f, RatingOf(prev, f), RatingOf(curr, f))
  }

  /** Rating f is present in both rows and differs between them. */
  predicate Moves(f: RatingField, prev: TrackedRow, curr: TrackedRow)
  {
    RatingOf(prev, f).Some? && RatingOf(curr, f).Some? && RatingOf(prev, f).value != RatingOf(curr, f).value
  }

  /** A facility has a change line iff one of its ratings is present in both rows and differs. */
  lemma {:induction false} FieldLinesEmpty(fields: seq<RatingField>, prev: TrackedRow, curr: TrackedRow)
    ensures FieldLines(fields, prev, curr) == [] <==> forall i :: 0 <= i < |fields| ==> !Moves(fields[i], prev, curr)
  {
    if fields != [] {
      var init := fields[..|fields| - 1];
      var f := fields[|fields| - 1];
      var before, line := FieldLines(init, prev, curr), ChangeLine(f, RatingOf(prev, f), RatingOf(curr, f));
      assert FieldLines(fields, prev, curr) == before + line;
      FieldLinesEmpty(init, prev, curr);
      ChangeLineSpec(f, RatingOf(prev, f), RatingOf(curr, f));
      assert line == [] <==> !Moves(f, prev, curr);
      assert forall i :: 0 <= i < |init| ==> init[i] == fields[i];
    }
  }

  /** The distinct CCNs in order of first appearance (the groups of `groupby("ccn")`). */
  function GroupKeys(rows: seq<TrackedRow>): (k: seq<string>)
    ensures forall i, j :: 0 <= i < j < |k| ==> k[i] != k[j]
  {
    if rows == [] then []
    else
      var k := GroupKeys(rows[..|rows| - 1]);
      var c := rows[|rows| - 1].ccn;
      if c in k then k else k + [c]
  }

  predicate HasRowFor(rows: seq<TrackedRow>, ccn: string)
  {
    exists i :: 0 <= i < |rows| && rows[i].ccn == ccn
  }

  /** The groups are exactly the CCNs that occur. */
  lemma {:induction false} GroupKeysMembers(rows: seq<TrackedRow>, ccn: string)
    ensures ccn in GroupKeys(rows) <==> HasRowFor(rows, ccn)
  {
    if rows != [] {
      var init := rows[..|rows| - 1];
      GroupKeysMembers(init, ccn);
      if HasRowFor(init, ccn) {
        var i :| 0 <= i < |init| && init[i].ccn == ccn;
        assert rows[i] == init[i];
      }
      if i :| 0 <= i < |rows| && rows[i].ccn == ccn {
        if i < |init| {
          assert init[i] == rows[i];
        }
      }
    }
  }

  /** On a table sorted by CCN the groups come in ascending CCN order, as groupby visits them. */
  lemma {:induction false} GroupKeysAscending(rows: seq<TrackedRow>)
    requires SortedRows(rows)
    ensures var k := GroupKeys(rows); forall i, j :: 0 <= i < j < |k| ==> LexLe(k[i], k[j])
  {
    if rows != [] {
      var init := rows[..|rows| - 1];
      var last := rows[|rows| - 1];
      assert SortedRows(init) by {
        forall i, j | 0 <= i < j < |init| ensures RowLe(init[i], init[j]) {
          assert init[i] == rows[i] && init[j] == rows[j];
        }
      }
      GroupKeysAscending(init);
      var k := GroupKeys(init);
      forall i | 0 <= i < |k| ensures LexLe(k[i], last.ccn) {
        GroupKeysMembers(init, k[i]);
        var m :| 0 <= m < |init| && init[m].ccn == k[i];
        assert RowLe(rows[m], last);
      }
    }
  }

  /** The rows of one facility, in table order. */
  function GroupOf(rows: seq<TrackedRow>, ccn: string): seq<TrackedRow>
  {
    Filter(rows, (r: TrackedRow) => r.ccn == ccn)
  }

  /** A facility's group holds exactly the rows with its CCN. */
  lemma GroupOfMembers(rows: seq<TrackedRow>, ccn: string, x: TrackedRow)
    ensures x in GroupOf(rows, ccn) <==> x in rows && x.ccn == ccn
  {
  }

  /** A facility has rows iff its group is not empty. */
  lemma GroupOfNonEmpty(rows: seq<TrackedRow>, ccn: string)
    ensures HasRowFor(rows, ccn) <==> |Chronological(GroupOf(rows, ccn))| > 0
  {
    var g := GroupOf(rows, ccn);
    ChronologicalSpec(g);
    if i :| 0 <= i < |rows| && rows[i].ccn == ccn {
      GroupOfMembers(rows, ccn, rows[i]);
    }
    if |g| > 0 {
      GroupOfMembers(rows, ccn, g[0]);
    }
  }

  predicate DateOrdered(s: seq<TrackedRow>)
  {
    forall i, j :: 0 <= i < j < |s| ==> Ordinal(s[i].monthYear) <= Ordinal(s[j].monthYear)
  }

  /** Insert x after every row dated no later than it. */
  function InsertByDate(x: TrackedRow, s: seq<TrackedRow>): seq<TrackedRow>
  {
    if s == [] then [x]
    else if Ordinal(s[|s| - 1].monthYear) <= Ordinal(x.monthYear) then s + [x]
    else InsertByDate(x, s[..|s| - 1]) + [s[|s| - 1]]
  }

  lemma {:induction false} InsertByDateBound(x: TrackedRow, s: seq<TrackedRow>, b: int)
    requires Ordinal(x.monthYear) <= b && forall i :: 0 <= i < |s| ==> Ordinal(s[i].monthYear) <= b
    ensures var r := InsertByDate(x, s);
            |r| == |s| + 1 && forall i :: 0 <= i < |r| ==> Ordinal(r[i].monthYear) <= b
  {
    if s != [] && Ordinal(s[|s| - 1].monthYear) > Ordinal(x.monthYear) {
      InsertByDateBound(x, s[..|s| - 1], b);
    }
  }

  /** Inserting adds x and keeps the rest. */
  lemma {:induction false} InsertByDatePerm(x: TrackedRow, s: seq<TrackedRow>)
    ensures var r := InsertByDate(x, s);
            |r| == |s| + 1 && multiset(r) == multiset(s) + multiset{x}
  {
    if s != [] {
      var init, last := s[..|s| - 1], s[|s| - 1];
      assert s == init + [last];
      if Ordinal(last.monthYear) > Ordinal(x.monthYear) {
        InsertByDatePerm(x, init);
      }
    }
  }

  lemma AppendOrdered(a: seq<TrackedRow>, y: TrackedRow)
    requires DateOrdered(a) && forall i :: 0 <= i < |a| ==> Ordinal(a[i].monthYear) <= Ordinal(y.monthYear)
    ensures DateOrdered(a + [y])
  {
    var r := a + [y];
    forall i, j | 0 <= i < j < |r| ensures Ordinal(r[i].monthYear) <= Ordinal(r[j].monthYear) {
      assert r[i] == a[i];
      if j == |a| {
        assert r[j] == y;
      } else {
        assert r[j] == a[j];
      }
    }
  }

  /** Inserting into date order keeps date order. */
  lemma {:induction false} InsertByDateOrdered(x: TrackedRow, s: seq<TrackedRow>)
    requires DateOrdered(s)
    ensures DateOrdered(InsertByDate(x, s))
  {
    if s == [] {
      assert InsertByDate(x, s) == [x];
    } else {
      var init, last := s[..|s| - 1], s[|s| - 1];
      assert forall i :: 0 <= i < |init| ==> init[i] == s[i];
      assert forall i :: 0 <= i < |init| ==> Ordinal(init[i].monthYear) <= Ordinal(last.monthYear);
      if Ordinal(last.monthYear) <= Ordinal(x.monthYear) {
        AppendOrdered(s, x);
      } else {
        assert DateOrdered(init);
        InsertByDateOrdered(x, init);
        InsertByDateBound(x, init, Ordinal(last.monthYear));
        AppendOrdered(InsertByDate(x, init), last);
      }
    }
  }

  /** `group.sort_values("month_year")`, keeping rows of equal date in table order. */
  function Chronological(g: seq<TrackedRow>): seq<TrackedRow>
  {
    if g == [] then [] else InsertByDate(g[|g| - 1], Chronological(g[..|g| - 1]))
  }

  /** The sorted group is a permutation of the group, in date order. */
  lemma ChronologicalSpec(g: seq<TrackedRow>)
    ensures var s := Chronological(g);
            |s| == |g| && multiset(s) == multiset(g) && DateOrdered(s)
  {
    ChronologicalPerm(g);
    ChronologicalOrdered(g);
  }

  lemma {:induction false} ChronologicalPerm(g: seq<TrackedRow>)
    ensures var s := Chronological(g);
            |s| == |g| && multiset(s) == multiset(g)
  {
    if g != [] {
      var init, last := g[..|g| - 1], g[|g| - 1];
      var t := Chronological(init);
      ChronologicalPerm(init);
      InsertByDatePerm(last, t);
      assert Chronological(g) == InsertByDate(last, t);
      MultisetSnoc(g);
    }
  }

  lemma {:induction false} ChronologicalOrdered(g: seq<TrackedRow>)
    ensures DateOrdered(Chronological(g))
  {
    if g != [] {
      var init := g[..|g| - 1];
      ChronologicalOrdered(init);
      InsertByDateOrdered(g[|g| - 1], Chronological(init));
    }
  }

  /** Optional text as an f-string shows it (NaN prints as "nan"). */
  function Shown(t: Option<string>): string
  {
    if t.Some? then t.value else "nan"
  }

  /** The change between the last two rows of one facility's chronological rows, if any. */
  function LatestChange(s: seq<TrackedRow>): Option<RatingChange>
  {
    if |s| < 2 then None
    else
      var previous, current := s[|s| - 2], s[|s| - 1];
      var lines := FieldLines(RatingFields, previous, current);
      if lines == [] then None
      else Some(RatingChange(current.ccn, current.name, current.city, current.state,
                             IsoDate(current.monthYear), lines, IsoDate(previous.monthYear)))
  }

  /** The change of one facility: its last two rows by date, when a rating moved. */
  function ChangeFor(rows: seq<TrackedRow>, ccn: string): Option<RatingChange>
  {
    LatestChange(Chronological(GroupOf(rows, ccn)))
  }

  /**
   * A facility yields a change iff it has two rows and a rating moved between
   * the two latest; the change names the facility, lists what moved and gives
   * the two dates, the earlier one as the previous date.
   */
  lemma ChangeForSpec(rows: seq<TrackedRow>, ccn: string, s: seq<TrackedRow>)
    requires s == Chronological(GroupOf(rows, ccn))
    ensures ChangeFor(rows, ccn).Some? <==> |s| >= 2 && FieldLines(RatingFields, s[|s| - 2], s[|s| - 1]) != []
    ensures var r := ChangeFor(rows, ccn);
            r.Some? ==>
              r.value.ccn == ccn
              && r.value.changes == FieldLines(RatingFields, s[|s| - 2], s[|s| - 1])
              && r.value.asOfDate == IsoDate(s[|s| - 1].monthYear)
              && r.value.previousDate == IsoDate(s[|s| - 2].monthYear)
              && Ordinal(s[|s| - 2].monthYear) <= Ordinal(s[|s| - 1].monthYear)
  {
    LatestChangeSpec(s);
    LatestOfGroup(rows, ccn, s);
  }

  /** The two latest rows of a facility's sorted group are its own, in date order. */
  lemma LatestOfGroup(rows: seq<TrackedRow>, ccn: string, s: seq<TrackedRow>)
    requires s == Chronological(GroupOf(rows, ccn))
    ensures |s| >= 2 ==> s[|s| - 1].ccn == ccn && Ordinal(s[|s| - 2].monthYear) <= Ordinal(s[|s| - 1].monthYear)
  {
    var g := GroupOf(rows, ccn);
    if |s| >= 2 {
      var last := s[|s| - 1];
      ChronologicalPerm(g);
      assert last in multiset(s);
      assert last in g;
      GroupOfMembers(rows, ccn, last);
      ChronologicalOrdered(g);
    }
  }

  lemma LatestChangeSpec(s: seq<TrackedRow>)
    ensures LatestChange(s).Some? <==> |s| >= 2 && FieldLines(RatingFields, s[|s| - 2], s[|s| - 1]) != []
    ensures var r := LatestChange(s);
            r.Some? ==>
              r.value.ccn == s[|s| - 1].ccn
              && r.value.changes == FieldLines(RatingFields, s[|s| - 2], s[|s| - 1])
              && r.value.asOfDate == IsoDate(s[|s| - 1].monthYear)
              && r.value.previousDate == IsoDate(s[|s| - 2].monthYear)
  {
  }

  /** ChangeFor over one table, as a function of the CCN. */
  function ChangeOf(rows: seq<TrackedRow>): string -> Option<RatingChange>
  {
    ccn => ChangeFor(rows, ccn)
  }

  /** detect_changes as a function of the normalised table: the groups' changes, in group order. */
  function Changes(rows: seq<TrackedRow>): seq<RatingChange>
  {
    Collect(GroupKeys(rows), ChangeOf(rows))
  }

  method DetectChanges(rows: seq<TrackedRow>) returns (changes: seq<RatingChange>)
    ensures changes == Changes(rows)
  {
    var f := ChangeOf(rows);
    changes := [];
    var keys := GroupKeys(rows);
    var i := 0;
    while i < |keys|
      invariant 0 <= i <= |keys|
      invariant changes == Collect(keys[..i], f)
    {
      var group := Chronological(GroupOf(rows, keys[i]));
      var change := CompareLatest(group);
      CollectSnoc(keys, f, i);
      assert f(keys[i]) == change;
      if change.Some? {
        changes := changes + [change.value];
      }
      i := i + 1;
    }
    assert keys[..i] == keys;
  }

  /** One facility's turn of the detect_changes loop, on its rows sorted by date. */
  method CompareLatest(sorted: seq<TrackedRow>) returns (change: Option<RatingChange>)
    ensures change == LatestChange(sorted)
  {
    if |sorted| < 2 {
      return None;
    }
    var previous := sorted[|sorted| - 2];
    var current := sorted[|sorted| - 1];
    var detected := CompareRatings(previous, current);
    if detected == [] {
      return None;
    }
    change := Some(RatingChange(current.ccn, current.name, current.city, current.state,
                                IsoDate(current.monthYear), detected, IsoDate(previous.monthYear)));
  }

  /** The loop over RATING_LABELS for one pair of rows. */
  method CompareRatings(previous: TrackedRow, current: TrackedRow) returns (detected: seq<string>)
    ensures detected == FieldLines(RatingFields, previous, current)
  {
    detected := [];
    var j := 0;
    while j < |RatingFields|
      invariant 0 <= j <= |RatingFields|
      invariant detected == FieldLines(RatingFields[..j], previous, current)
    {
      var f := RatingFields[j];
      assert RatingFields[..j + 1][..j] == RatingFields[..j];
      detected := detected + ChangeLine(f, RatingOf(previous, f), RatingOf(current, f));
      j := j + 1;
    }
    assert RatingFields[..j] == RatingFields;
  }

  /** No two changes are about the same facility. */
  predicate CcnsDistinct(cs: seq<RatingChange>)
  {
    forall i, j :: 0 <= i < j < |cs| ==> cs[i].ccn != cs[j].ccn
  }

  /** A change found for a CCN is about that CCN. */
  lemma ChangeForCcn(rows: seq<TrackedRow>)
    ensures forall ccn :: ChangeOf(rows)(ccn).Some? ==> ChangeOf(rows)(ccn).value.ccn == ccn
  {
    forall ccn ensures ChangeOf(rows)(ccn).Some? ==> ChangeOf(rows)(ccn).value.ccn == ccn {
      ChangeForSpec(rows, ccn, Chronological(GroupOf(rows, ccn)));
    }
  }

  /**
   * Collecting a per-key change over distinct keys, where each change names its
   * own key, yields changes about listed keys, no key twice.
   */
  lemma {:induction false} ChangeCcnsDistinct(keys: seq<string>, f: string -> Option<RatingChange>)
    requires forall i, j :: 0 <= i < j < |keys| ==> keys[i] != keys[j]
    requires forall ccn :: f(ccn).Some? ==> f(ccn).value.ccn == ccn
    ensures forall c :: c in Collect(keys, f) ==> c.ccn in keys
    ensures CcnsDistinct(Collect(keys, f))
  {
    if keys != [] {
      var init, k := keys[..|keys| - 1], keys[|keys| - 1];
      ChangeCcnsDistinct(init, f);
      var before := Collect(init, f);
      var own := match f(k) case None => [] case Some(c) => [c];
      var cs := before + own;
      assert Collect(keys, f) == cs;
      forall c | c in before ensures c.ccn != k && c.ccn in keys {
        var m :| 0 <= m < |init| && init[m] == c.ccn;
        assert keys[m] == c.ccn;
      }
      assert |own| <= 1 && forall c :: c in own ==> c.ccn == k by {
        if f(k).Some? {
          assert own == [f(k).value] && f(k).value.ccn == k;
        }
      }
      AppendOwnDistinct(before, own, k);
    }
  }

  lemma AppendOwnDistinct(before: seq<RatingChange>, own: seq<RatingChange>, k: string)
    requires CcnsDistinct(before)
    requires forall c :: c in before ==> c.ccn != k
    requires |own| <= 1 && forall c :: c in own ==> c.ccn == k
    ensures CcnsDistinct(before + own)
  {
    var cs := before + own;
    forall i, j | 0 <= i < j < |cs| ensures cs[i].ccn != cs[j].ccn {
      if j >= |before| {
        assert cs[j] == own[j - |before|];
        assert cs[i] == before[i];
        assert before[i] in before;
      } else {
        assert cs[i] == before[i] && cs[j] == before[j];
      }
    }
  }

  /** At most one RatingChange per CCN. */
  lemma AtMostOneChangePerCcn(rows: seq<TrackedRow>)
    ensures CcnsDistinct(Changes(rows))
  {
    var keys, f := GroupKeys(rows), ChangeOf(rows);
    ChangeForCcn(rows);
    ChangeCcnsDistinct(keys, f);
    assert Changes(rows) == Collect(keys, f);
  }

  /**
   * A facility is reported iff it has at least two rows and one of its ratings
   * is present in both of its two latest rows and differs between them.
   */
  lemma ChangeReportedIff(rows: seq<TrackedRow>, ccn: string, s: seq<TrackedRow>)
    requires s == Chronological(GroupOf(rows, ccn))
    ensures (exists c :: c in Changes(rows) && c.ccn == ccn) <==>
            |s| >= 2 && FieldLines(RatingFields, s[|s| - 2], s[|s| - 1]) != []
  {
    var f := ChangeOf(rows);
    var keys := GroupKeys(rows);
    ChangeForSpec(rows, ccn, s);
    GroupKeysMembers(rows, ccn);
    GroupOfNonEmpty(rows, ccn);
    if c :| c in Changes(rows) && c.ccn == ccn {
      CollectMembers(keys, f, c);
      var i :| 0 <= i < |keys| && f(keys[i]) == Some(c);
      ChangeForCcn(rows);
    }
    if ChangeFor(rows, ccn).Some? {
      CollectMembers(keys, f, ChangeFor(rows, ccn).value);
      var i :| 0 <= i < |keys| && keys[i] == ccn;
      assert f(keys[i]) == ChangeFor(rows, ccn);
    }
  }

  /** `RatingChange.__str__`. */
  function HeaderLine(c: RatingChange): string
  {
    Shown(c.providerName) + " (CCN " + c.ccn + ") - " + Shown(c.city) + ", " + Shown(c.state)
    + " [" + c.asOfDate + "]"
  }

  function ChangesLine(c: RatingChange): string
  {
    "  Changes: " + Join(c.changes, "; ")
  }

  function Render(c: RatingChange): string
  {
    HeaderLine(c) + "\n" + ChangesLine(c)
  }

  /** Without line breaks in the fields, the text is the header line and the changes line. */
  lemma RenderLines(c: RatingChange)
    requires Lacks(HeaderLine(c), '\n')
    requires forall i :: 0 <= i < |c.changes| ==> Lacks(c.changes[i], '\n')
    ensures Split(Render(c), '\n') == [HeaderLine(c), ChangesLine(c)]
  {
    JoinLacks(c.changes, "; ", '\n');
    var h, t := HeaderLine(c), ChangesLine(c);
    assert Lacks(t, '\n') by {
      assert t == "  Changes: " + Join(c.changes, "; ");
    }
    assert [h, t][1..] == [t];
    assert Join([h, t], "\n") == Render(c);
    SplitJoin([h, t], '\n');
  }

  lemma {:induction false} JoinLacks(parts: seq<string>, sep: string, c: char)
    requires Lacks(sep, c)
    requires forall i :: 0 <= i < |parts| ==> Lacks(parts[i], c)
    ensures Lacks(Join(parts, sep), c)
  {
    if |parts| > 1 {
      JoinLacks(parts[1..], sep, c);
      var j := Join(parts[1..], sep);
      assert Join(parts, sep) == parts[0] + sep + j;
    }
  }

  // ---------------------------------------------------------------------------
  // History
  // ---------------------------------------------------------------------------

  datatype HistoryKey = HistoryKey(ccn: string, monthYear: CalendarDate)

  function KeyOf(r: TrackedRow): HistoryKey { HistoryKey(r.ccn, r.monthYear) }

  /** Some later row has the same (ccn, month_year) key as row i. */
  predicate LaterSameKey(rows: seq<TrackedRow>, i: int)
    requires 0 <= i < |rows|
  {
    exists j :: i < j < |rows| && KeyOf(rows[j]) == KeyOf(rows[i])
  }

  /** `drop_duplicates(subset=["ccn", "month_year"], keep="last")`. */
  function DedupeLast(rows: seq<TrackedRow>): (r: seq<TrackedRow>)
    ensures |r| <= |rows|
  {
    if rows == [] then []
    else (if LaterSameKey(rows, 0) then [] else [rows[0]]) + DedupeLast(rows[1..])
  }

  lemma LaterSameKeyShift(rows: seq<TrackedRow>, k: int)
    requires 0 <= k < |rows| - 1
    ensures LaterSameKey(rows[1..], k) <==> LaterSameKey(rows, k + 1)
  {
    var t := rows[1..];
    if j :| k < j < |t| && KeyOf(t[j]) == KeyOf(t[k]) {
      assert KeyOf(rows[j + 1]) == KeyOf(rows[k + 1]);
    }
    if j :| k + 1 < j < |rows| && KeyOf(rows[j]) == KeyOf(rows[k + 1]) {
      assert KeyOf(t[j - 1]) == KeyOf(t[k]);
    }
  }

  /** A row is kept iff no later row has its key. */
  lemma {:induction false} DedupeMembers(rows: seq<TrackedRow>, x: TrackedRow)
    ensures x in DedupeLast(rows) <==> exists k :: 0 <= k < |rows| && rows[k] == x && !LaterSameKey(rows, k)
  {
    if rows != [] {
      var t := rows[1..];
      DedupeMembers(t, x);
      var head := if LaterSameKey(rows, 0) then [] else [rows[0]];
      assert DedupeLast(rows) == head + DedupeLast(t);
      if x in DedupeLast(t) {
        var k :| 0 <= k < |t| && t[k] == x && !LaterSameKey(t, k);
        LaterSameKeyShift(rows, k);
        assert rows[k + 1] == x;
      }
      if k :| 0 <= k < |rows| && rows[k] == x && !LaterSameKey(rows, k) {
        if k > 0 {
          LaterSameKeyShift(rows, k - 1);
          assert t[k - 1] == x;
        }
      }
    }
  }

  /** The de-duplicated rows have pairwise different keys. */
  lemma {:induction false} DedupeKeysDistinct(rows: seq<TrackedRow>)
    ensures var r := DedupeLast(rows); forall i, j :: 0 <= i < j < |r| ==> KeyOf(r[i]) != KeyOf(r[j])
  {
    if rows != [] {
      var t := rows[1..];
      DedupeKeysDistinct(t);
      var rest := DedupeLast(t);
      if !LaterSameKey(rows, 0) {
        var r := [rows[0]] + rest;
        forall j | 0 < j < |r| ensures KeyOf(r[0]) != KeyOf(r[j]) {
          DedupeMembers(t, r[j]);
          var k :| 0 <= k < |t| && t[k] == r[j] && !LaterSameKey(t, k);
          assert rows[k + 1] == r[j];
        }
      }
    }
  }

  /** Every key of the input is still present after de-duplication. */
  lemma {:induction false} DedupeKeepsKeys(rows: seq<TrackedRow>, i: int)
    requires 0 <= i < |rows|
    ensures exists y :: y in DedupeLast(rows) && KeyOf(y) == KeyOf(rows[i])
    decreases |rows| - i
  {
    if LaterSameKey(rows, i) {
      var j :| i < j < |rows| && KeyOf(rows[j]) == KeyOf(rows[i]);
      DedupeKeepsKeys(rows, j);
    } else {
      DedupeMembers(rows, rows[i]);
    }
  }

  /** What save_to_history writes: the new rows alone, or the union de-duplicated. */
  function Merged(history: Option<seq<TrackedRow>>, rows: seq<TrackedRow>): seq<TrackedRow>
  {
    if history.None? then rows else DedupeLast(history.value + rows)
  }

  /**
   * A fresh row whose key does not repeat later in the fresh frame is in the
   * merged history, and it is the only row there with its key.
   */
  lemma NewRowWins(history: seq<TrackedRow>, rows: seq<TrackedRow>, i: int)
    requires 0 <= i < |rows|
    requires forall j :: i < j < |rows| ==> KeyOf(rows[j]) != KeyOf(rows[i])
    ensures rows[i] in Merged(Some(history), rows)
    ensures forall y :: y in Merged(Some(history), rows) && KeyOf(y) == KeyOf(rows[i]) ==> y == rows[i]
  {
    var all := history + rows;
    var n := |history| + i;
    assert all[n] == rows[i];
    forall j | n < j < |all| ensures KeyOf(all[j]) != KeyOf(all[n]) {
      assert all[j] == rows[j - |history|];
    }
    DedupeMembers(all, rows[i]);
    forall y | y in DedupeLast(all) && KeyOf(y) == KeyOf(rows[i]) ensures y == rows[i] {
      DedupeMembers(all, y);
      var k :| 0 <= k < |all| && all[k] == y && !LaterSameKey(all, k);
      assert KeyOf(all[n]) == KeyOf(all[k]);
      assert k >= |history| ==> all[k] == rows[k - |history|];
    }
  }

  // ---------------------------------------------------------------------------
  // Trend summary
  // ---------------------------------------------------------------------------

  datatype FieldStats = FieldStats(current: Option<int>, avg: real, min: int, max: int)

  datatype TrendRow = TrendRow(
    ccn: string, provider: Option<string>, city: Option<string>, state: Option<string>,
    dataPoints: nat, stats: seq<Option<FieldStats>>)

  function Getter(f: RatingField): TrackedRow -> Option<real>
  {
    r => RatingOf(r, f)
  }

  /** The present values of one rating, in order (`dropna()`). */
  function Values(g: seq<TrackedRow>, f: RatingField): (v: seq<real>)
    ensures |v| <= |g|
  {
    Collect(g, Getter(f))
  }

  /** A sum of values in [lo, hi] lies in [n*lo, n*hi]. */
  lemma {:induction false} SumBounds(v: seq<real>, lo: real, hi: real)
    requires forall i :: 0 <= i < |v| ==> lo <= v[i] <= hi
    ensures |v| as real * lo <= Sum(v) <= |v| as real * hi
  {
    if v != [] {
      SumBounds(v[..|v| - 1], lo, hi);
    }
  }

  /** The statistics of one rating over a facility's rows in date order, if it has any value. */
  function StatsOf(g: seq<TrackedRow>, f: RatingField): Option<FieldStats>
  {
    var v := Values(g, f);
    if v == [] || g == [] then None
    else
      var cur := RatingOf(g[|g| - 1], f);
      Some(FieldStats(if cur.Some? then Some(Trunc(cur.value)) else None,
                      Sum(v) / |v| as real, Trunc(MinOf(v)), Trunc(MaxOf(v))))
  }

  lemma TruncMonotone(a: real, b: real)
    requires a <= b
    ensures Trunc(a) <= Trunc(b)
  {
  }

  /** A rating has values iff some row has one. */
  lemma ValuesPresent(g: seq<TrackedRow>, f: RatingField)
    ensures Values(g, f) != [] <==> exists i :: 0 <= i < |g| && RatingOf(g[i], f).Some?
  {
    var v := Values(g, f);
    if i :| 0 <= i < |g| && RatingOf(g[i], f).Some? {
      CollectMembers(g, Getter(f), RatingOf(g[i], f).value);
    }
    if v != [] {
      CollectMembers(g, Getter(f), v[0]);
    }
  }

  /** The latest row's value, when present, is one of the values. */
  lemma LatestAmongValues(g: seq<TrackedRow>, f: RatingField)
    requires g != [] && RatingOf(g[|g| - 1], f).Some?
    ensures RatingOf(g[|g| - 1], f).value in Values(g, f)
  {
    assert Values(g, f) == Values(g[..|g| - 1], f) + [RatingOf(g[|g| - 1], f).value];
  }

  /** The mean of values lies between their minimum and maximum. */
  lemma MeanBounds(v: seq<real>)
    requires v != []
    ensures MinOf(v) <= Sum(v) / |v| as real <= MaxOf(v)
  {
    var lo, hi := MinOf(v), MaxOf(v);
    SumBounds(v, lo, hi);
    MeanOfBounded(v, lo, hi);
  }

  lemma MeanOfBounded(v: seq<real>, lo: real, hi: real)
    requires v != []
    requires |v| as real * lo <= Sum(v) <= |v| as real * hi
    ensures lo <= Sum(v) / |v| as real <= hi
  {
    var sum, n := Sum(v), |v| as real;
    DivideBetween(sum, n, lo, hi);
  }

  /**
   * A rating has statistics iff some row has a value for it; then min <= max,
   * the average lies between the smallest and largest value, and the current
   * value, read from the latest row, lies between min and max.
   */
  lemma StatsOrdered(g: seq<TrackedRow>, f: RatingField)
    ensures StatsOf(g, f).Some? <==> exists i :: 0 <= i < |g| && RatingOf(g[i], f).Some?
    ensures StatsOf(g, f).Some? ==>
            var s := StatsOf(g, f).value;
            s.min <= s.max
            && MinOf(Values(g, f)) <= s.avg <= MaxOf(Values(g, f))
            && (s.current.Some? ==> s.min <= s.current.value <= s.max)
  {
    ValuesPresent(g, f);
    var v := Values(g, f);
    if v != [] {
      var lo, hi := MinOf(v), MaxOf(v);
      TruncMonotone(lo, hi);
      MeanBounds(v);
      var cur := RatingOf(g[|g| - 1], f);
      if cur.Some? {
        LatestAmongValues(g, f);
        TruncMonotone(lo, cur.value);
        TruncMonotone(cur.value, hi);
      }
    }
  }

  function StatsList(fields: seq<RatingField>, g: seq<TrackedRow>): (s: seq<Option<FieldStats>>)
    ensures |s| == |fields|
  {
    if fields == [] then []
    else StatsList(fields[..|fields| - 1], g) + [StatsOf(g, fields[|fields| - 1])]
  }

  /** The summary row of one facility: its latest row's names, its row count, its statistics. */
  function TrendFor(recent: seq<TrackedRow>, ccn: string): (t: Option<TrendRow>)
  {
    var g := Chronological(GroupOf(recent, ccn));
    if g == [] then None
    else
      var latest := g[|g| - 1];
      Some(TrendRow(ccn, latest.name, latest.city, latest.state, |g|, StatsList(RatingFields, g)))
  }

  /**
   * Rows dated after the cutoff day. The cutoff is the clock time `months * 30`
   * days ago, so it falls after midnight of its own day, and that day's rows,
   * stamped at midnight, are before it.
   */
  function Recent(rows: seq<TrackedRow>, cutoff: CalendarDate): seq<TrackedRow>
  {
    Filter(rows, (r: TrackedRow) => Ordinal(r.monthYear) > Ordinal(cutoff))
  }

  /** TrendFor over one window, as a function of the CCN. */
  function TrendOf(recent: seq<TrackedRow>): string -> Option<TrendRow>
  {
    ccn => TrendFor(recent, ccn)
  }

  /** A facility gets a summary row iff it has rows; the row carries its CCN and its row count. */
  lemma TrendForSpec(recent: seq<TrackedRow>, ccn: string)
    ensures TrendFor(recent, ccn).Some? <==> HasRowFor(recent, ccn)
    ensures TrendFor(recent, ccn).Some? ==>
              TrendFor(recent, ccn).value.ccn == ccn
              && TrendFor(recent, ccn).value.dataPoints == |GroupOf(recent, ccn)|
  {
    GroupOfNonEmpty(recent, ccn);
    ChronologicalSpec(GroupOf(recent, ccn));
  }

  /** get_trend_summary: one row per facility with a row after the cutoff. */
  function Trends(rows: seq<TrackedRow>, cutoff: CalendarDate): seq<TrendRow>
  {
    var recent := Recent(rows, cutoff);
    Collect(GroupKeys(recent), TrendOf(recent))
  }

  /** The summary has one row per CCN with rows after the cutoff, in group order. */
  lemma TrendsPerFacility(rows: seq<TrackedRow>, cutoff: CalendarDate)
    ensures var recent := Recent(rows, cutoff);
            var keys := GroupKeys(recent);
            var t := Trends(rows, cutoff);
            |t| == |keys|
            && forall i :: 0 <= i < |keys| ==> t[i].ccn == keys[i] && t[i].dataPoints == |GroupOf(recent, keys[i])|
  {
    var recent := Recent(rows, cutoff);
    var keys := GroupKeys(recent);
    var f := TrendOf(recent);
    forall i | 0 <= i < |keys| ensures f(keys[i]).Some? {
      GroupKeysMembers(recent, keys[i]);
      TrendForSpec(recent, keys[i]);
    }
    CollectTotal(keys, f);
    forall i | 0 <= i < |keys|
      ensures Collect(keys, f)[i].ccn == keys[i]
      ensures Collect(keys, f)[i].dataPoints == |GroupOf(recent, keys[i])|
    {
      TrendForSpec(recent, keys[i]);
    }
  }

  method TrendSummary(rows: seq<TrackedRow>, cutoff: CalendarDate) returns (summary: seq<TrendRow>)
    ensures summary == Trends(rows, cutoff)
  {
    var recent := Recent(rows, cutoff);
    summary := [];
    if recent == [] {
      return;
    }
    var f := TrendOf(recent);
    var keys := GroupKeys(recent);
    var i := 0;
    while i < |keys|
      invariant 0 <= i <= |keys|
      invariant summary == Collect(keys[..i], f)
    {
      var row := FacilityTrend(recent, keys[i]);
      CollectSnoc(keys, f, i);
      assert f(keys[i]) == row;
      if row.Some? {
        summary := summary + [row.value];
      }
      i := i + 1;
    }
    assert keys[..i] == keys;
  }

  /** The stats dictionary of one facility. */
  method FacilityTrend(recent: seq<TrackedRow>, ccn: string) returns (t: Option<TrendRow>)
    ensures t == TrendFor(recent, ccn)
  {
    var g := Chronological(GroupOf(recent, ccn));
    if g == [] {
      return None;
    }
    var latest := g[|g| - 1];
    var stats := RatingStats(RatingFields, g);
    t := Some(TrendRow(ccn, latest.name, latest.city, latest.state, |g|, stats));
  }

  /** The loop over RATING_LABELS (`fields`) filling in the statistics rating by rating. */
  method RatingStats(fields: seq<RatingField>, g: seq<TrackedRow>) returns (stats: seq<Option<FieldStats>>)
    ensures stats == StatsList(fields, g)
  {
    stats := [];
    var j := 0;
    while j < |fields|
      invariant 0 <= j <= |fields|
      invariant stats == StatsList(fields[..j], g)
    {
      assert fields[..j + 1][..j] == fields[..j];
      stats := stats + [StatsOf(g, fields[j])];
      j := j + 1;
    }
    assert fields[..j] == fields;
  }

  // ---------------------------------------------------------------------------
  // Inputs: the metadata, the CSV filter, the CCN file
  // ---------------------------------------------------------------------------

  datatype Distribution = Distribution(mediaType: Option<string>, downloadUrl: Option<string>)

  predicate CsvWithUrl(d: Distribution)
  {
    d.mediaType == Some("text/csv") && d.downloadUrl.Some? && d.downloadUrl.value != ""
  }

  /** _get_latest_csv_url: the URL of the first CSV distribution that has one. */
  function LatestCsvUrl(dists: seq<Distribution>): (r: Result<string>)
    ensures r.Ok? <==> exists i :: 0 <= i < |dists| && CsvWithUrl(dists[i])
    ensures r.Ok? ==> exists i :: 0 <= i < |dists| && CsvWithUrl(dists[i]) && r.value == dists[i].downloadUrl.value
                                  && forall j :: 0 <= j < i ==> !CsvWithUrl(dists[j])
  {
    if dists == [] then Err("No CSV download URL found in metadata")
    else if CsvWithUrl(dists[0]) then Ok(dists[0].downloadUrl.value)
    else
      var r := LatestCsvUrl(dists[1..]);
      LatestCsvUrlShift(dists, r);
      r
  }

  lemma LatestCsvUrlShift(dists: seq<Distribution>, r: Result<string>)
    requires dists != [] && !CsvWithUrl(dists[0])
    requires r.Ok? ==> exists i :: 0 <= i < |dists[1..]| && CsvWithUrl(dists[1..][i]) && r.value == dists[1..][i].downloadUrl.value
                                  && forall j :: 0 <= j < i ==> !CsvWithUrl(dists[1..][j])
    ensures r.Ok? ==> exists i :: 0 <= i < |dists| && CsvWithUrl(dists[i]) && r.value == dists[i].downloadUrl.value
                                  && forall j :: 0 <= j < i ==> !CsvWithUrl(dists[j])
  {
    if r.Ok? {
      var i :| 0 <= i < |dists[1..]| && CsvWithUrl(dists[1..][i]) && r.value == dists[1..][i].downloadUrl.value
               && forall j :: 0 <= j < i ==> !CsvWithUrl(dists[1..][j]);
      assert forall j :: 1 <= j < i + 1 ==> dists[j] == dists[1..][j - 1];
      assert CsvWithUrl(dists[i + 1]);
    }
  }

  /** `astype(str)` of a CSV cell; an empty cell is NaN and prints as "nan". */
  function CellText(row: map<string, string>, col: string): string
  {
    if col in row then row[col] else "nan"
  }

  predicate Tracked(row: map<string, string>, ccns: seq<string>)
  {
    ZFill(CellText(row, CcnCsvColumn), 6) in ccns
  }

  /** fetch_data after the download: keep the tracked facilities' rows. */
  function FetchData(t: RawTable, ccns: seq<string>): (r: Result<RawTable>)
    ensures t.rows == [] ==> r == Ok(RawTable([], []))
    ensures t.rows != [] ==> (r.Err? <==> CcnCsvColumn !in t.columns)
    ensures t.rows != [] && r.Ok? ==>
              r.value.columns == t.columns
              && forall row :: row in r.value.rows <==> row in t.rows && Tracked(row, ccns)
  {
    if t.rows == [] then Ok(RawTable([], []))
    else if CcnCsvColumn !in t.columns then Err("Provider number column not found")
    else Ok(RawTable(t.columns, Filter(t.rows, (row: map<string, string>) => Tracked(row, ccns))))
  }

  /** The non-blank lines of a file, stripped. */
  function NonBlank(lines: seq<string>): (r: seq<string>)
    ensures forall x :: x in r ==> x != [] && Strip(x) == x
    ensures forall x :: x in r <==> x != [] && exists l :: l in lines && Strip(l) == x
  {
    if lines == [] then []
    else
      var rest := NonBlank(lines[1..]);
      var s := Strip(lines[0]);
      assert forall l :: l in lines <==> l == lines[0] || l in lines[1..];
      if s == [] then rest else [s] + rest
  }

  /** load_ccns_from_file: the file's non-blank lines, stripped; [] when it cannot be read. */
  function LoadCcns(content: Option<string>): (r: seq<string>)
    ensures content.None? ==> r == []
    ensures content.Some? ==> r == NonBlank(Split(content.value, '\n'))
  {
    if content.None? then [] else NonBlank(Split(content.value, '\n'))
  }

  datatype CcnInput = Arguments(ccns: seq<string>) | CcnFile(content: Option<string>)

  /** main: the CCNs to track, or exit status 1 when the file yields none. */
  function MainCcns(input: CcnInput): (r: Result<seq<string>>)
    ensures r.Err? <==> input.CcnFile? && LoadCcns(input.content) == []
    ensures input.Arguments? ==> r == Ok(input.ccns)
    ensures input.CcnFile? && r.Ok? ==> r.value != [] && r.value == LoadCcns(input.content)
  {
    match input
    case Arguments(ccns) => Ok(ccns)
    case CcnFile(content) =>
      var ccns := LoadCcns(content);
      if ccns == [] then Err("No CCNs loaded from file") else Ok(ccns)
  }

  // ---------------------------------------------------------------------------
  // The tracker object
  // ---------------------------------------------------------------------------

  /** What run returns for a downloaded CSV: the changes of the fresh frame alone. */
  function RunOutcome(ccns: seq<string>, csv: RawTable, now: CalendarDate): Result<seq<RatingChange>>
  {
    match FetchData(csv, ccns)
    case Err(e) => Err(e)
    case Ok(t) => if t.rows == [] then Ok([]) else Ok(Changes(NormalizeData(t, now)))
  }

  class Tracker {
    var ccns: seq<string>
    /** The history CSV; None while the file does not exist. */
    var history: Option<seq<TrackedRow>>

    constructor (ccns: seq<string>, history: Option<seq<TrackedRow>>)
      ensures this.ccns == ccns && this.history == history
    {
      this.ccns := ccns;
      this.history := history;
    }

    /** save_to_history. */
    method SaveToHistory(rows: seq<TrackedRow>)
      modifies this
      ensures ccns == old(ccns)
      ensures history == Some(Merged(old(history), rows))
    {
      if history.None? {
        history := Some(rows);
      } else {
        history := Some(DedupeLast(history.value + rows));
      }
    }

    /**
     * run: filter, normalise, optionally save the history, then detect changes
     * on the freshly fetched frame (never on the merged history).
     */
    method Run(csv: RawTable, saveHistory: bool, now: CalendarDate) returns (r: Result<seq<RatingChange>>)
      modifies this
      ensures r == RunOutcome(old(ccns), csv, now)
      ensures ccns == old(ccns)
      ensures var f := FetchData(csv, old(ccns));
              if saveHistory && f.Ok? && f.value.rows != []
              then history == Some(Merged(old(history), NormalizeData(f.value, now)))
              else history == old(history)
    {
      var fetched := FetchData(csv, ccns);
      if fetched.Err? {
        return Err(fetched.error);
      }
      var df := fetched.value;
      if df.rows == [] {
        return Ok([]);
      }
      var rows := NormalizeData(df, now);
      if saveHistory {
        SaveToHistory(rows);
      }
      var changes := DetectChanges(rows);
      r := Ok(changes);
    }
  }
}
