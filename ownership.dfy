// The owner-level diff of the nursing-home ownership files: two monthly
// extracts (July and September) are cleaned, pivoted per owner row and
// compared, and each owner row is flagged as appeared, disappeared or
// percentage-changed.
module ChangeOfOwnership {
  import opened Common

  // ---------------------------------------------------------------------------
  // clean_pct
  // ---------------------------------------------------------------------------

  const NotApplicable: string := "NOT APPLICABLE"

  /** The percentage text with every '%' removed and the whitespace stripped. */
  function PctText(x: string): string { Strip(RemoveChar(x, '%')) }

  /** clean_pct: a missing cell, "" or NOT APPLICABLE (any case) is None; otherwise float() of the text. */
  function CleanPct(x: Option<string>): (r: Option<real>)
    ensures x.None? ==> r.None?
    ensures r.Some? ==> PctText(x.value) != "" && Upper(PctText(x.value)) != NotApplicable
    ensures r.Some? ==> ParseDecimal(PctText(x.value)) == r
  {
    if x.None? then None
    else
      var t := PctText(x.value);
      if Upper(t) == NotApplicable || t == "" then None else ParseDecimal(t)
  }

  /** "40%" is read back as 40. */
  lemma CleanPctOfPercent(n: nat)
    ensures CleanPct(Some(NatStr(n) + "%")) == Some(n as real)
  {
    var s := NatStr(n);
    PctTextOfDigits(s);
    assert Upper(s)[0] != NotApplicable[0];
    ParseDecimalNatStr(n);
  }

  lemma PctTextOfDigits(s: string)
    requires |s| > 0 && AllDigits(s)
    ensures PctText(s + "%") == s
  {
    RemoveCharAppend(s, "%", '%');
    assert RemoveChar("%", '%') == [];
    assert Lacks(s, '%');
    assert RemoveChar(s + "%", '%') == s;
    assert !IsSpace(s[0]) && !IsSpace(s[|s| - 1]);
  }

  /** NOT APPLICABLE, in any mix of cases, is a missing percentage. */
  lemma NotApplicableIsMissing(s: string)
    requires Upper(s) == NotApplicable
    ensures CleanPct(Some(s)) == None
  {
    assert forall i :: 0 <= i < |s| ==> s[i] != '%' by {
      forall i | 0 <= i < |s| ensures s[i] != '%' {
        assert UpperChar(s[i]) == NotApplicable[i];
      }
    }
    assert RemoveChar(s, '%') == s;
    assert UpperChar(s[0]) == 'N' && UpperChar(s[|s| - 1]) == 'E';
    assert !IsSpace(s[0]) && !IsSpace(s[|s| - 1]);
    assert PctText(s) == s;
  }

  // ---------------------------------------------------------------------------
  // The two monthly frames
  // ---------------------------------------------------------------------------

  /** The columns of an owner row that identify it in the pivot (a missing cell is None). */
  datatype OwnerColumns = OwnerColumns(
    ccn: Option<string>, provider: Option<string>, owner: Option<string>,
    role: Option<string>, ownerType: Option<string>, location: Option<string>)

  /** A row as read from the CSV (every cell a string or missing). */
  datatype RawOwnerRow = RawOwnerRow(columns: OwnerColumns, percentage: Option<string>)

  /** A row after clean_pct. */
  datatype OwnerRow = OwnerRow(columns: OwnerColumns, percentage: Option<real>)

  function Cleaned(r: RawOwnerRow): OwnerRow { OwnerRow(r.columns, CleanPct(r.percentage)) }

  /** The loop over both frames that replaces the percentage column by its cleaned value. */
  method CleanFrame(frame: seq<RawOwnerRow>) returns (rows: seq<OwnerRow>)
    ensures |rows| == |frame|
    ensures forall i :: 0 <= i < |frame| ==>
              rows[i].columns == frame[i].columns && rows[i].percentage == CleanPct(frame[i].percentage)
  {
    rows := [];
    var i := 0;
    while i < |frame|
      invariant 0 <= i <= |frame|
      invariant |rows| == i
      invariant forall k :: 0 <= k < i ==> rows[k] == Cleaned(frame[k])
    {
      rows := rows + [Cleaned(frame[i])];
      i := i + 1;
    }
  }

  // ---------------------------------------------------------------------------
  // The key and the pivot
  // ---------------------------------------------------------------------------

  /** The pivot's index: key, CCN, provider name, owner name, role, owner type and location. */
  datatype PivotIndex = PivotIndex(
    ccn: string, provider: string, owner: string, role: string, ownerType: string, location: string)

  /** `ccn|owner|role`. */
  function Key(ix: PivotIndex): string
  {
    ix.ccn + "|" + ix.owner + "|" + ix.role
  }

  /** When no part holds a '|', the key splits back into CCN, owner and role. */
  lemma KeyFields(ix: PivotIndex)
    requires Lacks(ix.ccn, '|') && Lacks(ix.owner, '|') && Lacks(ix.role, '|')
    ensures Split(Key(ix), '|') == [ix.ccn, ix.owner, ix.role]
  {
    var parts := [ix.ccn, ix.owner, ix.role];
    assert Join(parts[2..], "|") == ix.role;
    assert Join(parts[1..], "|") == ix.owner + "|" + ix.role;
    assert Join(parts, "|") == Key(ix);
    SplitJoin(parts, '|');
  }

  /**
   * A row's pivot index. The pivot groups on all its index columns, and pandas
   * drops a row with a missing cell in any of them.
   */
  function IndexOf(c: OwnerColumns): (r: Option<PivotIndex>)
    ensures r.Some? <==> c.ccn.Some? && c.provider.Some? && c.owner.Some? && c.role.Some?
                         && c.ownerType.Some? && c.location.Some?
  {
    if c.ccn.Some? && c.provider.Some? && c.owner.Some? && c.role.Some? && c.ownerType.Some? && c.location.Some?
    then Some(PivotIndex(c.ccn.value, c.provider.value, c.owner.value, c.role.value, c.ownerType.value, c.location.value))
    else None
  }

  /** The row belongs to index ix and has a percentage. */
  predicate HasPct(row: OwnerRow, ix: PivotIndex)
  {
    IndexOf(row.columns) == Some(ix) && row.percentage.Some?
  }

  /** aggfunc="first": the first present percentage among the rows of one pivot index. */
  function FirstPct(rows: seq<OwnerRow>, ix: PivotIndex): (r: Option<real>)
    ensures r.Some? <==> exists i :: 0 <= i < |rows| && HasPct(rows[i], ix)
    ensures r.Some? ==> exists i :: 0 <= i < |rows| && HasPct(rows[i], ix) && rows[i].percentage == r
                                    && forall j :: 0 <= j < i ==> !HasPct(rows[j], ix)
  {
    if rows == [] then None
    else if HasPct(rows[0], ix) then rows[0].percentage
    else
      var r := FirstPct(rows[1..], ix);
      FirstPctShift(rows, ix, r);
      r
  }

  lemma FirstPctShift(rows: seq<OwnerRow>, ix: PivotIndex, r: Option<real>)
    requires rows != [] && !HasPct(rows[0], ix)
    requires r.Some? <==> exists i :: 0 <= i < |rows[1..]| && HasPct(rows[1..][i], ix)
    requires r.Some? ==> exists i :: 0 <= i < |rows[1..]| && HasPct(rows[1..][i], ix) && rows[1..][i].percentage == r
                                     && forall j :: 0 <= j < i ==> !HasPct(rows[1..][j], ix)
    ensures r.Some? <==> exists i :: 0 <= i < |rows| && HasPct(rows[i], ix)
    ensures r.Some? ==> exists i :: 0 <= i < |rows| && HasPct(rows[i], ix) && rows[i].percentage == r
                                    && forall j :: 0 <= j < i ==> !HasPct(rows[j], ix)
  {
    if i :| 0 <= i < |rows| && HasPct(rows[i], ix) {
      assert i > 0 && rows[1..][i - 1] == rows[i];
    }
    if r.Some? {
      var i :| 0 <= i < |rows[1..]| && HasPct(rows[1..][i], ix) && rows[1..][i].percentage == r
               && forall j :: 0 <= j < i ==> !HasPct(rows[1..][j], ix);
      assert forall j :: 1 <= j < i + 1 ==> rows[j] == rows[1..][j - 1];
      assert HasPct(rows[i + 1], ix);
    }
  }

  /** The distinct pivot indexes of the rows, in order of first appearance. */
  function Indexes(rows: seq<OwnerRow>): (r: seq<PivotIndex>)
    ensures forall i, j :: 0 <= i < j < |r| ==> r[i] != r[j]
    ensures forall ix :: ix in r <==> exists i :: 0 <= i < |rows| && IndexOf(rows[i].columns) == Some(ix)
  {
    if rows == [] then []
    else
      var init := rows[..|rows| - 1];
      var rest := Indexes(init);
      var last := IndexOf(rows[|rows| - 1].columns);
      assert forall i :: 0 <= i < |init| ==> init[i] == rows[i];
      if last.Some? && last.value !in rest then rest + [last.value] else rest
  }

  /** One row of the pivot: the index and the July and September percentages. */
  datatype PivotRow = PivotRow(index: PivotIndex, july: Option<real>, sept: Option<real>)

  /** The pivot row of one index; an index with no percentage in either month has none. */
  function PivotCell(july: seq<OwnerRow>, sept: seq<OwnerRow>, ix: PivotIndex): Option<PivotRow>
  {
    var j, s := FirstPct(july, ix), FirstPct(sept, ix);
    if j.None? && s.None? then None else Some(PivotRow(ix, j, s))
  }

  function Pivot(july: seq<OwnerRow>, sept: seq<OwnerRow>): seq<PivotRow>
  {
    Collect(Indexes(july + sept), ix => PivotCell(july, sept, ix))
  }

  // ---------------------------------------------------------------------------
  // The flags
  // ---------------------------------------------------------------------------

  predicate Appeared(p: PivotRow) { p.july.None? && p.sept.Some? }

  predicate Disappeared(p: PivotRow) { p.sept.None? && p.july.Some? }

  predicate PctChanged(p: PivotRow) { p.july.Some? && p.sept.Some? && p.july.value != p.sept.value }

  /** The three flags exclude each other, and some flag is set iff the two months differ. */
  lemma FlagsPartition(p: PivotRow)
    ensures !(Appeared(p) && Disappeared(p)) && !(Appeared(p) && PctChanged(p)) && !(Disappeared(p) && PctChanged(p))
    ensures Appeared(p) || Disappeared(p) || PctChanged(p) <==> p.july != p.sept
  {
  }

  /** A pivot row with its three flag columns. */
  datatype FlaggedRow = FlaggedRow(row: PivotRow, appeared: bool, disappeared: bool, pctChanged: bool)

  function Flags(p: PivotRow): FlaggedRow
  {
    FlaggedRow(p, Appeared(p), Disappeared(p), PctChanged(p))
  }

  predicate AnyFlag(c: FlaggedRow) { c.appeared || c.disappeared || c.pctChanged }

  /** The flagged pivot rows, in pivot order. */
  function Changed(pivot: seq<PivotRow>): seq<FlaggedRow>
  {
    Collect(pivot, p => if AnyFlag(Flags(p)) then Some(Flags(p)) else None)
  }

  /** Adding the flag columns and keeping the rows with at least one flag set. */
  method FlagChanges(pivot: seq<PivotRow>) returns (changes: seq<FlaggedRow>)
    ensures changes == Changed(pivot)
  {
    var keep := p => if AnyFlag(Flags(p)) then Some(Flags(p)) else None;
    changes := [];
    var i := 0;
    while i < |pivot|
      invariant 0 <= i <= |pivot|
      invariant changes == Collect(pivot[..i], keep)
    {
      CollectSnoc(pivot, keep, i);
      var flagged := FlaggedRow(pivot[i], Appeared(pivot[i]), Disappeared(pivot[i]), PctChanged(pivot[i]));
      if flagged.appeared || flagged.disappeared || flagged.pctChanged {
        changes := changes + [flagged];
      }
      i := i + 1;
    }
    assert pivot[..i] == pivot;
  }

  /** A kept row is a pivot row whose months differ, with its own flags. */
  lemma ChangedMembers(pivot: seq<PivotRow>, c: FlaggedRow)
    ensures c in Changed(pivot) <==> c.row in pivot && c.row.july != c.row.sept && c == Flags(c.row)
  {
    var keep := p => if AnyFlag(Flags(p)) then Some(Flags(p)) else None;
    CollectMembers(pivot, keep, c);
    if c.row in pivot && c.row.july != c.row.sept && c == Flags(c.row) {
      var i :| 0 <= i < |pivot| && pivot[i] == c.row;
      FlagsPartition(c.row);
      assert keep(pivot[i]) == Some(c);
    }
    if c in Changed(pivot) {
      var i :| 0 <= i < |pivot| && keep(pivot[i]) == Some(c);
      FlagsPartition(pivot[i]);
    }
  }

  /** The whole diff: clean both months, pivot, flag and filter. */
  function OwnershipChanges(july: seq<RawOwnerRow>, sept: seq<RawOwnerRow>): seq<FlaggedRow>
  {
    Changed(Pivot(CleanedAll(july), CleanedAll(sept)))
  }

  /** Some row of the month has a pivot index and a percentage. */
  predicate MonthHasPct(rows: seq<OwnerRow>)
  {
    exists i :: 0 <= i < |rows| && IndexOf(rows[i].columns).Some? && rows[i].percentage.Some?
  }

  /**
   * The diff as the script runs it. `pivot_table` drops a month column that has
   * no value at all, and `pivot["July"]` (read first) or `pivot["Sept"]` then
   * raises KeyError.
   */
  function OwnershipReport(july: seq<RawOwnerRow>, sept: seq<RawOwnerRow>): (r: Result<seq<FlaggedRow>>)
    ensures r.Err? <==> !MonthHasPct(CleanedAll(july)) || !MonthHasPct(CleanedAll(sept))
    ensures !MonthHasPct(CleanedAll(july)) ==> r == Err("KeyError: 'July'")
    ensures MonthHasPct(CleanedAll(july)) && !MonthHasPct(CleanedAll(sept)) ==> r == Err("KeyError: 'Sept'")
    ensures r.Ok? ==> r.value == OwnershipChanges(july, sept)
  {
    var pivot := Pivot(CleanedAll(july), CleanedAll(sept));
    PivotMonthPresent(CleanedAll(july), CleanedAll(sept));
    if !(exists p :: p in pivot && p.july.Some?) then Err("KeyError: 'July'")
    else if !(exists p :: p in pivot && p.sept.Some?) then Err("KeyError: 'Sept'")
    else Ok(Changed(pivot))
  }

  /** The pivot has a value for a month somewhere iff some row of that month has an index and a percentage. */
  lemma PivotMonthPresent(july: seq<OwnerRow>, sept: seq<OwnerRow>)
    ensures (exists p :: p in Pivot(july, sept) && p.july.Some?) <==> MonthHasPct(july)
    ensures (exists p :: p in Pivot(july, sept) && p.sept.Some?) <==> MonthHasPct(sept)
  {
    var keys := Indexes(july + sept);
    var cell := ix => PivotCell(july, sept, ix);
    forall p | p in Pivot(july, sept)
      ensures p.july == FirstPct(july, p.index) && p.sept == FirstPct(sept, p.index)
    {
      CollectMembers(keys, cell, p);
    }
    if MonthHasPct(july) {
      var i :| 0 <= i < |july| && IndexOf(july[i].columns).Some? && july[i].percentage.Some?;
      var ix := IndexOf(july[i].columns).value;
      assert HasPct(july[i], ix) && (july + sept)[i] == july[i];
      PivotHas(july, sept, ix);
    }
    if MonthHasPct(sept) {
      var i :| 0 <= i < |sept| && IndexOf(sept[i].columns).Some? && sept[i].percentage.Some?;
      var ix := IndexOf(sept[i].columns).value;
      assert HasPct(sept[i], ix) && (july + sept)[|july| + i] == sept[i];
      PivotHas(july, sept, ix);
    }
  }

  /** An index of the combined months with a value in some month has its row in the pivot. */
  lemma PivotHas(july: seq<OwnerRow>, sept: seq<OwnerRow>, ix: PivotIndex)
    requires ix in Indexes(july + sept)
    requires FirstPct(july, ix).Some? || FirstPct(sept, ix).Some?
    ensures PivotRow(ix, FirstPct(july, ix), FirstPct(sept, ix)) in Pivot(july, sept)
  {
    var p := PivotRow(ix, FirstPct(july, ix), FirstPct(sept, ix));
    var cell := ix => PivotCell(july, sept, ix);
    var keys := Indexes(july + sept);
    var k :| 0 <= k < |keys| && keys[k] == ix;
    assert cell(keys[k]) == Some(p);
    CollectMembers(keys, cell, p);
  }

  function CleanedAll(frame: seq<RawOwnerRow>): (rows: seq<OwnerRow>)
    ensures |rows| == |frame| && forall i :: 0 <= i < |frame| ==> rows[i] == Cleaned(frame[i])
  {
    seq(|frame|, i requires 0 <= i < |frame| => Cleaned(frame[i]))
  }

  /** A reported row carries its index's first July and first September percentage, which differ. */
  lemma ReportedRow(july: seq<OwnerRow>, sept: seq<OwnerRow>, c: FlaggedRow)
    requires c in Changed(Pivot(july, sept))
    ensures c.row.july == FirstPct(july, c.row.index) && c.row.sept == FirstPct(sept, c.row.index)
    ensures c.row.july != c.row.sept && c == Flags(c.row)
  {
    ChangedMembers(Pivot(july, sept), c);
    CollectMembers(Indexes(july + sept), ix => PivotCell(july, sept, ix), c.row);
  }

  /** An index whose first July and first September percentages differ is reported. */
  lemma ReportedWhenDiffer(july: seq<OwnerRow>, sept: seq<OwnerRow>, ix: PivotIndex)
    requires ix in Indexes(july + sept)
    requires FirstPct(july, ix) != FirstPct(sept, ix)
    ensures Flags(PivotRow(ix, FirstPct(july, ix), FirstPct(sept, ix))) in Changed(Pivot(july, sept))
  {
    var p := PivotRow(ix, FirstPct(july, ix), FirstPct(sept, ix));
    var cell := ix => PivotCell(july, sept, ix);
    var keys := Indexes(july + sept);
    var k :| 0 <= k < |keys| && keys[k] == ix;
    assert cell(keys[k]) == Some(p);
    CollectMembers(keys, cell, p);
    ChangedMembers(Pivot(july, sept), Flags(p));
  }

  /** Some row of either month has the pivot index ix. */
  predicate Listed(rows: seq<OwnerRow>, ix: PivotIndex)
  {
    exists i :: 0 <= i < |rows| && IndexOf(rows[i].columns) == Some(ix)
  }

  /**
   * An owner row of either month is reported iff its first July percentage and
   * its first September percentage differ; the report carries both.
   */
  lemma ReportedIff(july: seq<OwnerRow>, sept: seq<OwnerRow>, ix: PivotIndex)
    requires Listed(july + sept, ix)
    ensures (exists c :: c in Changed(Pivot(july, sept)) && c.row.index == ix) <==> FirstPct(july, ix) != FirstPct(sept, ix)
    ensures forall c :: c in Changed(Pivot(july, sept)) && c.row.index == ix ==>
              c.row.july == FirstPct(july, ix) && c.row.sept == FirstPct(sept, ix)
  {
    forall c | c in Changed(Pivot(july, sept)) && c.row.index == ix
      ensures c.row.july == FirstPct(july, ix) && c.row.sept == FirstPct(sept, ix) && c.row.july != c.row.sept
    {
      ReportedRow(july, sept, c);
    }
    if FirstPct(july, ix) != FirstPct(sept, ix) {
      ReportedWhenDiffer(july, sept, ix);
    }
  }

  /** With one row per month, the pivot reads each month's percentage off its row. */
  lemma OneRowEach(july: seq<OwnerRow>, sept: seq<OwnerRow>, ix: PivotIndex)
    requires |july| == 1 && |sept| == 1
    requires IndexOf(july[0].columns) == Some(ix) || IndexOf(sept[0].columns) == Some(ix)
    ensures ix in Indexes(july + sept)
    ensures FirstPct(july, ix) == (if HasPct(july[0], ix) then july[0].percentage else None)
    ensures FirstPct(sept, ix) == (if HasPct(sept[0], ix) then sept[0].percentage else None)
  {
    assert (july + sept)[0] == july[0] && (july + sept)[1] == sept[0];
    assert july[1..] == [] && sept[1..] == [];
  }

  /** A July percentage that becomes NOT APPLICABLE in September is reported as a removed owner. */
  lemma NotApplicableReportedRemoved(cols: OwnerColumns, n: nat, na: string)
    requires IndexOf(cols).Some? && Upper(na) == NotApplicable
    ensures var changes := OwnershipChanges([RawOwnerRow(cols, Some(NatStr(n) + "%"))], [RawOwnerRow(cols, Some(na))]);
            exists c :: c in changes && c.row.index == IndexOf(cols).value
                        && c.disappeared && c.row.july == Some(n as real) && c.row.sept == None
    ensures OwnershipReport([RawOwnerRow(cols, Some(NatStr(n) + "%"))], [RawOwnerRow(cols, Some(na))]) == Err("KeyError: 'Sept'")
  {
    CleanPctOfPercent(n);
    NotApplicableIsMissing(na);
    var july := CleanedAll([RawOwnerRow(cols, Some(NatStr(n) + "%"))]);
    var sept := CleanedAll([RawOwnerRow(cols, Some(na))]);
    var ix := IndexOf(cols).value;
    assert OwnershipChanges([RawOwnerRow(cols, Some(NatStr(n) + "%"))], [RawOwnerRow(cols, Some(na))]) == Changed(Pivot(july, sept));
    OneRowEach(july, sept, ix);
    var c := Flags(PivotRow(ix, FirstPct(july, ix), FirstPct(sept, ix)));
    ReportedWhenDiffer(july, sept, ix);
    assert c.disappeared;
    assert july[0].percentage.Some? && sept[0].percentage.None?;
    SeptMissingStops([RawOwnerRow(cols, Some(NatStr(n) + "%"))], [RawOwnerRow(cols, Some(na))]);
  }

  /** July has a percentage and September none: the script stops at `pivot["Sept"]`. */
  lemma SeptMissingStops(july: seq<RawOwnerRow>, sept: seq<RawOwnerRow>)
    requires |july| == 1 && |sept| == 1 && IndexOf(july[0].columns).Some?
    requires CleanPct(july[0].percentage).Some? && CleanPct(sept[0].percentage).None?
    ensures OwnershipReport(july, sept) == Err("KeyError: 'Sept'")
  {
    var j, s := CleanedAll(july), CleanedAll(sept);
    assert j[0].percentage.Some? && s[0].percentage.None?;
    assert forall i :: 0 <= i < |s| ==> s[i].percentage.None? by {
      forall i | 0 <= i < |s| ensures s[i].percentage.None? { assert i == 0; }
    }
    assert MonthHasPct(j);
  }

  /**
   * The pivot groups on provider name, owner type and location as well as the key:
   * an owner whose key is unchanged but whose location (say) changed is reported
   * as one removed and one added owner.
   */
  lemma RelocatedOwnerSplits(a: OwnerColumns, b: OwnerColumns, pct: string)
    requires IndexOf(a).Some? && IndexOf(b).Some? && IndexOf(a) != IndexOf(b)
    requires Key(IndexOf(a).value) == Key(IndexOf(b).value)
    requires CleanPct(Some(pct)).Some?
    ensures var changes := OwnershipChanges([RawOwnerRow(a, Some(pct))], [RawOwnerRow(b, Some(pct))]);
            (exists c :: c in changes && c.row.index == IndexOf(a).value && c.disappeared)
            && (exists c :: c in changes && c.row.index == IndexOf(b).value && c.appeared)
    ensures OwnershipReport([RawOwnerRow(a, Some(pct))], [RawOwnerRow(b, Some(pct))])
         == Ok(OwnershipChanges([RawOwnerRow(a, Some(pct))], [RawOwnerRow(b, Some(pct))]))
  {
    var july := CleanedAll([RawOwnerRow(a, Some(pct))]);
    var sept := CleanedAll([RawOwnerRow(b, Some(pct))]);
    var ia, ib := IndexOf(a).value, IndexOf(b).value;
    assert OwnershipChanges([RawOwnerRow(a, Some(pct))], [RawOwnerRow(b, Some(pct))]) == Changed(Pivot(july, sept));
    OneRowEach(july, sept, ia);
    var ca := Flags(PivotRow(ia, FirstPct(july, ia), FirstPct(sept, ia)));
    ReportedWhenDiffer(july, sept, ia);
    assert ca.disappeared;
    OneRowEach(july, sept, ib);
    var cb := Flags(PivotRow(ib, FirstPct(july, ib), FirstPct(sept, ib)));
    ReportedWhenDiffer(july, sept, ib);
    assert cb.appeared;
    assert july[0].percentage.Some? && sept[0].percentage.Some?;
    assert MonthHasPct(july) && MonthHasPct(sept);
  }

  // ---------------------------------------------------------------------------
  // City, State and the facility summaries
  // ---------------------------------------------------------------------------

  /** `Location.str.split(',').str[-3]`: missing when the location has fewer than three fields. */
  function CityOf(location: string): (r: Option<string>)
    ensures r.Some? ==> Lacks(r.value, ',')
  {
    var parts := Split(location, ',');
    if |parts| >= 3 then Some(parts[|parts| - 3]) else None
  }

  /** `Location.str.split(',').str[-2]`. */
  function StateOf(location: string): (r: Option<string>)
    ensures r.Some? ==> Lacks(r.value, ',')
  {
    var parts := Split(location, ',');
    if |parts| >= 2 then Some(parts[|parts| - 2]) else None
  }

  /** City and State are the third- and second-to-last comma fields of the location. */
  lemma LocationFields(parts: seq<string>)
    requires |parts| >= 3 && forall i :: 0 <= i < |parts| ==> Lacks(parts[i], ',')
    ensures CityOf(Join(parts, ",")) == Some(parts[|parts| - 3])
    ensures StateOf(Join(parts, ",")) == Some(parts[|parts| - 2])
  {
    SplitJoin(parts, ',');
  }

  predicate InHouston(c: FlaggedRow)
  {
    var city := CityOf(c.row.index.location);
    city.Some? && Upper(Strip(city.value)) == "HOUSTON"
  }

  /** One line of a facility summary. */
  datatype SummaryLine =
    | OwnerAdded(owner: string, sept: real)
    | OwnerRemoved(owner: string, july: real)
    | PercentChanged(owner: string, july: real, sept: real)

  /** The if/elif chain over the flag columns: appeared, then disappeared, then pct_changed. */
  function SummaryOf(c: FlaggedRow): Option<SummaryLine>
  {
    var owner := c.row.index.owner;
    if c.appeared && c.row.sept.Some? then Some(OwnerAdded(owner, c.row.sept.value))
    else if c.disappeared && c.row.july.Some? then Some(OwnerRemoved(owner, c.row.july.value))
    else if c.pctChanged && c.row.july.Some? && c.row.sept.Some? then
      Some(PercentChanged(owner, c.row.july.value, c.row.sept.value))
    else None
  }

  /** Every reported row gives exactly the summary line of its one flag, with its percentages. */
  lemma SummaryOfReported(pivot: seq<PivotRow>, c: FlaggedRow)
    requires c in Changed(pivot)
    ensures SummaryOf(c).Some?
    ensures SummaryOf(c).value.OwnerAdded? <==> c.appeared
    ensures SummaryOf(c).value.OwnerRemoved? <==> c.disappeared
    ensures SummaryOf(c).value.PercentChanged? <==> c.pctChanged
    ensures SummaryOf(c).value.owner == c.row.index.owner
    ensures !SummaryOf(c).value.OwnerAdded? ==> Some(SummaryOf(c).value.july) == c.row.july
    ensures !SummaryOf(c).value.OwnerRemoved? ==> Some(SummaryOf(c).value.sept) == c.row.sept
  {
    ChangedMembers(pivot, c);
    FlagsPartition(c.row);
  }

  predicate OfFacility(c: FlaggedRow, ccn: string, provider: string)
  {
    c.row.index.ccn == ccn && c.row.index.provider == provider
  }

  /** The summary of one Houston facility: one line per reported owner row. */
  function FacilityLines(changes: seq<FlaggedRow>, ccn: string, provider: string): seq<SummaryLine>
  {
    Collect(Filter(changes, c => InHouston(c) && OfFacility(c, ccn, provider)), SummaryOf)
  }

  /** Each reported owner row of a Houston facility gives one summary line, in order. */
  lemma FacilityLinesOnePerRow(pivot: seq<PivotRow>, ccn: string, provider: string)
    ensures var rows := Filter(Changed(pivot), c => InHouston(c) && OfFacility(c, ccn, provider));
            |FacilityLines(Changed(pivot), ccn, provider)| == |rows|
            && forall i :: 0 <= i < |rows| ==> SummaryOf(rows[i]) == Some(FacilityLines(Changed(pivot), ccn, provider)[i])
  {
    var rows := Filter(Changed(pivot), c => InHouston(c) && OfFacility(c, ccn, provider));
    forall i | 0 <= i < |rows| ensures SummaryOf(rows[i]).Some? {
      assert rows[i] in rows;
      SummaryOfReported(pivot, rows[i]);
    }
    CollectTotal(rows, SummaryOf);
  }
}
