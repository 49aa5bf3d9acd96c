// The "what's new" change detector: five diff rules compare the previous snapshot
// of five CMS tables with the current one for a facility (CCN) and emit typed
// events; the changelog concatenates them and stably sorts them by severity.
module CmsWatch {
  import opened Common
  import Sorting

  /** Calendar dates and timestamps, totally ordered. */
  type Date = int

  // ---------------------------------------------------------------------------
  // Events
  // ---------------------------------------------------------------------------

  datatype Severity = High | Warn | Info

  datatype Kind = Penalty | Deficiency | Star | Staffing | Qrp | Vbp

  datatype StarField = OverallRating | StaffingRating

  datatype TurnoverMetric = RnTurnover | TotalNurseTurnover | AdministratorTurnover

  datatype Measure =
    | DischargeToCommunity
    | PreventableReadmission
    | MspbPac
    | HaiHospitalization

  /** The `data` part of an event. */
  datatype Payload =
    | Cmp(amount: real)
    | Dpna(start: Date, end: Option<Date>)
    | NewDeficiency(tag: Option<string>, scopeSeverity: Option<string>, date: Option<Date>)
    | StarMove(field: StarField, from: Option<real>, to: real)
    | HprdDrop(hprdFrom: real, hprdTo: real)
    | WeekendLow(weekend: real, overall: real)
    | TurnoverRise(metric: TurnoverMetric, rateFrom: real, rateTo: real)
    | MeasureMove(measure: Measure, from: Option<real>, to: real, up: bool)
    | MultiplierMove(from: Option<real>, to: real)

  /** One changelog entry: `{type, severity, message, data}` without the message text. */
  datatype Event = Event(kind: Kind, severity: Severity, data: Payload)

  // ---------------------------------------------------------------------------
  // Tables (one record per row; a missing or NaN cell is None)
  // ---------------------------------------------------------------------------

  datatype PenaltyRow = PenaltyRow(
    ccn: string, imposed: Option<Date>, amount: Option<real>,
    dpnaStart: Option<Date>, dpnaEnd: Option<Date>)

  datatype DeficiencyRow = DeficiencyRow(
    ccn: string, tag: Option<string>, inspection: Option<Date>, scopeSeverity: Option<string>)

  datatype ProviderRow = ProviderRow(
    ccn: string, monthYear: Option<Date>,
    name: Option<string>, city: Option<string>, state: Option<string>,
    overall: Option<real>, staffing: Option<real>,
    hprd: Option<real>, weekendHprd: Option<real>,
    rnTurnover: Option<real>, totalTurnover: Option<real>, adminTurnover: Option<real>)

  datatype QrpRow = QrpRow(
    ccn: string, asOf: Option<Date>, reportingEnd: Option<Date>, values: map<Measure, real>)

  /** The QRP table also records which optional columns it has. */
  datatype QrpTable = QrpTable(
    hasAsOf: bool, hasReportingEnd: bool, measures: set<Measure>, rows: seq<QrpRow>)

  datatype VbpRow = VbpRow(ccn: string, fiscalYear: Option<int>, multiplier: Option<real>)

  /** The five tables of one pull; a table that failed to load is empty. */
  datatype Snapshot = Snapshot(
    penalties: seq<PenaltyRow>, deficiencies: seq<DeficiencyRow>,
    provider: seq<ProviderRow>, qrp: QrpTable, vbp: seq<VbpRow>)

  const EmptySnapshot: Snapshot := Snapshot([], [], [], QrpTable(false, false, {}, []), [])

  // ---------------------------------------------------------------------------
  // CCN normalisation of a raw pull (rows as column -> text)
  // ---------------------------------------------------------------------------

  const CcnColumns: seq<string> := ["federal_provider_number", "ccn", "provider_number"]

  /** The columns of a DataFrame built from a list of records: every key seen. */
  function Columns(rows: seq<map<string, string>>): set<string>
  {
    set i, k | 0 <= i < |rows| && k in rows[i] :: k
  }

  /** The column the CCN is taken from: the first of CcnColumns the table has. */
  function CcnSource(cols: set<string>): (r: Option<string>)
    ensures r.None? <==> forall c :: c in CcnColumns ==> c !in cols
    ensures r.Some? ==> r.value in cols
    ensures r.Some? ==>
              exists j :: 0 <= j < |CcnColumns| && CcnColumns[j] == r.value && forall k :: 0 <= k < j ==> CcnColumns[k] !in cols
  {
    if CcnColumns[0] in cols then Some(CcnColumns[0])
    else if CcnColumns[1] in cols then Some(CcnColumns[1])
    else if CcnColumns[2] in cols then Some(CcnColumns[2])
    else None
  }

  /** `astype(str)` of a cell: a missing cell is NaN, which prints as "nan". */
  function CellText(row: map<string, string>, col: string): string
  {
    if col in row then row[col] else "nan"
  }

  /** The `ccn` column `_to_df` adds, or None when no source column exists. */
  function NormalizedCcns(rows: seq<map<string, string>>): (r: Option<seq<string>>)
    ensures rows == [] ==> r.None?
    ensures rows != [] ==> (r.Some? <==> CcnSource(Columns(rows)).Some?)
    ensures r.Some? ==> |r.value| == |rows|
    ensures r.Some? ==> forall i :: 0 <= i < |rows| ==>
              |r.value[i]| >= 6
              && r.value[i] == ZFill(CellText(rows[i], CcnSource(Columns(rows)).value), 6)
  {
    if rows == [] then None
    else match CcnSource(Columns(rows))
      case None => None
      case Some(col) => Some(seq(|rows|, i requires 0 <= i < |rows| => ZFill(CellText(rows[i], col), 6)))
  }

  /** `main`: every CCN given on the command line is zero-padded to 6 characters. */
  function PadCcns(args: seq<string>): (r: seq<string>)
    ensures |r| == |args|
    ensures forall i :: 0 <= i < |args| ==> |r[i]| == (if |args[i]| >= 6 then |args[i]| else 6)
    ensures forall i :: 0 <= i < |args| ==> |args[i]| >= 6 ==> r[i] == args[i]
    ensures forall i :: 0 <= i < |args| ==> 0 < |args[i]| < 6 && AllDigits(args[i]) ==>
              AllDigits(r[i]) && DigitsValue(r[i]) == DigitsValue(args[i])
  {
    var r := seq(|args|, i requires 0 <= i < |args| => ZFill(args[i], 6));
    forall i | 0 <= i < |args| && 0 < |args[i]| < 6 && AllDigits(args[i])
      ensures AllDigits(r[i]) && DigitsValue(r[i]) == DigitsValue(args[i])
    {
      ZerosPrefixValue(6 - |args[i]|, args[i]);
    }
    r
  }

  // ---------------------------------------------------------------------------
  // Snapshot store (the dated snapshot directories)
  // ---------------------------------------------------------------------------

  /** Directory names that may serve as the previous snapshot. */
  function Eligible(names: seq<string>, today: string, excludeToday: bool): (r: seq<string>)
    ensures forall n :: n in r <==> n in names && !(excludeToday && n == today)
  {
    if names == [] then []
    else (if excludeToday && names[0] == today then [] else [names[0]])
         + Eligible(names[1..], today, excludeToday)
  }

  /** The last of a list of names after sorting. */
  function Greatest(names: seq<string>): (r: string)
    requires |names| > 0
    ensures r in names
    ensures forall n :: n in names ==> LexLe(n, r)
  {
    if |names| == 1 then
      LexLeTotal(names[0], names[0]);
      names[0]
    else
      var m := Greatest(names[1..]);
      LexLeTotal(m, names[0]);
      LexLeTotal(names[0], names[0]);
      if LexLe(m, names[0]) then
        forall n | n in names[1..] ensures LexLe(n, names[0]) { LexLeTransitive(n, m, names[0]); }
        names[0]
      else m
  }

  /**
   * latest_snapshot_dir: the greatest directory name, leaving out today's when
   * asked to; None when no directory qualifies.
   */
  function LatestSnapshotName(names: seq<string>, today: string, excludeToday: bool): (r: Option<string>)
    ensures r.None? <==> forall n :: n in names ==> excludeToday && n == today
    ensures r.Some? ==> r.value in names && !(excludeToday && r.value == today)
    ensures r.Some? ==> forall n :: n in names && !(excludeToday && n == today) ==> LexLe(n, r.value)
  {
    if names == [] then None
    else
      var e := Eligible(names, today, excludeToday);
      if e == [] then None else Some(Greatest(e))
  }

  /** The snapshot directory tree: dated directories, each holding five tables. */
  class SnapshotStore {
    var dirs: seq<string>
    var tables: map<string, Snapshot>

    ghost predicate Valid()
      reads this
    {
      (forall n :: n in dirs <==> n in tables)
      && forall i, j :: 0 <= i < j < |dirs| ==> dirs[i] != dirs[j]
    }

    constructor ()
      ensures Valid() && dirs == [] && tables == map[]
    {
      dirs := [];
      tables := map[];
    }

    /** save_snapshot: today's directory now holds the given tables. */
    method Save(today: string, snap: Snapshot)
      requires Valid()
      modifies this
      ensures Valid()
      ensures tables == old(tables)[today := snap]
      ensures dirs == if today in old(dirs) then old(dirs) else old(dirs) + [today]
    {
      if today !in dirs {
        dirs := dirs + [today];
      }
      tables := tables[today := snap];
    }

    /** load_snapshot: a directory's tables (all empty for a missing directory). */
    function Load(name: string): (s: Snapshot)
      reads this
      requires Valid()
      ensures name in dirs ==> s == tables[name]
      ensures name !in dirs ==> s == EmptySnapshot
    {
      if name in tables then tables[name] else EmptySnapshot
    }
  }

  // ---------------------------------------------------------------------------
  // Rows of one facility
  // ---------------------------------------------------------------------------

  /** `df[df["ccn"] == ccn]` on any of the snapshot tables: the facility's rows, in table order. */
  function RowsFor<T(!new)>(rows: seq<T>, ccnOf: T -> string, ccn: string): (r: seq<T>)
    ensures forall x :: x in r <==> x in rows && ccnOf(x) == ccn
    ensures |r| <= |rows|
  {
    if rows == [] then []
    else (if ccnOf(rows[0]) == ccn then [rows[0]] else []) + RowsFor(rows[1..], ccnOf, ccn)
  }

  function PenaltyCcn(x: PenaltyRow): string { x.ccn }
  function DeficiencyCcn(x: DeficiencyRow): string { x.ccn }
  function ProviderCcn(x: ProviderRow): string { x.ccn }
  function QrpCcn(x: QrpRow): string { x.ccn }
  function VbpCcn(x: VbpRow): string { x.ccn }

  // ---------------------------------------------------------------------------
  // Rule 1: penalties
  // ---------------------------------------------------------------------------

  datatype PenaltyKey = PenaltyKey(
    imposed: Option<Date>, amount: Option<real>, dpnaStart: Option<Date>, dpnaEnd: Option<Date>)

  function PenaltyKeyOf(r: PenaltyRow): PenaltyKey
  {
    PenaltyKey(r.imposed, r.amount, r.dpnaStart, r.dpnaEnd)
  }

  function PenaltyKeys(rows: seq<PenaltyRow>): set<PenaltyKey>
  {
    set r | r in rows :: PenaltyKeyOf(r)
  }

  predicate CmpApplies(r: PenaltyRow) { r.amount.Some? && r.amount.value > 0.0 }

  predicate DpnaActive(r: PenaltyRow, now: Date)
  {
    r.dpnaStart.Some? && (r.dpnaEnd.None? || r.dpnaEnd.value > now)
  }

  /** What a current penalty row with a new key yields. */
  function PenaltyRowEvents(r: PenaltyRow, now: Date): (ev: seq<Event>)
    ensures forall e :: e in ev ==> e.kind == Penalty && e.severity == High
    ensures |ev| == (if CmpApplies(r) then 1 else 0) + (if DpnaActive(r, now) then 1 else 0)
    ensures CmpApplies(r) ==> ev[0] == Event(Penalty, High, Cmp(r.amount.value))
    ensures DpnaActive(r, now) ==> ev[|ev| - 1] == Event(Penalty, High, Dpna(r.dpnaStart.value, r.dpnaEnd))
    ensures !CmpApplies(r) && r.dpnaStart.None? ==> ev == []
  {
    (if CmpApplies(r) then [Event(Penalty, High, Cmp(r.amount.value))] else [])
    + (if DpnaActive(r, now) then [Event(Penalty, High, Dpna(r.dpnaStart.value, r.dpnaEnd))] else [])
  }

  function NewPenaltyEvents(prevKeys: set<PenaltyKey>, rows: seq<PenaltyRow>, now: Date): seq<Event>
  {
    if rows == [] then []
    else
      var last := rows[|rows| - 1];
      NewPenaltyEvents(prevKeys, rows[..|rows| - 1], now)
      + (if PenaltyKeyOf(last) in prevKeys then [] else PenaltyRowEvents(last, now))
  }

  /** diff_penalties as a function of the two tables. */
  function PenaltyEvents(prev: seq<PenaltyRow>, curr: seq<PenaltyRow>, ccn: string, now: Date): seq<Event>
  {
    NewPenaltyEvents(PenaltyKeys(RowsFor(prev, PenaltyCcn, ccn)), RowsFor(curr, PenaltyCcn, ccn), now)
  }

  method DiffPenalties(prev: seq<PenaltyRow>, curr: seq<PenaltyRow>, ccn: string, now: Date)
    returns (ev: seq<Event>)
    ensures ev == PenaltyEvents(prev, curr, ccn, now)
  {
    ev := [];
    var pPrev := RowsFor(prev, PenaltyCcn, ccn);
    var pCurr := RowsFor(curr, PenaltyCcn, ccn);
    if |pCurr| == 0 && |pPrev| == 0 {
      return;
    }
    var prevKeys := PenaltyKeys(pPrev);
    var i := 0;
    while i < |pCurr|
      invariant 0 <= i <= |pCurr|
      invariant ev == NewPenaltyEvents(prevKeys, pCurr[..i], now)
    {
      var row := pCurr[i];
      if PenaltyKeyOf(row) !in prevKeys {
        var rowEvents := PenaltyRowOutcome(row, now);
        ev := ev + rowEvents;
      }
      NewPenaltyEventsSnoc(prevKeys, pCurr, i, now);
      i := i + 1;
    }
    assert pCurr[..i] == pCurr;
  }

  /** The events of one penalty row whose key is new. */
  method PenaltyRowOutcome(row: PenaltyRow, now: Date) returns (ev: seq<Event>)
    ensures ev == PenaltyRowEvents(row, now)
  {
    ev := [];
    if row.amount.Some? && row.amount.value > 0.0 {
      ev := ev + [Event(Penalty, High, Cmp(row.amount.value))];
    }
    if row.dpnaStart.Some? && (row.dpnaEnd.None? || row.dpnaEnd.value > now) {
      ev := ev + [Event(Penalty, High, Dpna(row.dpnaStart.value, row.dpnaEnd))];
    }
  }

  lemma NewPenaltyEventsSnoc(prevKeys: set<PenaltyKey>, rows: seq<PenaltyRow>, i: nat, now: Date)
    requires i < |rows|
    ensures NewPenaltyEvents(prevKeys, rows[..i + 1], now)
            == NewPenaltyEvents(prevKeys, rows[..i], now)
               + (if PenaltyKeyOf(rows[i]) in prevKeys then [] else PenaltyRowEvents(rows[i], now))
  {
    assert rows[..i + 1][..i] == rows[..i];
  }

  /** Row i of rows has a key outside prevKeys and yields e. */
  predicate YieldedBy(prevKeys: set<PenaltyKey>, rows: seq<PenaltyRow>, now: Date, e: Event, i: int)
  {
    0 <= i < |rows| && PenaltyKeyOf(rows[i]) !in prevKeys && e in PenaltyRowEvents(rows[i], now)
  }

  /** Every penalty event comes from a current row whose key is new, and every such row contributes. */
  lemma PenaltyEventOrigin(prevKeys: set<PenaltyKey>, rows: seq<PenaltyRow>, now: Date, e: Event)
    ensures e in NewPenaltyEvents(prevKeys, rows, now) <==> exists i :: YieldedBy(prevKeys, rows, now, e, i)
  {
    if e in NewPenaltyEvents(prevKeys, rows, now) {
      PenaltyEventFromRow(prevKeys, rows, now, e);
    }
    if exists i :: YieldedBy(prevKeys, rows, now, e, i) {
      var i :| YieldedBy(prevKeys, rows, now, e, i);
      PenaltyRowContributes(prevKeys, rows, now, e, i);
    }
  }

  lemma {:induction false} PenaltyEventFromRow(prevKeys: set<PenaltyKey>, rows: seq<PenaltyRow>, now: Date, e: Event)
    requires e in NewPenaltyEvents(prevKeys, rows, now)
    ensures exists i :: YieldedBy(prevKeys, rows, now, e, i)
  {
    var n := |rows| - 1;
    var init := rows[..n];
    if e in NewPenaltyEvents(prevKeys, init, now) {
      PenaltyEventFromRow(prevKeys, init, now, e);
      var i :| YieldedBy(prevKeys, init, now, e, i);
      assert init[i] == rows[i];
      assert YieldedBy(prevKeys, rows, now, e, i);
    } else {
      assert YieldedBy(prevKeys, rows, now, e, n);
    }
  }

  lemma {:induction false} PenaltyRowContributes(prevKeys: set<PenaltyKey>, rows: seq<PenaltyRow>, now: Date, e: Event, i: int)
    requires YieldedBy(prevKeys, rows, now, e, i)
    ensures e in NewPenaltyEvents(prevKeys, rows, now)
  {
    var n := |rows| - 1;
    var init := rows[..n];
    var own := if PenaltyKeyOf(rows[n]) in prevKeys then [] else PenaltyRowEvents(rows[n], now);
    assert NewPenaltyEvents(prevKeys, rows, now) == NewPenaltyEvents(prevKeys, init, now) + own;
    if i < n {
      assert init[i] == rows[i];
      PenaltyRowContributes(prevKeys, init, now, e, i);
    } else {
      assert e in own;
    }
  }

  /** A facility whose current penalty keys were all seen before gets no penalty events. */
  lemma {:induction false} KnownPenaltiesSilent(prevKeys: set<PenaltyKey>, rows: seq<PenaltyRow>, now: Date)
    requires forall r :: r in rows ==> PenaltyKeyOf(r) in prevKeys
    ensures NewPenaltyEvents(prevKeys, rows, now) == []
  {
    if rows != [] {
      KnownPenaltiesSilent(prevKeys, rows[..|rows| - 1], now);
    }
  }

  /** Comparing a penalty table with itself yields nothing. */
  lemma UnchangedPenaltiesSilent(t: seq<PenaltyRow>, ccn: string, now: Date)
    ensures PenaltyEvents(t, t, ccn, now) == []
  {
    KnownPenaltiesSilent(PenaltyKeys(RowsFor(t, PenaltyCcn, ccn)), RowsFor(t, PenaltyCcn, ccn), now);
  }

  // As written, the previous snapshot's keys come from `df[key_cols].astype(str)` and
  // the current rows' keys from `str(row.get(...))`. On a parsed date column these
  // render differently: the column gives a midnight date as YYYY-MM-DD, the scalar
  // Timestamp as YYYY-MM-DD 00:00:00; a missing date is "NaT" on both sides. `iso`
  // is the YYYY-MM-DD rendering. The joined key is kept as its fields, since no
  // rendered field holds a '|'.

  /** A rendering of dates as ten-character YYYY-MM-DD text. */
  ghost predicate IsoRendering(iso: Date -> string)
  {
    forall d :: |iso(d)| == 10
  }

  /** `Series.astype(str)` of a datetime64 cell: the date alone, or "NaT". */
  function ColumnDateText(iso: Date -> string, d: Option<Date>): (s: string)
    requires IsoRendering(iso)
    ensures d.Some? ==> s == iso(d.value)
    ensures |s| == 3 || |s| == 10
  {
    if d.Some? then var day: Date := d.value; iso(day) else "NaT"
  }

  /** `str(Timestamp)`: the date followed by the midnight time, or "NaT". */
  function ScalarDateText(iso: Date -> string, d: Option<Date>): (s: string)
    requires IsoRendering(iso)
    ensures d.Some? <==> |s| == 19
    ensures d.Some? ==> s[..10] == iso(d.value)
  {
    if d.Some? then var day: Date := d.value; iso(day) + " 00:00:00" else "NaT"
  }

  datatype PenaltyKeyText = PenaltyKeyText(imposed: string, amount: Option<real>, dpnaStart: string, dpnaEnd: string)

  /** `_key(p_prev)`: a previous row's key as the date columns render it. */
  function PenaltyColumnKey(iso: Date -> string, r: PenaltyRow): PenaltyKeyText
    requires IsoRendering(iso)
  {
    PenaltyKeyText(ColumnDateText(iso, r.imposed), r.amount, ColumnDateText(iso, r.dpnaStart), ColumnDateText(iso, r.dpnaEnd))
  }

  /** The key of a current row, built field by field with `str()`. */
  function PenaltyScalarKey(iso: Date -> string, r: PenaltyRow): PenaltyKeyText
    requires IsoRendering(iso)
  {
    PenaltyKeyText(ScalarDateText(iso, r.imposed), r.amount, ScalarDateText(iso, r.dpnaStart), ScalarDateText(iso, r.dpnaEnd))
  }

  function NewPenaltyEventsAsWritten(iso: Date -> string, prevKeys: set<PenaltyKeyText>, rows: seq<PenaltyRow>, now: Date): seq<Event>
    requires IsoRendering(iso)
  {
    if rows == [] then []
    else
      var last := rows[|rows| - 1];
      NewPenaltyEventsAsWritten(iso, prevKeys, rows[..|rows| - 1], now)
      + (if PenaltyScalarKey(iso, last) in prevKeys then [] else PenaltyRowEvents(last, now))
  }

  /** diff_penalties as written, with the two renderings of the key. */
  function PenaltyEventsAsWritten(iso: Date -> string, prev: seq<PenaltyRow>, curr: seq<PenaltyRow>, ccn: string, now: Date): seq<Event>
    requires IsoRendering(iso)
  {
    NewPenaltyEventsAsWritten(iso, set r | r in RowsFor(prev, PenaltyCcn, ccn) :: PenaltyColumnKey(iso, r),
                              RowsFor(curr, PenaltyCcn, ccn), now)
  }

  /** A dated current row never finds its key among keys rendered from columns. */
  lemma {:induction false} DatedPenaltiesAlwaysNew(iso: Date -> string, prevKeys: set<PenaltyKeyText>, rows: seq<PenaltyRow>, now: Date)
    requires IsoRendering(iso)
    requires forall k :: k in prevKeys ==> |k.imposed| != 19
    requires forall r :: r in rows ==> r.imposed.Some?
    ensures NewPenaltyEventsAsWritten(iso, prevKeys, rows, now) == NewPenaltyEvents({}, rows, now)
  {
    if rows != [] {
      var last := rows[|rows| - 1];
      assert last in rows;
      assert |PenaltyScalarKey(iso, last).imposed| == 19;
      assert forall r :: r in rows[..|rows| - 1] ==> r in rows;
      DatedPenaltiesAlwaysNew(iso, prevKeys, rows[..|rows| - 1], now);
    }
  }

  /**
   * As written, a penalty table compared with itself reports its dated penalties
   * as if they were new, like a first run: every positive CMP comes back.
   */
  lemma UnchangedPenaltiesReportedAsWritten(iso: Date -> string, t: seq<PenaltyRow>, ccn: string, now: Date)
    requires IsoRendering(iso)
    requires forall r :: r in t ==> r.imposed.Some?
    ensures PenaltyEventsAsWritten(iso, t, t, ccn, now) == PenaltyEvents([], t, ccn, now)
    ensures forall r :: r in t && r.ccn == ccn && CmpApplies(r) ==>
              Event(Penalty, High, Cmp(r.amount.value)) in PenaltyEventsAsWritten(iso, t, t, ccn, now)
  {
    var rows := RowsFor(t, PenaltyCcn, ccn);
    var keys := set r | r in rows :: PenaltyColumnKey(iso, r);
    assert forall k :: k in keys ==> |k.imposed| != 19;
    DatedPenaltiesAlwaysNew(iso, keys, rows, now);
    assert PenaltyKeys(RowsFor([], PenaltyCcn, ccn)) == {};
    forall r | r in t && r.ccn == ccn && CmpApplies(r)
      ensures Event(Penalty, High, Cmp(r.amount.value)) in PenaltyEventsAsWritten(iso, t, t, ccn, now)
    {
      FirstRunPenalties(t, ccn, now, r);
    }
  }

  /** First run: with no previous table, every current penalty with a positive amount is reported. */
  lemma FirstRunPenalties(curr: seq<PenaltyRow>, ccn: string, now: Date, r: PenaltyRow)
    requires r in curr && r.ccn == ccn && CmpApplies(r)
    ensures Event(Penalty, High, Cmp(r.amount.value)) in PenaltyEvents([], curr, ccn, now)
  {
    var rows := RowsFor(curr, PenaltyCcn, ccn);
    var i :| 0 <= i < |rows| && rows[i] == r;
    assert PenaltyKeys(RowsFor([], PenaltyCcn, ccn)) == {};
    assert Event(Penalty, High, Cmp(r.amount.value)) in PenaltyRowEvents(r, now);
    assert YieldedBy({}, rows, now, Event(Penalty, High, Cmp(r.amount.value)), i);
    PenaltyEventOrigin({}, rows, now, Event(Penalty, High, Cmp(r.amount.value)));
  }

  // ---------------------------------------------------------------------------
  // Rule 2: deficiencies
  // ---------------------------------------------------------------------------

  datatype DeficiencyKey = DeficiencyKey(tag: Option<string>, inspection: Option<Date>, scopeSeverity: Option<string>)

  function DeficiencyKeyOf(r: DeficiencyRow): DeficiencyKey
  {
    DeficiencyKey(r.tag, r.inspection, r.scopeSeverity)
  }

  function DeficiencyKeys(rows: seq<DeficiencyRow>): set<DeficiencyKey>
  {
    set r | r in rows :: DeficiencyKeyOf(r)
  }

  /** Scope/severity codes J, K and L (immediate jeopardy). */
  predicate ImmediateJeopardy(code: Option<string>)
  {
    code.Some? && Upper(code.value) in {"J", "K", "L"}
  }

  /** The one event a new deficiency row yields. */
  function DeficiencyRowEvent(r: DeficiencyRow): (e: Event)
    ensures e.kind == Deficiency
    ensures e.severity == High <==> ImmediateJeopardy(r.scopeSeverity)
    ensures e.severity == High || e.severity == Warn
    ensures e.data == NewDeficiency(r.tag, if r.scopeSeverity.Some? then Some(Upper(r.scopeSeverity.value)) else None, r.inspection)
  {
    var sev := if r.scopeSeverity.Some? then Some(Upper(r.scopeSeverity.value)) else None;
    Event(Deficiency, if ImmediateJeopardy(r.scopeSeverity) then High else Warn,
          NewDeficiency(r.tag, sev, r.inspection))
  }

  function NewDeficiencyEvents(prevKeys: set<DeficiencyKey>, rows: seq<DeficiencyRow>): seq<Event>
  {
    if rows == [] then []
    else
      var last := rows[|rows| - 1];
      NewDeficiencyEvents(prevKeys, rows[..|rows| - 1])
      + (if DeficiencyKeyOf(last) in prevKeys then [] else [DeficiencyRowEvent(last)])
  }

  /** diff_deficiencies as a function of the two tables. */
  function DeficiencyEvents(prev: seq<DeficiencyRow>, curr: seq<DeficiencyRow>, ccn: string): seq<Event>
  {
    NewDeficiencyEvents(DeficiencyKeys(RowsFor(prev, DeficiencyCcn, ccn)), RowsFor(curr, DeficiencyCcn, ccn))
  }

  method DiffDeficiencies(prev: seq<DeficiencyRow>, curr: seq<DeficiencyRow>, ccn: string)
    returns (ev: seq<Event>)
    ensures ev == DeficiencyEvents(prev, curr, ccn)
  {
    ev := [];
    var dPrev := RowsFor(prev, DeficiencyCcn, ccn);
    var dCurr := RowsFor(curr, DeficiencyCcn, ccn);
    if |dCurr| == 0 {
      return;
    }
    var prevKeys := DeficiencyKeys(dPrev);
    var i := 0;
    while i < |dCurr|
      invariant 0 <= i <= |dCurr|
      invariant ev == NewDeficiencyEvents(prevKeys, dCurr[..i])
    {
      var r := dCurr[i];
      NewDeficiencyEventsSnoc(prevKeys, dCurr, i);
      if DeficiencyKeyOf(r) !in prevKeys {
        var e := DeficiencyOutcome(r);
        ev := ev + [e];
      }
      i := i + 1;
    }
    assert dCurr[..i] == dCurr;
  }

  /** The event of one deficiency row whose key is new. */
  method DeficiencyOutcome(r: DeficiencyRow) returns (e: Event)
    ensures e == DeficiencyRowEvent(r)
  {
    var sev := if r.scopeSeverity.Some? then Some(Upper(r.scopeSeverity.value)) else None;
    var level := if sev.Some? && sev.value in {"J", "K", "L"} then High else Warn;
    e := Event(Deficiency, level, NewDeficiency(r.tag, sev, r.inspection));
  }

  lemma NewDeficiencyEventsSnoc(prevKeys: set<DeficiencyKey>, rows: seq<DeficiencyRow>, i: nat)
    requires i < |rows|
    ensures NewDeficiencyEvents(prevKeys, rows[..i + 1])
            == NewDeficiencyEvents(prevKeys, rows[..i])
               + (if DeficiencyKeyOf(rows[i]) in prevKeys then [] else [DeficiencyRowEvent(rows[i])])
  {
    assert rows[..i + 1][..i] == rows[..i];
  }

  /** Number of rows whose key is not among prevKeys. */
  function CountNewDeficiencies(prevKeys: set<DeficiencyKey>, rows: seq<DeficiencyRow>): nat
  {
    if rows == [] then 0
    else CountNewDeficiencies(prevKeys, rows[1..]) + (if DeficiencyKeyOf(rows[0]) in prevKeys then 0 else 1)
  }

  lemma {:induction false} CountNewDeficienciesSnoc(prevKeys: set<DeficiencyKey>, rows: seq<DeficiencyRow>)
    requires rows != []
    ensures CountNewDeficiencies(prevKeys, rows)
            == CountNewDeficiencies(prevKeys, rows[..|rows| - 1])
               + (if DeficiencyKeyOf(rows[|rows| - 1]) in prevKeys then 0 else 1)
    decreases |rows|
  {
    if |rows| > 1 {
      CountNewDeficienciesSnoc(prevKeys, rows[1..]);
      assert rows[1..][..|rows[1..]| - 1] == rows[..|rows| - 1][1..];
    }
  }

  /** Exactly one event per current row with a new key, each a deficiency event. */
  lemma {:induction false} DeficiencyEventCount(prevKeys: set<DeficiencyKey>, rows: seq<DeficiencyRow>)
    ensures |NewDeficiencyEvents(prevKeys, rows)| == CountNewDeficiencies(prevKeys, rows)
    ensures forall e :: e in NewDeficiencyEvents(prevKeys, rows) ==> e.kind == Deficiency
  {
    if rows != [] {
      DeficiencyEventCount(prevKeys, rows[..|rows| - 1]);
      CountNewDeficienciesSnoc(prevKeys, rows);
    }
  }

  lemma {:induction false} AllNewCount(rows: seq<DeficiencyRow>)
    ensures CountNewDeficiencies({}, rows) == |rows|
  {
    if rows != [] {
      AllNewCount(rows[1..]);
    }
  }

  /** First run: every current deficiency of the facility is reported, one event each. */
  lemma FirstRunDeficiencies(curr: seq<DeficiencyRow>, ccn: string)
    ensures |DeficiencyEvents([], curr, ccn)| == |RowsFor(curr, DeficiencyCcn, ccn)|
  {
    assert DeficiencyKeys(RowsFor([], DeficiencyCcn, ccn)) == {};
    DeficiencyEventCount({}, RowsFor(curr, DeficiencyCcn, ccn));
    AllNewCount(RowsFor(curr, DeficiencyCcn, ccn));
  }

  lemma {:induction false} KnownDeficienciesSilent(prevKeys: set<DeficiencyKey>, rows: seq<DeficiencyRow>)
    requires forall r :: r in rows ==> DeficiencyKeyOf(r) in prevKeys
    ensures NewDeficiencyEvents(prevKeys, rows) == []
  {
    if rows != [] {
      KnownDeficienciesSilent(prevKeys, rows[..|rows| - 1]);
    }
  }

  /** Comparing a deficiency table with itself yields nothing. */
  lemma UnchangedDeficienciesSilent(t: seq<DeficiencyRow>, ccn: string)
    ensures DeficiencyEvents(t, t, ccn) == []
  {
    KnownDeficienciesSilent(DeficiencyKeys(RowsFor(t, DeficiencyCcn, ccn)), RowsFor(t, DeficiencyCcn, ccn));
  }

  datatype DeficiencyKeyText = DeficiencyKeyText(tag: Option<string>, inspection: string, scopeSeverity: Option<string>)

  /** `_key(d_prev)`: a previous row's key as the date column renders it. */
  function DeficiencyColumnKey(iso: Date -> string, r: DeficiencyRow): DeficiencyKeyText
    requires IsoRendering(iso)
  {
    DeficiencyKeyText(r.tag, ColumnDateText(iso, r.inspection), r.scopeSeverity)
  }

  /** The key of a current row, built field by field with `str()`. */
  function DeficiencyScalarKey(iso: Date -> string, r: DeficiencyRow): DeficiencyKeyText
    requires IsoRendering(iso)
  {
    DeficiencyKeyText(r.tag, ScalarDateText(iso, r.inspection), r.scopeSeverity)
  }

  function NewDeficiencyEventsAsWritten(iso: Date -> string, prevKeys: set<DeficiencyKeyText>, rows: seq<DeficiencyRow>): seq<Event>
    requires IsoRendering(iso)
  {
    if rows == [] then []
    else
      var last := rows[|rows| - 1];
      NewDeficiencyEventsAsWritten(iso, prevKeys, rows[..|rows| - 1])
      + (if DeficiencyScalarKey(iso, last) in prevKeys then [] else [DeficiencyRowEvent(last)])
  }

  /** diff_deficiencies as written, with the two renderings of the key. */
  function DeficiencyEventsAsWritten(iso: Date -> string, prev: seq<DeficiencyRow>, curr: seq<DeficiencyRow>, ccn: string): seq<Event>
    requires IsoRendering(iso)
  {
    NewDeficiencyEventsAsWritten(iso, set r | r in RowsFor(prev, DeficiencyCcn, ccn) :: DeficiencyColumnKey(iso, r),
                                 RowsFor(curr, DeficiencyCcn, ccn))
  }

  lemma {:induction false} DatedDeficienciesAlwaysNew(iso: Date -> string, prevKeys: set<DeficiencyKeyText>, rows: seq<DeficiencyRow>)
    requires IsoRendering(iso)
    requires forall k :: k in prevKeys ==> |k.inspection| != 19
    requires forall r :: r in rows ==> r.inspection.Some?
    ensures NewDeficiencyEventsAsWritten(iso, prevKeys, rows) == NewDeficiencyEvents({}, rows)
  {
    if rows != [] {
      var last := rows[|rows| - 1];
      assert last in rows;
      assert |DeficiencyScalarKey(iso, last).inspection| == 19;
      assert forall r :: r in rows[..|rows| - 1] ==> r in rows;
      DatedDeficienciesAlwaysNew(iso, prevKeys, rows[..|rows| - 1]);
    }
  }

  /**
   * As written, a deficiency table compared with itself reports every dated row
   * again: one event per row of the facility, as on a first run.
   */
  lemma UnchangedDeficienciesReportedAsWritten(iso: Date -> string, t: seq<DeficiencyRow>, ccn: string)
    requires IsoRendering(iso)
    requires forall r :: r in t ==> r.inspection.Some?
    ensures DeficiencyEventsAsWritten(iso, t, t, ccn) == DeficiencyEvents([], t, ccn)
    ensures |DeficiencyEventsAsWritten(iso, t, t, ccn)| == |RowsFor(t, DeficiencyCcn, ccn)|
  {
    var rows := RowsFor(t, DeficiencyCcn, ccn);
    var keys := set r | r in rows :: DeficiencyColumnKey(iso, r);
    assert forall k :: k in keys ==> |k.inspection| != 19;
    DatedDeficienciesAlwaysNew(iso, keys, rows);
    assert DeficiencyKeys(RowsFor([], DeficiencyCcn, ccn)) == {};
    FirstRunDeficiencies(t, ccn);
  }

  // ---------------------------------------------------------------------------
  // Rule 3: provider information (stars, staffing, turnover)
  // ---------------------------------------------------------------------------

  function MonthKeys(rows: seq<ProviderRow>): (k: seq<Option<Date>>)
    ensures |k| == |rows| && forall i :: 0 <= i < |rows| ==> k[i] == rows[i].monthYear
  {
    seq(|rows|, i requires 0 <= i < |rows| => rows[i].monthYear)
  }

  /** latest_row: the row `sort_values("month_year").iloc[-1]` picks, None for no rows. */
  function LatestProvider(rows: seq<ProviderRow>): (r: Option<ProviderRow>)
    ensures r.None? <==> rows == []
    ensures r.Some? ==> r.value in rows
  {
    if rows == [] then None else Some(rows[LatestIndex(MonthKeys(rows))])
  }

  const StarFields: seq<StarField> := [OverallRating, StaffingRating]

  const TurnoverMetrics: seq<TurnoverMetric> := [RnTurnover, TotalNurseTurnover, AdministratorTurnover]

  function StarOf(r: Option<ProviderRow>, f: StarField): Option<real>
  {
    if r.None? then None
    else match f
      case OverallRating => r.value.overall
      case StaffingRating => r.value.staffing
  }

  function TurnoverOf(r: Option<ProviderRow>, m: TurnoverMetric): Option<real>
  {
    if r.None? then None
    else match m
      case RnTurnover => r.value.rnTurnover
      case TotalNurseTurnover => r.value.totalTurnover
      case AdministratorTurnover => r.value.adminTurnover
  }

  /** One rating's event: reported when new, changed when different. */
  function StarEvent(f: StarField, before: Option<real>, after: Option<real>): (ev: seq<Event>)
    ensures |ev| <= 1
    ensures |ev| == 1 <==> after.Some? && (before.None? || before.value != after.value)
    ensures |ev| == 1 ==> ev[0].kind == Star && ev[0].data == StarMove(f, before, after.value)
    ensures |ev| == 1 ==>
              (ev[0].severity == Warn <==> f == OverallRating && before.Some? && after.value < before.value)
    ensures |ev| == 1 ==> ev[0].severity in {Warn, Info}
  {
    if after.Some? && (before.None? || before.value != after.value) then
      var sev := if f == OverallRating && before.Some? && after.value - before.value < 0.0 then Warn else Info;
      [Event(Star, sev, StarMove(f, before, after.value))]
    else []
  }

  function StarPart(fields: seq<StarField>, prev: Option<ProviderRow>, curr: ProviderRow): seq<Event>
  {
    if fields == [] then []
    else
      var f := fields[|fields| - 1];
      StarPart(fields[..|fields| - 1], prev, curr) + StarEvent(f, StarOf(prev, f), StarOf(Some(curr), f))
  }

  /** An extended real: the source's pct_change can return math.inf. */
  datatype ExtReal = Finite(r: real) | PosInf

  /** The outcome of evaluating a Python expression that may raise. */
  datatype Eval<T> = Value(v: T) | Raised

  /**
   * `a in (None, 0, pd.NA, pd.NaT)` for a float a: the tuple is scanned in order;
   * a == None is False, a == 0 decides when a is zero, and otherwise comparing
   * pd.NA with a gives pd.NA, whose truth value raises TypeError.
   */
  function InMissingMarkers(a: real): Eval<bool>
  {
    if a == 0.0 then Value(true) else Raised
  }

  /** pct_change as written: the exception handler returns math.inf. */
  function PctChangeAsWritten(a: real, b: real): (r: ExtReal)
    ensures r == PosInf
  {
    // For a float the membership test is either True (a is zero) or raises, so
    // the division `(b - a) / a` is never reached.
    match InMissingMarkers(a)
    case Raised => PosInf
    case Value(_) => PosInf
  }

  /** The HPRD rule over PctChangeAsWritten. */
  function HprdEventsAsWritten(prev: Option<real>, curr: Option<real>): seq<Event>
  {
    if prev.Some? && curr.Some? then
      match PctChangeAsWritten(prev.value, curr.value)
      case PosInf => []
      case Finite(chg) => if chg <= -0.10 then [Event(Staffing, Warn, HprdDrop(prev.value, curr.value))] else []
    else []
  }

  /** As written, the HPRD-drop rule never fires. */
  lemma HprdDropNeverFiresAsWritten(prev: Option<real>, curr: Option<real>)
    ensures HprdEventsAsWritten(prev, curr) == []
  {
  }

  /** A 25% fall in total nurse hours (4.0 to 3.0) goes unreported as written. */
  lemma HprdDropMissedExample()
    ensures HprdEventsAsWritten(Some(4.0), Some(3.0)) == []
    ensures HprdEvents(Some(4.0), Some(3.0)) == [Event(Staffing, Warn, HprdDrop(4.0, 3.0))]
  {
  }

  /** pct_change as intended: relative change, +inf when the base is zero. */
  function PctChange(a: real, b: real): (r: ExtReal)
    ensures a == 0.0 <==> r == PosInf
    ensures r.Finite? ==> r.r * a == b - a
  {
    if a == 0.0 then PosInf else Finite((b - a) / a)
  }

  /** The HPRD rule: warn when total nurse hours fell by at least 10%. */
  function HprdEvents(prev: Option<real>, curr: Option<real>): (ev: seq<Event>)
    ensures |ev| <= 1
    ensures |ev| == 1 <==> prev.Some? && curr.Some? && prev.value != 0.0
                           && (curr.value - prev.value) / prev.value <= -0.10
    ensures |ev| == 1 ==> ev[0] == Event(Staffing, Warn, HprdDrop(prev.value, curr.value))
  {
    if prev.Some? && curr.Some? then
      match PctChange(prev.value, curr.value)
      case PosInf => []
      case Finite(chg) => if chg <= -0.10 then [Event(Staffing, Warn, HprdDrop(prev.value, curr.value))] else []
    else []
  }

  /** For a positive previous value the HPRD rule fires exactly when the new value is at most 90% of it. */
  lemma HprdDropThreshold(prev: real, curr: real)
    requires prev > 0.0
    ensures |HprdEvents(Some(prev), Some(curr))| == 1 <==> curr <= 0.9 * prev
  {
    var chg := (curr - prev) / prev;
    assert chg * prev == curr - prev;
    if chg <= -0.10 {
      assert chg * prev <= -0.10 * prev;
    }
    if curr <= 0.9 * prev {
      assert chg * prev <= -0.10 * prev;
    }
  }

  /** The weekend rule: current weekend hours below 80% of current total hours. */
  function WeekendEvents(prevWeekend: Option<real>, currWeekend: Option<real>, currHprd: Option<real>): (ev: seq<Event>)
    ensures |ev| <= 1
    ensures |ev| == 1 <==> prevWeekend.Some? && currWeekend.Some? && currHprd.Some?
                           && currWeekend.value < 0.8 * currHprd.value
    ensures |ev| == 1 ==> ev[0] == Event(Staffing, Info, WeekendLow(currWeekend.value, currHprd.value))
  {
    if prevWeekend.Some? && currWeekend.Some? && currHprd.Some? && currWeekend.value < 0.8 * currHprd.value then
      [Event(Staffing, Info, WeekendLow(currWeekend.value, currHprd.value))]
    else []
  }

  /** The turnover rule: an increase of at least 5 percentage points. */
  function TurnoverEvent(m: TurnoverMetric, before: Option<real>, after: Option<real>): (ev: seq<Event>)
    ensures |ev| <= 1
    ensures |ev| == 1 <==> before.Some? && after.Some? && after.value - before.value >= 0.05
    ensures |ev| == 1 ==> ev[0] == Event(Staffing, Warn, TurnoverRise(m, before.value, after.value))
  {
    if before.Some? && after.Some? && after.value - before.value >= 0.05 then
      [Event(Staffing, Warn, TurnoverRise(m, before.value, after.value))]
    else []
  }

  function TurnoverPart(metrics: seq<TurnoverMetric>, prev: Option<ProviderRow>, curr: ProviderRow): seq<Event>
  {
    if metrics == [] then []
    else
      var m := metrics[|metrics| - 1];
      TurnoverPart(metrics[..|metrics| - 1], prev, curr) + TurnoverEvent(m, TurnoverOf(prev, m), TurnoverOf(Some(curr), m))
  }

  function HprdOf(r: Option<ProviderRow>): Option<real>
  {
    if r.None? then None else r.value.hprd
  }

  function WeekendOf(r: Option<ProviderRow>): Option<real>
  {
    if r.None? then None else r.value.weekendHprd
  }

  /** The provider-info events of the two latest rows. */
  function ProviderRowEvents(prev: Option<ProviderRow>, curr: ProviderRow): seq<Event>
  {
    StarPart(StarFields, prev, curr)
    + (HprdEvents(HprdOf(prev), curr.hprd) + WeekendEvents(WeekendOf(prev), curr.weekendHprd, curr.hprd))
    + TurnoverPart(TurnoverMetrics, prev, curr)
  }

  /** diff_provider_info as a function of the two tables. */
  function ProviderEvents(prev: seq<ProviderRow>, curr: seq<ProviderRow>, ccn: string): seq<Event>
  {
    var pCurr := RowsFor(curr, ProviderCcn, ccn);
    if pCurr == [] then []
    else ProviderRowEvents(LatestProvider(RowsFor(prev, ProviderCcn, ccn)), LatestProvider(pCurr).value)
  }

  method DiffProviderInfo(prev: seq<ProviderRow>, curr: seq<ProviderRow>, ccn: string)
    returns (ev: seq<Event>)
    ensures ev == ProviderEvents(prev, curr, ccn)
  {
    ev := [];
    var pPrev := RowsFor(prev, ProviderCcn, ccn);
    var pCurr := RowsFor(curr, ProviderCcn, ccn);
    if |pCurr| == 0 {
      return;
    }
    var rPrev := LatestProvider(pPrev);
    var rCurr := LatestProvider(pCurr).value;

    ev := StarChanges(rPrev, rCurr);
    var staffing := StaffingChanges(rPrev, rCurr);
    var turnover := TurnoverChanges(rPrev, rCurr);
    ev := ev + staffing + turnover;
  }

  /** The HPRD and weekend rules of diff_provider_info. */
  method StaffingChanges(rPrev: Option<ProviderRow>, rCurr: ProviderRow) returns (ev: seq<Event>)
    ensures ev == HprdEvents(HprdOf(rPrev), rCurr.hprd) + WeekendEvents(WeekendOf(rPrev), rCurr.weekendHprd, rCurr.hprd)
  {
    ev := [];
    var hprdPrev := HprdOf(rPrev);
    var hprdCurr := rCurr.hprd;
    if hprdPrev.Some? && hprdCurr.Some? {
      var chg := PctChange(hprdPrev.value, hprdCurr.value);
      if chg.Finite? && chg.r <= -0.10 {
        ev := ev + [Event(Staffing, Warn, HprdDrop(hprdPrev.value, hprdCurr.value))];
      }
    }
    ghost var hprd := ev;
    var wkndPrev := WeekendOf(rPrev);
    var wkndCurr := rCurr.weekendHprd;
    if wkndPrev.Some? && wkndCurr.Some? && hprdCurr.Some? {
      if wkndCurr.value < 0.8 * hprdCurr.value {
        ev := ev + [Event(Staffing, Info, WeekendLow(wkndCurr.value, hprdCurr.value))];
      }
    }
    assert hprd == HprdEvents(hprdPrev, hprdCurr);
  }

  /** The star-rating loop of diff_provider_info. */
  method StarChanges(rPrev: Option<ProviderRow>, rCurr: ProviderRow) returns (ev: seq<Event>)
    ensures ev == StarPart(StarFields, rPrev, rCurr)
  {
    ev := [];
    var i := 0;
    while i < |StarFields|
      invariant 0 <= i <= |StarFields|
      invariant ev == StarPart(StarFields[..i], rPrev, rCurr)
    {
      var f := StarFields[i];
      var before := StarOf(rPrev, f);
      var after := StarOf(Some(rCurr), f);
      assert StarFields[..i + 1][..i] == StarFields[..i];
      if after.Some? && (before.None? || after.value != before.value) {
        var sev := if f == OverallRating && before.Some? && after.value - before.value < 0.0 then Warn else Info;
        ev := ev + [Event(Star, sev, StarMove(f, before, after.value))];
      }
      i := i + 1;
    }
    assert StarFields[..i] == StarFields;
  }

  /** The turnover loop of diff_provider_info. */
  method TurnoverChanges(rPrev: Option<ProviderRow>, rCurr: ProviderRow) returns (ev: seq<Event>)
    ensures ev == TurnoverPart(TurnoverMetrics, rPrev, rCurr)
  {
    ev := [];
    var j := 0;
    while j < |TurnoverMetrics|
      invariant 0 <= j <= |TurnoverMetrics|
      invariant ev == TurnoverPart(TurnoverMetrics[..j], rPrev, rCurr)
    {
      var m := TurnoverMetrics[j];
      var before := TurnoverOf(rPrev, m);
      var after := TurnoverOf(Some(rCurr), m);
      assert TurnoverMetrics[..j + 1][..j] == TurnoverMetrics[..j];
      if before.Some? && after.Some? && after.value - before.value >= 0.05 {
        ev := ev + [Event(Staffing, Warn, TurnoverRise(m, before.value, after.value))];
      }
      j := j + 1;
    }
    assert TurnoverMetrics[..j] == TurnoverMetrics;
  }

  /** The star part holds one event per listed rating that is present and new or different. */
  lemma {:induction false} StarPartOrigin(fields: seq<StarField>, prev: Option<ProviderRow>, curr: ProviderRow, e: Event)
    ensures e in StarPart(fields, prev, curr) <==>
            exists i :: 0 <= i < |fields| && e in StarEvent(fields[i], StarOf(prev, fields[i]), StarOf(Some(curr), fields[i]))
  {
    if fields != [] {
      var init := fields[..|fields| - 1];
      StarPartOrigin(init, prev, curr, e);
      assert forall i :: 0 <= i < |init| ==> init[i] == fields[i];
    }
  }

  /** First run: a present overall rating is reported, as information. */
  lemma FirstRunStarReported(curr: seq<ProviderRow>, ccn: string)
    requires RowsFor(curr, ProviderCcn, ccn) != []
    requires LatestProvider(RowsFor(curr, ProviderCcn, ccn)).value.overall.Some?
    ensures Event(Star, Info, StarMove(OverallRating, None,
                  LatestProvider(RowsFor(curr, ProviderCcn, ccn)).value.overall.value)) in ProviderEvents([], curr, ccn)
  {
    var rc := LatestProvider(RowsFor(curr, ProviderCcn, ccn)).value;
    assert RowsFor([], ProviderCcn, ccn) == [];
    var e := Event(Star, Info, StarMove(OverallRating, None, rc.overall.value));
    assert StarFields[0] == OverallRating;
    StarPartOrigin(StarFields, None, rc, e);
  }

  /**
   * The weekend rule looks only at the current row (the previous weekend value
   * merely has to be present), so comparing a table with itself can still
   * report low weekend staffing.
   */
  lemma UnchangedProviderWeekendEvent(t: seq<ProviderRow>, ccn: string)
    requires RowsFor(t, ProviderCcn, ccn) != []
    requires var r := LatestProvider(RowsFor(t, ProviderCcn, ccn)).value;
             r.weekendHprd.Some? && r.hprd.Some? && r.weekendHprd.value < 0.8 * r.hprd.value
    ensures var r := LatestProvider(RowsFor(t, ProviderCcn, ccn)).value;
            Event(Staffing, Info, WeekendLow(r.weekendHprd.value, r.hprd.value)) in ProviderEvents(t, t, ccn)
  {
    var r := LatestProvider(RowsFor(t, ProviderCcn, ccn)).value;
    var w := WeekendEvents(WeekendOf(Some(r)), r.weekendHprd, r.hprd);
    assert w[0] in w;
  }

  /** An overall star drop from 4 to 3 is one warning; a rise is information. */
  lemma OverallStarSeverity(before: real, after: real)
    requires before != after
    ensures StarEvent(OverallRating, Some(before), Some(after))[0].severity == (if after < before then Warn else Info)
    ensures StarEvent(StaffingRating, Some(before), Some(after))[0].severity == Info
  {
  }

  // ---------------------------------------------------------------------------
  // Rule 4: SNF quality reporting measures
  // ---------------------------------------------------------------------------

  const Measures: seq<Measure> :=
    [DischargeToCommunity, PreventableReadmission, MspbPac, HaiHospitalization]

  /** +1 when a higher value is better, -1 when a lower value is better. */
  function Polarity(m: Measure): int
  {
    match m
    case DischargeToCommunity => 1
    case PreventableReadmission => -1
    case MspbPac => -1
    case HaiHospitalization => -1
  }

  function Threshold(m: Measure): real
  {
    match m
    case HaiHospitalization => 0.01
    case _ => 0.02
  }

  /** `old or new`: a previous value of 0 (falsy) falls back to the new value. */
  function OldOrNew(before: Option<real>, after: real): real
  {
    if before.Some? && before.value != 0.0 then before.value else after
  }

  /** The move is in the measure's bad direction. */
  predicate Worse(m: Measure, before: Option<real>, after: real)
  {
    (Polarity(m) == 1 && after < OldOrNew(before, after)) || (Polarity(m) == -1 && after > OldOrNew(before, after))
  }

  function MeasureEvent(m: Measure, before: Option<real>, after: Option<real>): (ev: seq<Event>)
    ensures |ev| <= 1
    ensures |ev| == 1 <==> after.Some? && (before.None? || Abs(after.value - before.value) >= Threshold(m))
    ensures |ev| == 1 ==> ev[0].kind == Qrp && ev[0].data.MeasureMove? && ev[0].data.measure == m
                          && ev[0].data.from == before && ev[0].data.to == after.value
    ensures |ev| == 1 ==> (ev[0].severity == Warn <==>
              before.Some? && before.value != 0.0
              && ((Polarity(m) == 1 && after.value < before.value) || (Polarity(m) == -1 && after.value > before.value)))
    ensures |ev| == 1 ==> ev[0].severity in {Warn, Info}
  {
    if after.Some? && (before.None? || Abs(after.value - before.value) >= Threshold(m)) then
      var up := after.value > (if before.Some? then before.value else after.value);
      var sev := if before.Some? && Worse(m, before, after.value) then Warn else Info;
      [Event(Qrp, sev, MeasureMove(m, before, after.value, up))]
    else []
  }

  /** A previous value of 0 is never a worsening, whatever the new value. */
  lemma QrpZeroPreviousNeverWorse(m: Measure, after: real)
    requires after != 0.0 && Abs(after) >= Threshold(m)
    ensures MeasureEvent(m, Some(0.0), Some(after))[0].severity == Info
  {
  }

  function MeasureValue(r: Option<QrpRow>, m: Measure): Option<real>
  {
    if r.Some? && m in r.value.values then Some(r.value.values[m]) else None
  }

  function MeasurePart(cols: set<Measure>, ms: seq<Measure>, prev: Option<QrpRow>, curr: QrpRow): seq<Event>
  {
    if ms == [] then []
    else
      var m := ms[|ms| - 1];
      MeasurePart(cols, ms[..|ms| - 1], prev, curr)
      + (if m in cols then MeasureEvent(m, MeasureValue(prev, m), MeasureValue(Some(curr), m)) else [])
  }

  /** pick_latest sorts on as_of_date, else reporting_period_end_date, else keeps the order. */
  function QrpKeys(t: QrpTable, rows: seq<QrpRow>): (k: seq<Option<Date>>)
    ensures |k| == |rows|
  {
    seq(|rows|, i requires 0 <= i < |rows| =>
      if t.hasAsOf then rows[i].asOf
      else if t.hasReportingEnd then rows[i].reportingEnd
      else None)
  }

  function LatestQrp(t: QrpTable, rows: seq<QrpRow>): (r: Option<QrpRow>)
    ensures r.None? <==> rows == []
    ensures r.Some? ==> r.value in rows
  {
    if rows == [] then None else Some(rows[LatestIndex(QrpKeys(t, rows))])
  }

  /** With neither date column, the latest QRP row is the last one. */
  lemma LatestQrpWithoutDates(t: QrpTable, rows: seq<QrpRow>)
    requires !t.hasAsOf && !t.hasReportingEnd && rows != []
    ensures LatestQrp(t, rows) == Some(rows[|rows| - 1])
  {
    var keys := QrpKeys(t, rows);
    var i := LatestIndex(keys);
    assert keys[|rows| - 1].None?;
  }

  /** diff_snf_qrp as a function of the two tables. */
  function QrpEvents(prev: QrpTable, curr: QrpTable, ccn: string): seq<Event>
  {
    var qCurr := RowsFor(curr.rows, QrpCcn, ccn);
    if qCurr == [] then []
    else MeasurePart(curr.measures, Measures, LatestQrp(prev, RowsFor(prev.rows, QrpCcn, ccn)), LatestQrp(curr, qCurr).value)
  }

  method DiffSnfQrp(prev: QrpTable, curr: QrpTable, ccn: string) returns (ev: seq<Event>)
    ensures ev == QrpEvents(prev, curr, ccn)
  {
    ev := [];
    var qPrev := RowsFor(prev.rows, QrpCcn, ccn);
    var qCurr := RowsFor(curr.rows, QrpCcn, ccn);
    if |qCurr| == 0 {
      return;
    }
    var rPrev := LatestQrp(prev, qPrev);
    var rCurr := LatestQrp(curr, qCurr).value;
    var i := 0;
    while i < |Measures|
      invariant 0 <= i <= |Measures|
      invariant ev == MeasurePart(curr.measures, Measures[..i], rPrev, rCurr)
    {
      var m := Measures[i];
      MeasurePartSnoc(curr.measures, Measures, i, rPrev, rCurr);
      if m in curr.measures {
        var moved := MeasureChange(m, MeasureValue(rPrev, m), MeasureValue(Some(rCurr), m));
        ev := ev + moved;
      }
      i := i + 1;
    }
    assert Measures[..i] == Measures;
  }

  /** One measure's comparison in diff_snf_qrp. */
  method MeasureChange(m: Measure, before: Option<real>, after: Option<real>) returns (ev: seq<Event>)
    ensures ev == MeasureEvent(m, before, after)
  {
    ev := [];
    if after.Some? && (before.None? || Abs(after.value - before.value) >= Threshold(m)) {
      var up := after.value > (if before.Some? then before.value else after.value);
      var sev := if before.Some? && Worse(m, before, after.value) then Warn else Info;
      ev := [Event(Qrp, sev, MeasureMove(m, before, after.value, up))];
    }
  }

  lemma MeasurePartSnoc(cols: set<Measure>, ms: seq<Measure>, i: nat, prev: Option<QrpRow>, curr: QrpRow)
    requires i < |ms|
    ensures MeasurePart(cols, ms[..i + 1], prev, curr)
            == MeasurePart(cols, ms[..i], prev, curr)
               + (if ms[i] in cols then MeasureEvent(ms[i], MeasureValue(prev, ms[i]), MeasureValue(Some(curr), ms[i])) else [])
  {
    assert ms[..i + 1][..i] == ms[..i];
  }

  lemma {:induction false} MeasurePartOrigin(cols: set<Measure>, ms: seq<Measure>, prev: Option<QrpRow>, curr: QrpRow, e: Event)
    ensures e in MeasurePart(cols, ms, prev, curr) <==>
            exists i :: 0 <= i < |ms| && ms[i] in cols
                        && e in MeasureEvent(ms[i], MeasureValue(prev, ms[i]), MeasureValue(Some(curr), ms[i]))
  {
    if ms != [] {
      var init := ms[..|ms| - 1];
      MeasurePartOrigin(cols, init, prev, curr, e);
      assert forall i :: 0 <= i < |init| ==> init[i] == ms[i];
    }
  }

  /** Only measures whose column the current table has produce events. */
  lemma QrpOnlyPresentColumns(prev: QrpTable, curr: QrpTable, ccn: string, e: Event)
    requires e in QrpEvents(prev, curr, ccn)
    ensures e.kind == Qrp && e.data.MeasureMove? && e.data.measure in curr.measures
  {
    var qCurr := RowsFor(curr.rows, QrpCcn, ccn);
    MeasurePartOrigin(curr.measures, Measures, LatestQrp(prev, RowsFor(prev.rows, QrpCcn, ccn)), LatestQrp(curr, qCurr).value, e);
  }

  /** First run: each present measure value of the latest row is reported, as information. */
  lemma FirstRunQrp(curr: QrpTable, ccn: string, m: Measure)
    requires RowsFor(curr.rows, QrpCcn, ccn) != [] && m in curr.measures
    requires m in LatestQrp(curr, RowsFor(curr.rows, QrpCcn, ccn)).value.values
    ensures var v := LatestQrp(curr, RowsFor(curr.rows, QrpCcn, ccn)).value.values[m];
            Event(Qrp, Info, MeasureMove(m, None, v, false)) in QrpEvents(QrpTable(false, false, {}, []), curr, ccn)
  {
    var rc := LatestQrp(curr, RowsFor(curr.rows, QrpCcn, ccn)).value;
    var e := Event(Qrp, Info, MeasureMove(m, None, rc.values[m], false));
    var i: nat := match m
      case DischargeToCommunity => 0
      case PreventableReadmission => 1
      case MspbPac => 2
      case HaiHospitalization => 3;
    assert Measures[i] == m;
    assert RowsFor([], QrpCcn, ccn) == [];
    MeasurePartOrigin(curr.measures, Measures, None, rc, e);
  }

  // ---------------------------------------------------------------------------
  // Rule 5: SNF value-based purchasing
  // ---------------------------------------------------------------------------

  function FiscalYearKeys(rows: seq<VbpRow>): (k: seq<Option<int>>)
    ensures |k| == |rows|
  {
    seq(|rows|, i requires 0 <= i < |rows| => rows[i].fiscalYear)
  }

  function LatestVbp(rows: seq<VbpRow>): (r: Option<VbpRow>)
    ensures r.None? <==> rows == []
    ensures r.Some? ==> r.value in rows
  {
    if rows == [] then None else Some(rows[LatestIndex(FiscalYearKeys(rows))])
  }

  /** The incentive multiplier of a facility's latest fiscal year, if any. */
  function LatestMultiplier(rows: seq<VbpRow>, ccn: string): Option<real>
  {
    match LatestVbp(RowsFor(rows, VbpCcn, ccn))
    case None => None
    case Some(r) => r.multiplier
  }

  /** A new multiplier, or one that moved by at least 0.005; a fall is a warning. */
  function MultiplierEvent(before: Option<real>, after: Option<real>): (ev: seq<Event>)
    ensures |ev| <= 1
    ensures |ev| == 1 <==> after.Some? && (before.None? || Abs(after.value - before.value) >= 0.005)
    ensures |ev| == 1 ==> ev[0].kind == Vbp && ev[0].data == MultiplierMove(before, after.value)
    ensures |ev| == 1 ==> (ev[0].severity == Warn <==> before.Some? && after.value < before.value)
    ensures |ev| == 1 ==> ev[0].severity in {Warn, Info}
  {
    if after.Some? && (before.None? || Abs(after.value - before.value) >= 0.005) then
      [Event(Vbp, if before.Some? && after.value < before.value then Warn else Info, MultiplierMove(before, after.value))]
    else []
  }

  /** diff_snf_vbp: the multiplier of the latest fiscal year against the previous one. */
  function VbpEvents(prev: seq<VbpRow>, curr: seq<VbpRow>, ccn: string): (ev: seq<Event>)
    ensures ev == MultiplierEvent(LatestMultiplier(prev, ccn), LatestMultiplier(curr, ccn))
  {
    var vCurr := RowsFor(curr, VbpCcn, ccn);
    if vCurr == [] then []
    else
      var rPrev := LatestVbp(RowsFor(prev, VbpCcn, ccn));
      var rCurr := LatestVbp(vCurr).value;
      var before := if rPrev.Some? then rPrev.value.multiplier else None;
      var after := rCurr.multiplier;
      if after.Some? && (before.None? || Abs(after.value - before.value) >= 0.005) then
        [Event(Vbp, if before.Some? && after.value < before.value then Warn else Info, MultiplierMove(before, after.value))]
      else []
  }

  // ---------------------------------------------------------------------------
  // Changelog
  // ---------------------------------------------------------------------------

  /** sev_rank: high 0, warn 1, info 2 (every event carries one of the three). */
  function Rank(s: Severity): real
  {
    match s
    case High => 0.0
    case Warn => 1.0
    case Info => 2.0
  }

  function SeverityKey(e: Event): real { Rank(e.severity) }

  /** `events.sort(key=sev_rank)`: Python's stable sort. */
  function SortBySeverity(ev: seq<Event>): (r: seq<Event>)
    ensures |r| == |ev| && multiset(r) == multiset(ev)
    ensures forall i, j :: 0 <= i < j < |r| ==> Rank(r[i].severity) <= Rank(r[j].severity)
  {
    Sorting.SortAsc(ev, SeverityKey)
  }

  function OfSeverity(ev: seq<Event>, s: Severity): (r: seq<Event>)
    ensures forall e :: e in r ==> e.severity == s
  {
    if ev == [] then []
    else (if ev[0].severity == s then [ev[0]] else []) + OfSeverity(ev[1..], s)
  }

  lemma {:induction false} WithKeyIsOfSeverity(ev: seq<Event>, s: Severity)
    ensures Sorting.WithKey(ev, Sorting.Negate(SeverityKey), -Rank(s)) == OfSeverity(ev, s)
  {
    if ev != [] {
      WithKeyIsOfSeverity(ev[1..], s);
      assert Sorting.Negate(SeverityKey)(ev[0]) == -Rank(ev[0].severity);
    }
  }

  lemma {:induction false} NoneOfSeverity(ev: seq<Event>, s: Severity)
    requires forall e :: e in ev ==> e.severity != s
    ensures OfSeverity(ev, s) == []
  {
    if ev != [] {
      NoneOfSeverity(ev[1..], s);
    }
  }

  predicate RankSorted(t: seq<Event>)
  {
    forall i, j :: 0 <= i < j < |t| ==> Rank(t[i].severity) <= Rank(t[j].severity)
  }

  lemma RankSortedTail(t: seq<Event>)
    requires t != [] && RankSorted(t)
    ensures RankSorted(t[1..])
    ensures forall e :: e in t[1..] ==> Rank(t[0].severity) <= Rank(e.severity)
  {
    forall e | e in t[1..] ensures Rank(t[0].severity) <= Rank(e.severity) {
      var k :| 0 <= k < |t[1..]| && t[1..][k] == e;
      assert t[k + 1] == e;
    }
  }

  lemma OfSeverityCons(x: Event, rest: seq<Event>, s: Severity)
    ensures OfSeverity([x] + rest, s) == (if x.severity == s then [x] else []) + OfSeverity(rest, s)
  {
    assert ([x] + rest)[1..] == rest;
  }

  /** The high events, then the warnings, then the information events, each in order. */
  function Grouped(t: seq<Event>): seq<Event>
  {
    OfSeverity(t, High) + OfSeverity(t, Warn) + OfSeverity(t, Info)
  }

  lemma {:induction false} RankSortedSplits(t: seq<Event>)
    requires RankSorted(t)
    ensures Grouped(t) == t
  {
    if t != [] {
      var x, rest := t[0], t[1..];
      RankSortedTail(t);
      RankSortedSplits(rest);
      assert t == [x] + rest;
      GroupedCons(x, rest);
    }
  }

  lemma GroupedCons(x: Event, rest: seq<Event>)
    requires forall e :: e in rest ==> Rank(x.severity) <= Rank(e.severity)
    ensures Grouped([x] + rest) == [x] + Grouped(rest)
  {
    var h, w, n := OfSeverity(rest, High), OfSeverity(rest, Warn), OfSeverity(rest, Info);
    OfSeverityCons(x, rest, High);
    OfSeverityCons(x, rest, Warn);
    OfSeverityCons(x, rest, Info);
    match x.severity
    case High =>
      LeadsGroup(x, h, w, n);
    case Warn =>
      NoneOfSeverity(rest, High);
      LeadsGroup(x, w, [], n);
    case Info =>
      NoneOfSeverity(rest, High);
      NoneOfSeverity(rest, Warn);
      LeadsGroup(x, n, [], []);
  }

  lemma LeadsGroup<T>(x: T, a: seq<T>, b: seq<T>, c: seq<T>)
    ensures ([x] + a) + ([] + b) + ([] + c) == [x] + (a + b + c)
    ensures ([] + []) + ([x] + a) + ([] + c) == [x] + ([] + a + c)
    ensures ([] + []) + ([] + []) + ([x] + a) == [x] + ([] + [] + a)
  {
  }


  /**
   * The sorted changelog is the high events, then the warnings, then the
   * information events, each group in emission order.
   */
  lemma SortBySeverityGroups(ev: seq<Event>)
    ensures SortBySeverity(ev) == Grouped(ev)
  {
    var r := SortBySeverity(ev);
    RankSortedSplits(r);
    SortKeepsGroup(ev, High);
    SortKeepsGroup(ev, Warn);
    SortKeepsGroup(ev, Info);
  }

  /** Stability: the events of one severity keep their emission order. */
  lemma SortKeepsGroup(ev: seq<Event>, s: Severity)
    ensures OfSeverity(SortBySeverity(ev), s) == OfSeverity(ev, s)
  {
    var key := Sorting.Negate(SeverityKey);
    var r := Sorting.SortDesc(ev, key);
    assert SortBySeverity(ev) == r;
    Sorting.SortDescStable(ev, key, -Rank(s));
    WithKeyIsOfSeverity(ev, s);
    WithKeyIsOfSeverity(r, s);
  }

  datatype Header = Header(ccn: string, providerName: Option<string>, city: Option<string>, state: Option<string>)

  /**
   * The facility header as written: `provider.get("ccn", "")` on an empty provider
   * table returns the plain string "", and `"".astype(str)` raises AttributeError.
   */
  function HeaderAsWritten(provider: seq<ProviderRow>, ccn: string): Result<Header>
  {
    if provider == [] then Err("AttributeError: 'str' object has no attribute 'astype'")
    else Ok(HeaderFor(provider, ccn))
  }

  /** With an empty current provider table the changelog build stops with an error. */
  lemma HeaderCrashesOnEmptyProviderTable(ccn: string)
    ensures HeaderAsWritten([], ccn).Err?
    ensures HeaderFor([], ccn) == Header(ccn, None, None, None)
  {
  }

  /** The facility header: name, city and state of the latest provider row, if any. */
  function HeaderFor(provider: seq<ProviderRow>, ccn: string): (h: Header)
    ensures h.ccn == ccn
    ensures RowsFor(provider, ProviderCcn, ccn) == [] ==> h == Header(ccn, None, None, None)
    ensures RowsFor(provider, ProviderCcn, ccn) != [] ==>
              var r := LatestProvider(RowsFor(provider, ProviderCcn, ccn)).value;
              h == Header(ccn, r.name, r.city, r.state)
  {
    match LatestProvider(RowsFor(provider, ProviderCcn, ccn))
    case None => Header(ccn, None, None, None)
    case Some(r) => Header(ccn, r.name, r.city, r.state)
  }

  datatype Changelog = Changelog(header: Header, events: seq<Event>)

  /** The events of the five rules in their fixed order, before sorting. */
  function EmittedEvents(prev: Snapshot, curr: Snapshot, ccn: string, now: Date): seq<Event>
  {
    PenaltyEvents(prev.penalties, curr.penalties, ccn, now)
    + DeficiencyEvents(prev.deficiencies, curr.deficiencies, ccn)
    + ProviderEvents(prev.provider, curr.provider, ccn)
    + QrpEvents(prev.qrp, curr.qrp, ccn)
    + VbpEvents(prev.vbp, curr.vbp, ccn)
  }

  function ChangelogFor(prev: Snapshot, curr: Snapshot, ccn: string, now: Date): Changelog
  {
    Changelog(HeaderFor(curr.provider, ccn), SortBySeverity(EmittedEvents(prev, curr, ccn, now)))
  }

  /** The snapshot used as "previous": the latest directory other than today's. */
  function PreviousSnapshot(store: SnapshotStore, today: string): Snapshot
    reads store
    requires store.Valid()
  {
    match LatestSnapshotName(store.dirs, today, true)
    case None => EmptySnapshot
    case Some(name) => store.Load(name)
  }

  /**
   * build_changelogs: save today's snapshot, pick the previous one, and build
   * one changelog per requested CCN.
   */
  method BuildChangelogs(store: SnapshotStore, today: string, current: Snapshot, ccns: seq<string>, now: Date)
    returns (results: map<string, Changelog>)
    requires store.Valid()
    modifies store
    ensures store.Valid()
    ensures store.tables == old(store.tables)[today := current]
    ensures results == ChangelogMap(PreviousSnapshot(store, today), current, ccns, now)
  {
    store.Save(today, current);
    var prevName := LatestSnapshotName(store.dirs, today, true);
    var prev := if prevName.Some? then store.Load(prevName.value) else EmptySnapshot;
    assert prev == PreviousSnapshot(store, today);
    results := ChangelogsFor(prev, current, ccns, now);
  }

  /** The map `{k: f(k) for k in keys}`. */
  function MapOver<V>(keys: seq<string>, f: string -> V): map<string, V>
  {
    if keys == [] then map[]
    else MapOver(keys[..|keys| - 1], f)[keys[|keys| - 1] := f(keys[|keys| - 1])]
  }

  lemma {:induction false} MapOverContents<V>(keys: seq<string>, f: string -> V)
    ensures forall k :: k in MapOver(keys, f) <==> k in keys
    ensures forall k :: k in MapOver(keys, f) ==> MapOver(keys, f)[k] == f(k)
  {
    if keys != [] {
      var init := keys[..|keys| - 1];
      MapOverContents(init, f);
      assert keys == init + [keys[|keys| - 1]];
    }
  }

  lemma MapOverSnoc<V>(keys: seq<string>, i: nat, f: string -> V)
    requires i < |keys|
    ensures MapOver(keys[..i + 1], f) == MapOver(keys[..i], f)[keys[i] := f(keys[i])]
  {
    assert keys[..i + 1][..i] == keys[..i];
  }

  /** The changelogs of the listed CCNs, keyed by CCN. */
  function ChangelogMap(prev: Snapshot, current: Snapshot, ccns: seq<string>, now: Date): map<string, Changelog>
  {
    MapOver(ccns, c => ChangelogFor(prev, current, c, now))
  }

  /** One changelog per listed CCN, and it is that CCN's changelog. */
  lemma ChangelogMapContents(prev: Snapshot, current: Snapshot, ccns: seq<string>, now: Date)
    ensures forall c :: c in ChangelogMap(prev, current, ccns, now) <==> c in ccns
    ensures forall c :: c in ChangelogMap(prev, current, ccns, now) ==>
      ChangelogMap(prev, current, ccns, now)[c] == ChangelogFor(prev, current, c, now)
  {
    MapOverContents(ccns, c => ChangelogFor(prev, current, c, now));
  }

  /** The loop of build_changelogs. */
  method ChangelogsFor(prev: Snapshot, current: Snapshot, ccns: seq<string>, now: Date)
    returns (results: map<string, Changelog>)
    ensures results == ChangelogMap(prev, current, ccns, now)
  {
    var f := c => ChangelogFor(prev, current, c, now);
    results := map[];
    var i := 0;
    while i < |ccns|
      invariant 0 <= i <= |ccns|
      invariant results == MapOver(ccns[..i], f)
    {
      var ccn := ccns[i];
      var log := BuildChangelog(prev, current, ccn, now);
      assert log == f(ccn);
      MapOverSnoc(ccns, i, f);
      results := results[ccn := log];
      i := i + 1;
    }
    assert ccns[..i] == ccns;
  }

  /** The changelog of one facility: the five rules, then the severity sort. */
  method BuildChangelog(prev: Snapshot, current: Snapshot, ccn: string, now: Date) returns (log: Changelog)
    ensures log == ChangelogFor(prev, current, ccn, now)
  {
    var events := DiffPenalties(prev.penalties, current.penalties, ccn, now);
    var part := DiffDeficiencies(prev.deficiencies, current.deficiencies, ccn);
    events := events + part;
    part := DiffProviderInfo(prev.provider, current.provider, ccn);
    events := events + part;
    part := DiffSnfQrp(prev.qrp, current.qrp, ccn);
    events := events + part;
    events := events + VbpEvents(prev.vbp, current.vbp, ccn);
    events := SortBySeverity(events);
    log := Changelog(HeaderFor(current.provider, ccn), events);
  }


  /** Today's snapshot, saved first, is never the previous one. */
  lemma PreviousIsNotToday(store: SnapshotStore, today: string)
    requires store.Valid()
    ensures var p := LatestSnapshotName(store.dirs, today, true); p.Some? ==> p.value != today
  {
  }

  /** A facility with no rows in any current table gets no events. */
  lemma AbsentFacilitySilent(prev: Snapshot, curr: Snapshot, ccn: string, now: Date)
    requires RowsFor(curr.penalties, PenaltyCcn, ccn) == [] && RowsFor(curr.deficiencies, DeficiencyCcn, ccn) == []
    requires RowsFor(curr.provider, ProviderCcn, ccn) == [] && RowsFor(curr.qrp.rows, QrpCcn, ccn) == []
    requires RowsFor(curr.vbp, VbpCcn, ccn) == []
    ensures ChangelogFor(prev, curr, ccn, now).events == []
  {
  }

  /** A new immediate-jeopardy deficiency always heads the changelog on the first run. */
  lemma FirstRunJeopardyFirst(curr: Snapshot, ccn: string, now: Date)
    requires RowsFor(curr.deficiencies, DeficiencyCcn, ccn) != []
    requires forall r :: r in RowsFor(curr.deficiencies, DeficiencyCcn, ccn) ==> ImmediateJeopardy(r.scopeSeverity)
    requires RowsFor(curr.penalties, PenaltyCcn, ccn) == []
    ensures var ev := ChangelogFor(EmptySnapshot, curr, ccn, now).events;
            |ev| > 0 && ev[0].kind == Deficiency && ev[0].severity == High
  {
    var rows := RowsFor(curr.deficiencies, DeficiencyCcn, ccn);
    var d := DeficiencyEvents([], curr.deficiencies, ccn);
    assert RowsFor([], DeficiencyCcn, ccn) == [];
    assert DeficiencyKeys([]) == {};
    assert d == NewDeficiencyEvents({}, rows);
    FirstRunDeficiencies(curr.deficiencies, ccn);
    DeficiencyHigh({}, rows);
    assert d[0] in d;
    var x, y, z := ProviderEvents([], curr.provider, ccn), QrpEvents(EmptySnapshot.qrp, curr.qrp, ccn),
                   VbpEvents([], curr.vbp, ccn);
    var tail := x + y + z;
    var p := PenaltyEvents([], curr.penalties, ccn, now);
    assert p == [];
    assert EmittedEvents(EmptySnapshot, curr, ccn, now) == p + d + x + y + z;
    assert p + d == d;
    ConcatAssoc(d, x, y, z);
    HighEventsLead(d, tail);
    assert ChangelogFor(EmptySnapshot, curr, ccn, now).events == SortBySeverity(d + tail);
  }

  lemma ConcatAssoc<T>(a: seq<T>, b: seq<T>, c: seq<T>, d: seq<T>)
    ensures a + b + c + d == a + (b + c + d)
  {
  }

  /** Leading high-severity events stay in front after the severity sort. */
  lemma HighEventsLead(d: seq<Event>, tail: seq<Event>)
    requires d != [] && forall e :: e in d ==> e.severity == High
    ensures |SortBySeverity(d + tail)| > 0 && SortBySeverity(d + tail)[0] == d[0]
  {
    OfSeverityPrefix(d, tail, High);
    SortBySeverityGroups(d + tail);
  }

  lemma {:induction false} DeficiencyHigh(prevKeys: set<DeficiencyKey>, rows: seq<DeficiencyRow>)
    requires forall r :: r in rows ==> ImmediateJeopardy(r.scopeSeverity)
    ensures forall e :: e in NewDeficiencyEvents(prevKeys, rows) ==> e.severity == High && e.kind == Deficiency
  {
    if rows != [] {
      DeficiencyHigh(prevKeys, rows[..|rows| - 1]);
    }
  }

  lemma {:induction false} OfSeverityPrefix(a: seq<Event>, b: seq<Event>, s: Severity)
    requires a != [] && forall e :: e in a ==> e.severity == s
    ensures OfSeverity(a + b, s) != [] && OfSeverity(a + b, s)[0] == a[0]
  {
    assert (a + b)[0] == a[0];
    assert (a + b)[1..] == a[1..] + b;
  }
}
