// The Streamlit dashboard's own logic: the star rendering of a rating, the
// rating colours, the sidebar filters over the facility table and the list of
// facilities selected for side-by-side comparison.
module Dashboard {
  import opened Common
  import opened CmsApi

  // ---------------------------------------------------------------------------
  // render_stars and get_rating_color
  // ---------------------------------------------------------------------------

  const FilledStar: char := '★'
  const EmptyStar: char := '☆'
  const NotRated: string := [EmptyStar, EmptyStar, EmptyStar, EmptyStar, EmptyStar] + " (Not Rated)"

  /** `c * n` for a one-character string: empty when n is not positive. */
  function Repeat(c: char, n: int): (r: string)
    ensures |r| == if n > 0 then n else 0
    ensures forall i :: 0 <= i < |r| ==> r[i] == c
    decreases if n > 0 then n else 0
  {
    if n <= 0 then [] else [c] + Repeat(c, n - 1)
  }

  /** render_stars: the "Not Rated" text for 0, otherwise the filled and empty stars and the rating. */
  function RenderStars(rating: int): string
  {
    if rating == 0 then NotRated
    else Repeat(FilledStar, rating) + Repeat(EmptyStar, 5 - rating) + Bracketed(rating)
  }

  /** " (rating)". */
  function Bracketed(rating: int): string
  {
    " (" + IntStr(rating) + ")"
  }

  /**
   * A rating of 0..5 is drawn as five stars of which exactly the first `rating`
   * are filled, followed by the rating in brackets, or "(Not Rated)" for 0.
   */
  lemma StarsShowRating(rating: int)
    requires 0 <= rating <= 5
    ensures |RenderStars(rating)| > 5
    ensures forall i :: 0 <= i < 5 ==> (RenderStars(rating)[i] == FilledStar <==> i < rating)
    ensures forall i :: 0 <= i < 5 ==> RenderStars(rating)[i] in {FilledStar, EmptyStar}
    ensures RenderStars(rating)[5..] == if rating == 0 then " (Not Rated)" else Bracketed(rating)
  {
    var s := RenderStars(rating);
    if rating != 0 {
      var stars := Repeat(FilledStar, rating) + Repeat(EmptyStar, 5 - rating);
      assert |stars| == 5;
      assert s == stars + Bracketed(rating);
      assert forall i :: 0 <= i < 5 ==> s[i] == stars[i];
    }
  }

  /** Different ratings in 0..5 are drawn differently. */
  lemma StarsDistinguishRatings(a: int, b: int)
    requires 0 <= a <= 5 && 0 <= b <= 5 && a != b
    ensures RenderStars(a) != RenderStars(b)
  {
    StarsShowRating(a);
    StarsShowRating(b);
    var i := if a < b then a else b;
    assert (RenderStars(a)[i] == FilledStar) != (RenderStars(b)[i] == FilledStar);
  }

  /** A rating above 5 shows that many filled stars and no empty one; a negative rating shows 5 - rating empty stars. */
  lemma StarsOutOfRange(rating: int)
    ensures rating > 5 ==> RenderStars(rating) == Repeat(FilledStar, rating) + Bracketed(rating)
    ensures rating < 0 ==> RenderStars(rating) == Repeat(EmptyStar, 5 - rating) + Bracketed(rating)
  {
    if rating > 5 {
      var none := Repeat(EmptyStar, 5 - rating);
      assert none == [];
      assert Repeat(FilledStar, rating) + none == Repeat(FilledStar, rating);
    } else if rating < 0 {
      var none := Repeat(FilledStar, rating);
      assert none == [];
      assert none + Repeat(EmptyStar, 5 - rating) == Repeat(EmptyStar, 5 - rating);
    }
  }

  const Grey: string := "#6C757D"
  const RatingColors: map<int, string> :=
    map[5 := "#28A745", 4 := "#90C351", 3 := "#FFC107", 2 := "#FF8C42", 1 := "#DC3545", 0 := Grey]

  /** get_rating_color: the colour of the rating, grey for a rating outside the table. */
  function RatingColor(rating: int): string
  {
    if rating in RatingColors then RatingColors[rating] else Grey
  }

  /** Grey means "not rated": it is the colour of 0 and of every value outside 1..5, and of no star rating. */
  lemma GreyIffUnrated(rating: int)
    ensures RatingColor(rating) == Grey <==> !(1 <= rating <= 5)
  {
    assert RatingColors.Keys == {0, 1, 2, 3, 4, 5};
  }

  /** The five star ratings have five different colours. */
  lemma ColorsDistinguishRatings(a: int, b: int)
    requires 1 <= a <= 5 && 1 <= b <= 5 && a != b
    ensures RatingColor(a) != RatingColor(b)
  {
    // the fifth character already tells the five colours apart
    assert RatingColor(1)[4] == '5' && RatingColor(2)[4] == 'C' && RatingColor(3)[4] == '1';
    assert RatingColor(4)[4] == '3' && RatingColor(5)[4] == '7';
    assert RatingColor(a)[4] != RatingColor(b)[4];
  }

  // ---------------------------------------------------------------------------
  // filter_dataframe
  // ---------------------------------------------------------------------------

  /** The sidebar's filter choices: ticked ratings, ticked ownership types, chosen bed sizes and the search text. */
  datatype Filters = Filters(ratings: seq<int>, ownership: seq<string>, bedSize: seq<string>, searchTerm: string)

  datatype SizeClass = Small | Medium | Large

  function Label(c: SizeClass): string
  {
    match c
    case Small => "Small (1-50)"
    case Medium => "Medium (51-100)"
    case Large => "Large (101+)"
  }

  predicate InClass(c: SizeClass, beds: int)
  {
    match c
    case Small => 1 <= beds <= 50
    case Medium => 51 <= beds <= 100
    case Large => beds >= 101
  }

  /** Some size class is chosen. */
  predicate AnySize(bedSize: seq<string>)
  {
    Label(Small) in bedSize || Label(Medium) in bedSize || Label(Large) in bedSize
  }

  /** The bed count lies in one of the chosen size classes. */
  predicate SizeChosen(bedSize: seq<string>, beds: int)
  {
    (Label(Small) in bedSize && 1 <= beds <= 50)
    || (Label(Medium) in bedSize && 51 <= beds <= 100)
    || (Label(Large) in bedSize && beds >= 101)
  }

  /** The rating filter's mask: all rows when no rating is ticked. */
  function ByRating(ratings: seq<int>): FacilityRow -> bool
  {
    (row: FacilityRow) => ratings == [] || row.ratings.overall in ratings
  }

  /** The ownership filter's mask; a missing ownership is in no list. */
  function ByOwnership(ownership: seq<string>): FacilityRow -> bool
  {
    (row: FacilityRow) => ownership == [] || (row.ownership.Some? && row.ownership.value in ownership)
  }

  /** The bed-size filter's mask: the OR of the chosen classes; all rows when no class is chosen. */
  function BySize(bedSize: seq<string>): FacilityRow -> bool
  {
    (row: FacilityRow) => !AnySize(bedSize) || SizeChosen(bedSize, row.bedCount)
  }

  /** The sidebar search: the lower-cased text in the lower-cased name or city, or in the zip as is. */
  predicate SidebarMatch(row: FacilityRow, term: string)
  {
    CellContains(row.name, term, true) || CellContains(row.city, term, true) || CellContains(row.zip, term, false)
  }

  function BySearch(searchTerm: string): FacilityRow -> bool
  {
    (row: FacilityRow) => searchTerm == "" || SidebarMatch(row, Lower(searchTerm))
  }

  /** A row passes the filters iff it passes each of the four. */
  predicate Keep(f: Filters, row: FacilityRow)
  {
    ByRating(f.ratings)(row) && ByOwnership(f.ownership)(row) && BySize(f.bedSize)(row) && BySearch(f.searchTerm)(row)
  }

  /** The filtered table: the rows that pass every filter, in table order. */
  function FilteredRows(df: seq<FacilityRow>, f: Filters): seq<FacilityRow>
  {
    Filter(df, (row: FacilityRow) => Keep(f, row))
  }

  /** The four filters applied one after the other give the filter on their conjunction. */
  lemma FilterSteps(df: seq<FacilityRow>, f: Filters)
    ensures Filter(Filter(Filter(Filter(df, ByRating(f.ratings)), ByOwnership(f.ownership)), BySize(f.bedSize)),
                   BySearch(f.searchTerm)) == FilteredRows(df, f)
  {
    var p1 := ByRating(f.ratings);
    var p2 := ByOwnership(f.ownership);
    var p3 := BySize(f.bedSize);
    var p4 := BySearch(f.searchTerm);
    var p12 := (row: FacilityRow) => p1(row) && p2(row);
    var p123 := (row: FacilityRow) => p12(row) && p3(row);
    FilterFilter(df, p1, p2, p12);
    FilterFilter(df, p12, p3, p123);
    FilterFilter(df, p123, p4, (row: FacilityRow) => Keep(f, row));
  }

  /** One size class's mask over the rows. */
  function ClassMask(rows: seq<FacilityRow>, c: SizeClass): seq<bool>
  {
    seq(|rows|, i requires 0 <= i < |rows| => InClass(c, rows[i].bedCount))
  }

  /** A bed count is in one of the listed classes iff it is in a chosen one. */
  lemma ClassesCoverChosen(classes: seq<SizeClass>, bedSize: seq<string>, beds: int)
    requires forall c :: c in classes <==> Label(c) in bedSize
    ensures (exists j :: 0 <= j < |classes| && InClass(classes[j], beds)) <==> SizeChosen(bedSize, beds)
  {
    if SizeChosen(bedSize, beds) {
      var c := if Label(Small) in bedSize && 1 <= beds <= 50 then Small
               else if Label(Medium) in bedSize && 51 <= beds <= 100 then Medium
               else Large;
      assert c in classes;
      var j :| 0 <= j < |classes| && classes[j] == c;
      assert InClass(classes[j], beds);
    }
  }

  /** `combined_mask = bed_masks[0]; for mask in bed_masks[1:]: combined_mask |= mask`. */
  method CombineMasks(masks: seq<seq<bool>>, n: nat) returns (combined: seq<bool>)
    requires |masks| > 0
    requires forall k :: 0 <= k < |masks| ==> |masks[k]| == n
    ensures |combined| == n
    ensures forall i :: 0 <= i < n ==> (combined[i] <==> exists k :: 0 <= k < |masks| && masks[k][i])
  {
    combined := masks[0];
    var k := 1;
    while k < |masks|
      invariant 1 <= k <= |masks|
      invariant |combined| == n
      invariant forall i :: 0 <= i < n ==> (combined[i] <==> exists j :: 0 <= j < k && masks[j][i])
    {
      combined := seq(n, i requires 0 <= i < n => combined[i] || masks[k][i]);
      k := k + 1;
    }
  }

  /**
   * filter_dataframe: the rating, ownership, bed-size and search filters in
   * turn, each skipped when nothing is chosen.
   */
  method FilterDataframe(df: seq<FacilityRow>, f: Filters) returns (r: seq<FacilityRow>)
    ensures r == FilteredRows(df, f)
  {
    r := df;
    if f.ratings != [] {
      r := Filter(r, ByRating(f.ratings));
    } else {
      FilterAll(r, ByRating(f.ratings));
    }
    if f.ownership != [] {
      r := Filter(r, ByOwnership(f.ownership));
    } else {
      FilterAll(r, ByOwnership(f.ownership));
    }
    r := FilterBySize(r, f.bedSize);
    r := FilterBySidebarSearch(r, f.searchTerm);
    FilterSteps(df, f);
  }

  /** The bed-size step: one mask per chosen class, OR-ed together; nothing happens when no class is chosen. */
  method FilterBySize(rows: seq<FacilityRow>, bedSize: seq<string>) returns (r: seq<FacilityRow>)
    ensures r == Filter(rows, BySize(bedSize))
  {
    r := rows;
    if bedSize != [] {
      var masks: seq<seq<bool>> := [];
      ghost var classes: seq<SizeClass> := [];
      if Label(Small) in bedSize {
        masks := masks + [ClassMask(rows, Small)];
        classes := classes + [Small];
      }
      if Label(Medium) in bedSize {
        masks := masks + [ClassMask(rows, Medium)];
        classes := classes + [Medium];
      }
      if Label(Large) in bedSize {
        masks := masks + [ClassMask(rows, Large)];
        classes := classes + [Large];
      }
      if masks != [] {
        var combined := CombineMasks(masks, |rows|);
        MasksOfClasses(rows, bedSize, masks, classes, combined);
        SelectFilter(rows, combined, BySize(bedSize));
        r := Select(rows, combined);
        return;
      }
    }
    FilterAll(rows, BySize(bedSize));
  }

  /** The OR of the class masks is the bed-size filter's mask. */
  lemma MasksOfClasses(rows: seq<FacilityRow>, bedSize: seq<string>, masks: seq<seq<bool>>, classes: seq<SizeClass>, combined: seq<bool>)
    requires forall c :: c in classes <==> Label(c) in bedSize
    requires 0 < |masks| == |classes| && forall k :: 0 <= k < |masks| ==> masks[k] == ClassMask(rows, classes[k])
    requires forall k :: 0 <= k < |masks| ==> |masks[k]| == |rows|
    requires |combined| == |rows|
    requires forall i :: 0 <= i < |rows| ==> (combined[i] <==> exists k :: 0 <= k < |masks| && masks[k][i])
    ensures forall i :: 0 <= i < |rows| ==> combined[i] == BySize(bedSize)(rows[i])
  {
    assert Label(classes[0]) in bedSize;
    assert AnySize(bedSize);
    forall i | 0 <= i < |rows|
      ensures combined[i] == BySize(bedSize)(rows[i])
    {
      ClassesCoverChosen(classes, bedSize, rows[i].bedCount);
      if combined[i] {
        var k :| 0 <= k < |masks| && masks[k][i];
        assert InClass(classes[k], rows[i].bedCount);
      }
      if SizeChosen(bedSize, rows[i].bedCount) {
        var k :| 0 <= k < |classes| && InClass(classes[k], rows[i].bedCount);
        assert masks[k][i];
      }
    }
  }

  /** The search step: skipped for an empty text, otherwise the lower-cased text must occur in name, city or zip. */
  method FilterBySidebarSearch(rows: seq<FacilityRow>, searchTerm: string) returns (r: seq<FacilityRow>)
    ensures r == Filter(rows, BySearch(searchTerm))
  {
    if searchTerm != "" {
      var term := Lower(searchTerm);
      r := Filter(rows, (row: FacilityRow) => SidebarMatch(row, term));
      FilterSame(rows, (row: FacilityRow) => SidebarMatch(row, term), BySearch(searchTerm));
    } else {
      r := rows;
      FilterAll(rows, BySearch(searchTerm));
    }
  }

  /** Two predicates that agree everywhere filter alike. */
  lemma FilterSame(s: seq<FacilityRow>, p: FacilityRow -> bool, q: FacilityRow -> bool)
    requires forall x :: p(x) == q(x)
    ensures Filter(s, p) == Filter(s, q)
  {
    FilterFilter(s, p, (row: FacilityRow) => true, q);
    FilterAll(Filter(s, p), (row: FacilityRow) => true);
  }

  /** A row is shown iff it is in the table and passes every chosen filter. */
  lemma FilteredRowsMembers(df: seq<FacilityRow>, f: Filters, x: FacilityRow)
    ensures x in FilteredRows(df, f) <==>
            x in df
            && (f.ratings != [] ==> x.ratings.overall in f.ratings)
            && (f.ownership != [] ==> x.ownership.Some? && x.ownership.value in f.ownership)
            && (AnySize(f.bedSize) ==> SizeChosen(f.bedSize, x.bedCount))
            && (f.searchTerm != "" ==> SidebarMatch(x, Lower(f.searchTerm)))
  {
  }

  /** With nothing chosen the table is shown as it is. */
  lemma NoFiltersKeepAll(df: seq<FacilityRow>)
    ensures FilteredRows(df, Filters([], [], [], "")) == df
  {
    FilterAll(df, (row: FacilityRow) => Keep(Filters([], [], [], ""), row));
  }

  /** Whenever a size is chosen, facilities with no beds on record (0) are dropped. */
  lemma ZeroBedsDropped(df: seq<FacilityRow>, f: Filters, x: FacilityRow)
    requires AnySize(f.bedSize) && x.bedCount <= 0
    ensures x !in FilteredRows(df, f)
  {
  }

  // ---------------------------------------------------------------------------
  // The comparison selection
  // ---------------------------------------------------------------------------

  const MaxCompared: nat := 4

  /** No id occurs twice. */
  predicate NoDuplicates(ids: seq<Option<string>>)
  {
    forall i, j :: 0 <= i < j < |ids| ==> ids[i] != ids[j]
  }

  /** list.remove(x): drop the first occurrence of x. */
  function RemoveFirst(ids: seq<Option<string>>, x: Option<string>): (r: seq<Option<string>>)
    requires x in ids
    ensures |r| == |ids| - 1
    ensures multiset(r) == multiset(ids) - multiset{x}
  {
    assert ids == [ids[0]] + ids[1..];
    if ids[0] == x then ids[1..]
    else [ids[0]] + RemoveFirst(ids[1..], x)
  }

  /** In a list without duplicates, removing an id removes it entirely and keeps the list free of duplicates. */
  lemma {:induction false} RemoveFirstNoDuplicates(ids: seq<Option<string>>, x: Option<string>)
    requires x in ids && NoDuplicates(ids)
    ensures forall y :: y in RemoveFirst(ids, x) <==> y in ids && y != x
    ensures NoDuplicates(RemoveFirst(ids, x))
    decreases |ids|
  {
    var tail := ids[1..];
    assert forall j :: 0 <= j < |tail| ==> tail[j] == ids[j + 1];
    assert NoDuplicates(tail);
    if ids[0] == x {
      assert x !in tail;
    } else {
      assert x in tail;
      RemoveFirstNoDuplicates(tail, x);
      var r := RemoveFirst(tail, x);
      assert ids[0] !in tail;
      assert RemoveFirst(ids, x) == [ids[0]] + r;
    }
  }

  /** The facilities ticked for comparison (`st.session_state.selected_for_comparison`). */
  class Comparison {
    var selected: seq<Option<string>>

    /** At most four ids, none twice. */
    predicate Valid()
      reads this
    {
      |selected| <= MaxCompared && NoDuplicates(selected)
    }

    constructor ()
      ensures selected == [] && Valid()
    {
      selected := [];
    }

    /**
     * The Remove/Compare button of a facility card: a selected facility is
     * removed; another one is added while fewer than four are selected, and
     * otherwise the "Maximum 4 facilities" warning is shown.
     */
    method Press(id: Option<string>) returns (warned: bool)
      requires Valid()
      modifies this
      ensures Valid()
      ensures old(id in selected) ==> !warned && selected == RemoveFirst(old(selected), id)
      ensures !old(id in selected) && old(|selected|) < MaxCompared ==> !warned && selected == old(selected) + [id]
      ensures !old(id in selected) && old(|selected|) >= MaxCompared ==> warned && selected == old(selected)
    {
      warned := false;
      if id in selected {
        RemoveFirstNoDuplicates(selected, id);
        selected := RemoveFirst(selected, id);
      } else if |selected| < MaxCompared {
        selected := selected + [id];
      } else {
        warned := true;
      }
    }

    /** The comparison tab shows its table only with at least two facilities selected. */
    predicate CanCompare()
      reads this
    {
      |selected| >= 2
    }

    /** The rows of the whole table whose id is selected, in table order. */
    function Compared(df: seq<FacilityRow>): (r: seq<FacilityRow>)
      reads this
      ensures forall x :: x in r <==> x in df && x.id in selected
    {
      var ids := selected;
      Filter(df, (row: FacilityRow) => row.id in ids)
    }
  }
}
