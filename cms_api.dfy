// The dashboard's client for the CMS provider-data API: parsing of the JSON
// records into facility rows, the client-side state / search / limit filters,
// the batch loop and the one-hour result cache.
module CmsApi {
  import opened Common

  // ---------------------------------------------------------------------------
  // JSON values and the two parsers
  // ---------------------------------------------------------------------------

  /** A JSON value of a facility record; a key that is absent reads as Null through `get`. */
  datatype Value = Null | Str(s: string) | Num(x: real)

  type RawFacility = map<string, Value>

  /** dict.get(key, default). */
  function Get(m: RawFacility, key: string, default: Value): Value
  {
    if key in m then m[key] else default
  }

  /** Python's `not value`: None, "" and 0. */
  predicate Falsy(v: Value) { v == Null || v == Str("") || v == Num(0.0) }

  const NotAvailable: string := "Not Available"

  /** int(value); None where int() raises (a None, or text that is not an integer literal). */
  function IntOf(v: Value): Option<int>
  {
    match v
    case Null => None
    case Str(s) => ParseInt(s)
    case Num(x) => Some(Trunc(x))
  }

  /** float(value); None where float() raises. */
  function FloatOf(v: Value): Option<real>
  {
    match v
    case Null => None
    case Str(s) => ParseDecimal(s)
    case Num(x) => Some(x)
  }

  /** _parse_rating: 0 for a falsy, "Not Available" or non-integer value, else the integer clamped to 0..5. */
  function ParseRating(v: Value): (r: int)
    ensures 0 <= r <= 5
    ensures Falsy(v) || v == Str(NotAvailable) || IntOf(v).None? ==> r == 0
    ensures !Falsy(v) && v != Str(NotAvailable) && IntOf(v).Some? && 0 <= IntOf(v).value <= 5 ==> r == IntOf(v).value
    ensures !Falsy(v) && v != Str(NotAvailable) && IntOf(v).Some? && IntOf(v).value < 0 ==> r == 0
    ensures !Falsy(v) && v != Str(NotAvailable) && IntOf(v).Some? && IntOf(v).value > 5 ==> r == 5
  {
    if Falsy(v) || v == Str(NotAvailable) then 0
    else match IntOf(v)
      case None => 0
      case Some(n) => if n < 0 then 0 else if n > 5 then 5 else n
  }

  /** The rating read from its decimal text is the integer clamped to 0..5. */
  lemma ParseRatingOfText(n: int)
    ensures ParseRating(Str(IntStr(n))) == if n < 0 then 0 else if n > 5 then 5 else n
  {
    var s := IntStr(n);
    ParseIntStr(n);
    assert IntOf(Str(s)) == Some(n);
    IntStrChars(n);
    assert s[0] != NotAvailable[0];
    assert !Falsy(Str(s)) && Str(s) != Str(NotAvailable);
  }

  /** _parse_float: None for a falsy (including the number 0), "Not Available" or unparsable value. */
  function ParseFloat(v: Value): Option<real>
  {
    if Falsy(v) || v == Str(NotAvailable) then None else FloatOf(v)
  }

  /** A numeric 0 reads as missing while the text "0" reads as 0. */
  lemma ParseFloatZero()
    ensures ParseFloat(Num(0.0)) == None
    ensures ParseFloat(Str("0")) == Some(0.0)
  {
    assert NatStr(0) == "0";
    ParseFloatNumbers(1.0, 0);
  }

  /** Every other number, and the decimal text of any natural number, is read as that number. */
  lemma ParseFloatNumbers(x: real, n: nat)
    ensures x != 0.0 ==> ParseFloat(Num(x)) == Some(x)
    ensures ParseFloat(Str(NatStr(n))) == Some(n as real)
  {
    var s := NatStr(n);
    assert s != "" && s != NotAvailable by {
      assert IsDigit(s[0]);
    }
    assert !Falsy(Str(s)) && Str(s) != Str(NotAvailable);
    ParseDecimalNatStr(n);
    assert FloatOf(Str(s)) == Some(n as real);
  }

  /** `int(value or 0)` for the counts; None where int() raises. */
  function CountOf(v: Value): Option<int>
  {
    if Falsy(v) then Some(0) else IntOf(v)
  }

  // ---------------------------------------------------------------------------
  // _process_data
  // ---------------------------------------------------------------------------

  datatype Ratings = Ratings(overall: int, health: int, staffing: int, quality: int, rn: int)

  /**
   * One processed facility. A text column holds None when the record's value is
   * not a string (the `.str` accessor then gives NaN).
   */
  datatype FacilityRow = FacilityRow(
    id: Option<string>, name: Option<string>, address: Option<string>, city: Option<string>,
    state: Option<string>, zip: Option<string>, phone: Option<string>,
    ratings: Ratings, ownership: Option<string>, bedCount: int,
    measures: seq<Option<real>>,
    healthDeficiencies: int, fireDeficiencies: int,
    latitude: Option<real>, longitude: Option<real>)

  /** The four quality measures and the two staffing measures, in column order. */
  const MeasureKeys: seq<string> := [
    "percentage_of_long_stay_residents_who_experienced_one_or_more_falls_with_major_injury",
    "percentage_of_high_risk_long_stay_residents_with_pressure_ulcers",
    "percentage_of_long_stay_residents_with_a_urinary_tract_infection",
    "percentage_of_long_stay_residents_receiving_an_antipsychotic_medication",
    "registered_nurse_staffing_hours_per_resident_per_day",
    "total_nurse_staffing_hours_per_resident_per_day"]

  function TextOf(v: Value): Option<string>
  {
    if v.Str? then Some(v.s) else None
  }

  /** A text column: the record's string, the default when the key is absent. */
  function TextField(m: RawFacility, key: string, default: string): Option<string>
  {
    TextOf(Get(m, key, Str(default)))
  }

  function RatingsOf(m: RawFacility): (r: Ratings)
    ensures 0 <= r.overall <= 5 && 0 <= r.health <= 5 && 0 <= r.staffing <= 5
            && 0 <= r.quality <= 5 && 0 <= r.rn <= 5
  {
    Ratings(ParseRating(Get(m, "overall_rating", Null)), ParseRating(Get(m, "health_inspection_rating", Null)),
            ParseRating(Get(m, "staffing_rating", Null)), ParseRating(Get(m, "quality_measure_rating", Null)),
            ParseRating(Get(m, "rn_staffing_rating", Null)))
  }

  /** One record of _process_data; an error where one of the three counts makes int() raise. */
  function ProcessFacility(m: RawFacility): (r: Result<FacilityRow>)
    ensures r.Ok? <==> CountOf(Get(m, "number_of_certified_beds", Num(0.0))).Some?
                       && CountOf(Get(m, "number_of_facility_reported_incidents", Num(0.0))).Some?
                       && CountOf(Get(m, "number_of_fire_safety_deficiencies", Num(0.0))).Some?
    ensures r.Ok? ==> r.value.id == TextField(m, "cms_certification_number_ccn", "Unknown")
                      && r.value.state == TextField(m, "state", "")
                      && r.value.bedCount == CountOf(Get(m, "number_of_certified_beds", Num(0.0))).value
                      && |r.value.measures| == |MeasureKeys|
  {
    var beds := CountOf(Get(m, "number_of_certified_beds", Num(0.0)));
    var health := CountOf(Get(m, "number_of_facility_reported_incidents", Num(0.0)));
    var fire := CountOf(Get(m, "number_of_fire_safety_deficiencies", Num(0.0)));
    if beds.None? || health.None? || fire.None? then Err("invalid literal for int()")
    else Ok(RowOf(m, beds.value, health.value, fire.value))
  }

  /** The processed dictionary of one record, given its three counts. */
  function RowOf(m: RawFacility, beds: int, health: int, fire: int): FacilityRow
  {
    FacilityRow(
      TextField(m, "cms_certification_number_ccn", "Unknown"), TextField(m, "provider_name", "Unknown"),
      TextField(m, "provider_address", ""), TextField(m, "citytown", ""), TextField(m, "state", ""),
      TextField(m, "zip_code", ""), TextField(m, "provider_phone_number", ""),
      RatingsOf(m), TextField(m, "ownership_type", "Unknown"), beds,
      seq(|MeasureKeys|, i requires 0 <= i < |MeasureKeys| => ParseFloat(Get(m, MeasureKeys[i], Null))),
      health, fire,
      ParseFloat(Get(m, "provider_latitude", Null)), ParseFloat(Get(m, "provider_longitude", Null)))
  }

  /** A record without any of the count keys has zero beds and zero deficiencies. */
  lemma MissingCountsAreZero(m: RawFacility)
    requires "number_of_certified_beds" !in m && "number_of_facility_reported_incidents" !in m
    requires "number_of_fire_safety_deficiencies" !in m
    ensures ProcessFacility(m).Ok?
    ensures ProcessFacility(m).value.bedCount == 0
    ensures ProcessFacility(m).value.healthDeficiencies == 0 && ProcessFacility(m).value.fireDeficiencies == 0
  {
  }

  /** _process_data: every record processed in order; an error when any record raises. */
  function ProcessData(results: seq<RawFacility>): (r: Result<seq<FacilityRow>>)
    ensures r.Ok? <==> forall i :: 0 <= i < |results| ==> ProcessFacility(results[i]).Ok?
    ensures r.Ok? ==> |r.value| == |results|
                      && forall i :: 0 <= i < |results| ==> ProcessFacility(results[i]) == Ok(r.value[i])
  {
    if forall i :: 0 <= i < |results| ==> ProcessFacility(results[i]).Ok? then
      Ok(seq(|results|, i requires 0 <= i < |results| => ProcessFacility(results[i]).value))
    else Err("invalid literal for int()")
  }

  // ---------------------------------------------------------------------------
  // Client-side filters
  // ---------------------------------------------------------------------------

  /** Python's truthiness of an optional string argument. */
  predicate Given(s: Option<string>) { s.Some? && s.value != "" }

  /** `str.lower().str.contains(term, na=False)` on an optional text cell. */
  predicate CellContains(cell: Option<string>, term: string, lower: bool)
  {
    cell.Some? && Contains(if lower then Lower(cell.value) else cell.value, term)
  }

  /** The search mask for a lower-cased, stripped term: name, city, zip (as is) or address. */
  predicate MatchesTerm(row: FacilityRow, term: string)
  {
    CellContains(row.name, term, true) || CellContains(row.city, term, true)
    || CellContains(row.zip, term, false) || CellContains(row.address, term, true)
  }

  function SearchTerm(s: string): string { Strip(Lower(s)) }

  /** _filter_by_search. */
  function FilterBySearch(df: seq<FacilityRow>, searchTerm: string): (r: seq<FacilityRow>)
    ensures forall x :: x in r <==> x in df && MatchesTerm(x, SearchTerm(searchTerm))
  {
    Filter(df, (row: FacilityRow) => MatchesTerm(row, SearchTerm(searchTerm)))
  }

  /** A blank term still drops the rows whose four searched columns are all missing. */
  lemma BlankTermKeepsTextRows(df: seq<FacilityRow>, searchTerm: string, x: FacilityRow)
    requires SearchTerm(searchTerm) == ""
    ensures x in FilterBySearch(df, searchTerm) <==>
            x in df && (x.name.Some? || x.city.Some? || x.zip.Some? || x.address.Some?)
  {
    if x.name.Some? { assert [] <= Lower(x.name.value); }
    if x.city.Some? { assert [] <= Lower(x.city.value); }
    if x.zip.Some? { assert [] <= x.zip.value; }
    if x.address.Some? { assert [] <= Lower(x.address.value); }
  }

  function InState(df: seq<FacilityRow>, state: string): (r: seq<FacilityRow>)
    ensures forall x :: x in r <==> x in df && x.state == Some(state)
  {
    Filter(df, (row: FacilityRow) => row.state == Some(state))
  }

  /** DataFrame.head(n): the first n rows; a negative n drops the last -n rows. */
  function Head<T>(df: seq<T>, n: int): (r: seq<T>)
    ensures r <= df
    ensures n >= 0 ==> |r| == if |df| < n then |df| else n
    ensures n < 0 ==> |r| == if |df| + n < 0 then 0 else |df| + n
  {
    if n >= 0 then (if |df| < n then df else df[..n])
    else if |df| + n < 0 then [] else df[..|df| + n]
  }

  /** The state filter, then the search filter, each skipped when not given or the frame is empty. */
  function Filtered(df: seq<FacilityRow>, state: Option<string>, searchTerm: Option<string>): seq<FacilityRow>
  {
    var a := if Given(state) && df != [] then InState(df, state.value) else df;
    if Given(searchTerm) && a != [] then FilterBySearch(a, searchTerm.value) else a
  }

  /** What search_facilities returns for the processed rows: filtered, then `head(limit)` when longer. */
  function LiveResult(df: seq<FacilityRow>, state: Option<string>, searchTerm: Option<string>, limit: int): seq<FacilityRow>
  {
    var f := Filtered(df, state, searchTerm);
    if |f| > limit then Head(f, limit) else f
  }

  /**
   * The live result is a prefix of the filtered rows: all from the processed
   * rows, all in the requested state, all matching the term, at most `limit` of them.
   */
  lemma LiveResultSpec(df: seq<FacilityRow>, state: Option<string>, searchTerm: Option<string>, limit: int)
    ensures var r := LiveResult(df, state, searchTerm, limit);
            r <= Filtered(df, state, searchTerm)
            && (forall x :: x in r ==> x in df)
            && (Given(state) ==> forall x :: x in r ==> x.state == state)
            && (Given(searchTerm) ==> forall x :: x in r ==> MatchesTerm(x, SearchTerm(searchTerm.value)))
            && (limit >= 0 ==> |r| == if |Filtered(df, state, searchTerm)| < limit then |Filtered(df, state, searchTerm)| else limit)
  {
    var r := LiveResult(df, state, searchTerm, limit);
    var f := Filtered(df, state, searchTerm);
    var a := if Given(state) && df != [] then InState(df, state.value) else df;
    assert forall x :: x in f ==> x in a;
    assert forall x :: x in r ==> x in f;
  }

  // ---------------------------------------------------------------------------
  // The batch loop
  // ---------------------------------------------------------------------------

  /** One POST of the batch loop: status 200 with its results, another status, or an exception. */
  datatype Response = Ok200(results: seq<RawFacility>) | NotOk(status: int) | Raised

  function MaxBatches(state: Option<string>): nat { if Given(state) then 20 else 2 }

  /** The response to batch b; past the end of the recorded responses the API has no more results. */
  function ResponseAt(responses: seq<Response>, b: nat): Response
  {
    if b < |responses| then responses[b] else Ok200([])
  }

  function ResultsAt(responses: seq<Response>, b: nat): seq<RawFacility>
  {
    match ResponseAt(responses, b)
    case Ok200(results) => results
    case _ => []
  }

  /** The records of the first k batches, in order. */
  function Pages(responses: seq<Response>, k: nat): seq<RawFacility>
  {
    if k == 0 then [] else Pages(responses, k - 1) + ResultsAt(responses, k - 1)
  }

  /**
   * The state check after a batch: None where _process_data raises, otherwise
   * whether enough rows of the requested state have been fetched to stop.
   */
  function EnoughForState(state: Option<string>, limit: int, all: seq<RawFacility>): Option<bool>
  {
    if !Given(state) then Some(false)
    else match ProcessData(all)
      case Err(_) => None
      case Ok(df) => Some(|InState(df, state.value)| >= limit)
  }

  /**
   * The batch loop from batch b with `acc` fetched so far: the records fetched,
   * or None where search_facilities falls back to the sample data.
   */
  function FetchFrom(state: Option<string>, limit: int, responses: seq<Response>, b: nat, acc: seq<RawFacility>): Option<seq<RawFacility>>
    decreases MaxBatches(state) - b
  {
    if b >= MaxBatches(state) then Some(acc)
    else match ResponseAt(responses, b)
      case NotOk(_) => None
      case Raised => None
      case Ok200(results) =>
        if results == [] then Some(acc)
        else
          var all := acc + results;
          match EnoughForState(state, limit, all)
          case None => None
          case Some(stop) => if stop then Some(all) else FetchFrom(state, limit, responses, b + 1, all)
  }

  /** The fetched records are the pages of the first k batches, k at most the batch count. */
  lemma {:induction false} FetchedPages(state: Option<string>, limit: int, responses: seq<Response>, b: nat)
    requires b <= MaxBatches(state)
    ensures var r := FetchFrom(state, limit, responses, b, Pages(responses, b));
            r.Some? ==> exists k :: b <= k <= MaxBatches(state) && r.value == Pages(responses, k)
    decreases MaxBatches(state) - b
  {
    var acc := Pages(responses, b);
    var r := FetchFrom(state, limit, responses, b, acc);
    if b >= MaxBatches(state) {
      assert r == Some(Pages(responses, b));
    } else {
      var response := ResponseAt(responses, b);
      if response.Ok200? && response.results != [] {
        var all := acc + response.results;
        assert all == Pages(responses, b + 1);
        var enough := EnoughForState(state, limit, all);
        if enough == Some(true) {
          assert r == Some(Pages(responses, b + 1));
        } else if enough == Some(false) {
          assert r == FetchFrom(state, limit, responses, b + 1, Pages(responses, b + 1));
          FetchedPages(state, limit, responses, b + 1);
        }
      } else if response.Ok200? {
        assert r == Some(Pages(responses, b));
      }
    }
  }

  /** The live outcome of a search: the result rows, or None for the sample-data fallback. */
  function LiveSearch(state: Option<string>, searchTerm: Option<string>, limit: int, responses: seq<Response>): Option<seq<FacilityRow>>
  {
    match FetchFrom(state, limit, responses, 0, [])
    case None => None
    case Some(all) =>
      match ProcessData(all)
      case Err(_) => None
      case Ok(df) => Some(LiveResult(df, state, searchTerm, limit))
  }

  /** A successful live search returns processed records of the first k batches, k at most the batch count. */
  lemma LiveSearchFromPages(state: Option<string>, searchTerm: Option<string>, limit: int, responses: seq<Response>)
    ensures var r := LiveSearch(state, searchTerm, limit, responses);
            r.Some? ==>
              exists k :: 0 <= k <= MaxBatches(state)
                          && forall x :: x in r.value ==> exists i :: 0 <= i < |Pages(responses, k)| && ProcessFacility(Pages(responses, k)[i]) == Ok(x)
  {
    FetchedPages(state, limit, responses, 0);
    var fetched := FetchFrom(state, limit, responses, 0, []);
    if fetched.Some? && ProcessData(fetched.value).Ok? {
      var k :| 0 <= k <= MaxBatches(state) && fetched.value == Pages(responses, k);
      ResultFromRecords(fetched.value, state, searchTerm, limit);
    }
  }

  /** Every row kept from a processed frame is the processing of one of the fetched records. */
  lemma ResultFromRecords(all: seq<RawFacility>, state: Option<string>, searchTerm: Option<string>, limit: int)
    requires ProcessData(all).Ok?
    ensures forall x :: x in LiveResult(ProcessData(all).value, state, searchTerm, limit) ==>
              exists i :: 0 <= i < |all| && ProcessFacility(all[i]) == Ok(x)
  {
    var df := ProcessData(all).value;
    ProcessedFrom(all);
    LiveResultSpec(df, state, searchTerm, limit);
  }

  /** Each processed row comes from one of the records. */
  lemma ProcessedFrom(all: seq<RawFacility>)
    requires ProcessData(all).Ok?
    ensures forall x :: x in ProcessData(all).value ==> exists i :: 0 <= i < |all| && ProcessFacility(all[i]) == Ok(x)
  {
    var df := ProcessData(all).value;
    forall x | x in df
      ensures exists i :: 0 <= i < |all| && ProcessFacility(all[i]) == Ok(x)
    {
      var i :| 0 <= i < |df| && df[i] == x;
      assert ProcessFacility(all[i]) == Ok(x);
    }
  }

  /** A successful live search keeps only rows of the requested state that match the term, at most `limit` of them. */
  lemma LiveSearchFilters(state: Option<string>, searchTerm: Option<string>, limit: int, responses: seq<Response>)
    ensures var r := LiveSearch(state, searchTerm, limit, responses);
            r.Some? ==>
              (Given(state) ==> forall x :: x in r.value ==> x.state == state)
              && (Given(searchTerm) ==> forall x :: x in r.value ==> MatchesTerm(x, SearchTerm(searchTerm.value)))
              && (limit >= 0 ==> |r.value| <= limit)
  {
    var fetched := FetchFrom(state, limit, responses, 0, []);
    if fetched.Some? && ProcessData(fetched.value).Ok? {
      LiveResultSpec(ProcessData(fetched.value).value, state, searchTerm, limit);
    }
  }

  // ---------------------------------------------------------------------------
  // Sample data and the cache
  // ---------------------------------------------------------------------------

  function SampleRow(id: string, name: string, address: string, city: string, zip: string, phone: string,
                     ratings: Ratings, ownership: string, beds: int, measures: seq<real>,
                     health: int, fire: int, lat: real, lon: real): FacilityRow
    requires |measures| == 6
  {
    FacilityRow(Some(id), Some(name), Some(address), Some(city), Some("CA"), Some(zip), Some(phone),
                ratings, Some(ownership), beds, seq(6, i requires 0 <= i < 6 => Some(measures[i])),
                health, fire, Some(lat), Some(lon))
  }

  /** _get_sample_data: four California facilities. */
  const SampleData: seq<FacilityRow> := [
    SampleRow("105001", "Sunshine Senior Living Center", "123 Main Street", "Los Angeles", "90001", "(555) 123-4567",
              Ratings(5, 5, 4, 5, 5), "Non profit", 120, [2.1, 1.5, 3.2, 8.5, 0.8, 4.2], 2, 0, 34.0522, -118.2437),
    SampleRow("105002", "Green Valley Nursing Home", "456 Oak Avenue", "San Francisco", "94102", "(555) 234-5678",
              Ratings(4, 4, 4, 4, 3), "For profit", 85, [3.5, 2.1, 4.8, 12.3, 0.6, 3.8], 5, 1, 37.7749, -122.4194),
    SampleRow("105003", "Maple Grove Care Center", "789 Elm Street", "San Diego", "92101", "(555) 345-6789",
              Ratings(3, 3, 3, 3, 2), "For profit", 150, [5.2, 4.1, 6.5, 15.8, 0.5, 3.2], 8, 2, 32.7157, -117.1611),
    SampleRow("105004", "Riverside Rehabilitation Center", "321 River Road", "Sacramento", "95814", "(555) 456-7890",
              Ratings(4, 5, 3, 4, 4), "Non profit", 95, [2.8, 1.9, 3.9, 9.2, 0.7, 3.9], 3, 0, 38.5816, -121.4944)]

  /** f"{value}" of an optional argument: None prints as "None". */
  function ArgText(s: Option<string>): string
  {
    if s.Some? then s.value else "None"
  }

  /** f"{state}_{search_term}_{limit}". */
  function CacheKey(state: Option<string>, searchTerm: Option<string>, limit: int): string
  {
    ArgText(state) + "_" + ArgText(searchTerm) + "_" + IntStr(limit)
  }

  /** The key starts with the state and ends with the limit, so searches that differ in either never share an entry. */
  lemma CacheKeyFields(state: Option<string>, searchTerm: Option<string>, limit: int)
    requires Lacks(ArgText(state), '_')
    ensures var parts := Split(CacheKey(state, searchTerm, limit), '_');
            parts[0] == ArgText(state) && parts[|parts| - 1] == IntStr(limit)
  {
    var l := IntStr(limit);
    IntStrChars(limit);
    assert Lacks(l, '_');
    assert CacheKey(state, searchTerm, limit) == ArgText(state) + ['_'] + ArgText(searchTerm) + ['_'] + l;
    SplitOuter(ArgText(state), ArgText(searchTerm), l, '_');
  }

  /** A cache entry: when it was stored (seconds) and the rows. */
  datatype CacheEntry = CacheEntry(storedAt: int, rows: seq<FacilityRow>)

  /** cache_duration: one hour. */
  const CacheSeconds: int := 3600

  predicate Fresh(cache: map<string, CacheEntry>, key: string, now: int)
  {
    key in cache && now - cache[key].storedAt < CacheSeconds
  }

  class Api {
    var cache: map<string, CacheEntry>

    constructor ()
      ensures cache == map[]
    {
      cache := map[];
    }

    /**
     * search_facilities. `now` is the clock and `responses` the API's answers
     * to the successive batch requests.
     */
    method SearchFacilities(state: Option<string>, searchTerm: Option<string>, limit: int, now: int, responses: seq<Response>)
      returns (df: seq<FacilityRow>)
      modifies this
      ensures var key := CacheKey(state, searchTerm, limit);
              if Fresh(old(cache), key, now) then df == old(cache)[key].rows && cache == old(cache)
              else match LiveSearch(state, searchTerm, limit, responses)
                case None => df == SampleData && cache == old(cache)
                case Some(rows) => df == rows && cache == old(cache)[key := CacheEntry(now, rows)]
    {
      var key := CacheKey(state, searchTerm, limit);
      if key in cache {
        var entry := cache[key];
        if now - entry.storedAt < CacheSeconds {
          return entry.rows;
        }
      }
      var live := Live(state, searchTerm, limit, responses);
      if live.None? {
        return SampleData;
      }
      df := live.value;
      cache := cache[key := CacheEntry(now, df)];
    }

    /** The live part of search_facilities: fetch, process, filter and truncate; None for the sample-data fallback. */
    static method Live(state: Option<string>, searchTerm: Option<string>, limit: int, responses: seq<Response>)
      returns (r: Option<seq<FacilityRow>>)
      ensures r == LiveSearch(state, searchTerm, limit, responses)
    {
      var fetched := FetchBatches(state, limit, responses);
      if fetched.None? {
        return None;
      }
      var processed := ProcessData(fetched.value);
      if processed.Err? {
        return None;
      }
      var df := Narrow(processed.value, state, searchTerm, limit);
      return Some(df);
    }

    /** The filters applied to the processed frame: state, then search term, then the row limit. */
    static method Narrow(processed: seq<FacilityRow>, state: Option<string>, searchTerm: Option<string>, limit: int)
      returns (df: seq<FacilityRow>)
      ensures df == LiveResult(processed, state, searchTerm, limit)
    {
      df := processed;
      if Given(state) && df != [] {
        df := InState(df, state.value);
      }
      if Given(searchTerm) && df != [] {
        df := FilterBySearch(df, searchTerm.value);
      }
      if |df| > limit {
        df := Head(df, limit);
      }
    }

    /** The batch loop: extend the fetched records batch by batch, stopping early as the source does. */
    static method FetchBatches(state: Option<string>, limit: int, responses: seq<Response>)
      returns (fetched: Option<seq<RawFacility>>)
      ensures fetched == FetchFrom(state, limit, responses, 0, [])
    {
      var all: seq<RawFacility> := [];
      var batch: nat := 0;
      var maxBatches := if Given(state) then 20 else 2;
      while batch < maxBatches
        invariant batch <= maxBatches == MaxBatches(state)
        invariant FetchFrom(state, limit, responses, batch, all) == FetchFrom(state, limit, responses, 0, [])
        decreases maxBatches - batch
      {
        var response := if batch < |responses| then responses[batch] else Ok200([]);
        if !response.Ok200? {
          return None;
        }
        var results := response.results;
        if results == [] {
          return Some(all);
        }
        all := all + results;
        if Given(state) {
          var temp := ProcessData(all);
          if temp.Err? {
            return None;
          }
          if |InState(temp.value, state.value)| >= limit {
            return Some(all);
          }
        }
        batch := batch + 1;
      }
      return Some(all);
    }

    /** clear_cache. */
    method ClearCache()
      modifies this
      ensures cache == map[]
    {
      cache := map[];
    }
  }
}
