# lens_labs core, modelled in Dafny

This project models the rule-based parts of the lens_labs healthcare analytics
scripts and proves properties about them.

- **`app.dfy` (module `Dashboard`).** The nursing-home dashboard's page logic.
  - A rating is drawn as five filled or empty stars, or "Not Rated", and gets one of six colours.
  - The sidebar filters (ticked ratings, ownership types, bed-size classes and a search text) are applied one after the other, each only when something is chosen; the bed-size masks are OR-ed.
  - At most four facilities can be selected for the side-by-side comparison, which needs at least two.
- **`cert_leakage.dfy` (module `CertLeakage`) and `cert_ffs.dfy` (module `CertFfs`).** The CERT (Comprehensive Error Rate Testing) analyses of Medicare fee-for-service claims.
  - A claim's HCPCS code is mapped to one of six service categories by prefix rules; the deep-dive strips and upper-cases the code first, the first pass does not.
  - A review decision containing "disagree" is a disagreement, and one also containing "partial" a partial one.
  - A disagreed claim's error code and decision go into one of four error buckets by keyword rules tried in order.
  - Per category: the disagreement rate, the share of partial disagreements and the mix of error buckets.
- **`cms_api.dfy` (module `CmsApi`).** The nursing-home dashboard's client for the CMS provider data API.
  - Raw records are maps from column names to JSON values. Processing turns each into a facility row: ratings clamped to 0..5, counts read with `int()`, measures read with `float()`.
  - A search fetches up to 20 batches of records (2 without a state), processes them, filters them by state and search term, and keeps at most `limit` rows.
  - Results are cached for one hour under a key built from the arguments. A failed request falls back to four sample facilities.
- **`cms_watch.dfy` (module `CmsWatch`).** The CMS "what's new" changelog generator.
  - Each facility is identified by its CCN, the CMS certification number.
  - Five diff rules compare the previous and the current snapshot of five CMS tables: penalties, deficiencies, provider information, SNF QRP and SNF VBP. QRP is the SNF quality reporting programme; VBP is SNF value-based purchasing.
  - For one facility the rules emit typed events: a kind, a severity and a payload.
  - The changelog concatenates the events in a fixed order, stably sorts them by severity, and adds a header taken from the latest provider row.
  - Snapshots live in a store of dated directories. The "previous" snapshot is the greatest directory name other than today's.
- **`common.dfy` (module `Common`).** Shared helpers:
  - `Option` and `Result`;
  - the Python string operations the scripts use (`strip`, `lower`, `upper`, `zfill`, `split`, substring search);
  - decimal rendering and parsing;
  - lexicographic order on names;
  - pandas' "last row after `sort_values`" (`LatestIndex`).
- **`em_coding.dfy` (module `EmCoding`).** The E/M (evaluation and management) coding complexity analysis of Medicare physician services.
  - Columns are picked case-insensitively, then by letters and digits only; no match raises `KeyError`.
  - A code's complexity (1 to 5) comes from an 18-code table after the ".0" of a float rendering is dropped.
  - Each provider's complexity is the service-weighted mean of its lines' levels; providers with at least 20 services are compared.
  - An overlap matrix gives, for specialties A and B, the percentage of A's providers above B's median; "surprising" pairs are those where B's median is higher and the percentage is at least 20.
- **`em_shift.dfy` (module `EmShift`).** The 2019-versus-2023 shift in office E/M coding.
  - Service counts are read with commas dropped and truncated to whole numbers.
  - Per specialty and state, services at levels 4-5 (99214, 99215) are set against all office E/M services (99201-99215).
  - Shares are pooled per specialty and per state; the ten states with the largest absolute change are picked.
- **`hcc_diabetes_map.dfy` (module `HccDiabetesMap`).** County diabetes prevalence from CDC PLACES as a proxy for the CMS-HCC v28 diabetes categories. It covers the clean-up of the downloaded table (column names, the choice of prevalence column, five-digit county FIPS codes, rows without a prevalence) and the counties the caption ranks (population above 10000, with a fallback to every county, and at most ten highest and ten lowest).
- **`lodestar.dfy` (module `Lodestar`).** The Lodestar mock investigation card for a suspected DME (durable medical equipment) fraud ring. It covers the synthetic ring roster's entity ids, min-max scaling, the change-of-ownership volume spike score, the weighted risk score and its contributions, the overall risk percent, the top reasons shown, the benign-explanation picker, and the per-entity link summary over the shared-signal frames.
- **`ma_star.dfy` (module `MaStarRatings`).** Medicare Advantage star ratings by county and state.
  - Synthetic rating trajectories: improving, declining and stable plans, rounded to half stars.
  - County lines weighted by enrollment, with the quality-desert flag (average below 3.5 or fewer than two contracts), and the desert summary.
  - State lines, yearly state lines and trend categories from the first-to-last change.
  - County FIPS codes built from a state code and a zero-padded index.
- **`ownership.dfy` (module `ChangeOfOwnership`).** The change-of-ownership report between the July and September ownership files.
  - Percentages are cleaned (the '%' and blanks dropped, NOT APPLICABLE missing), then both months are pivoted on owner, role, facility, owner type and location, keeping each month's first present percentage.
  - A pivot row is flagged appeared, disappeared or percentage changed; the flagged rows are the report.
  - City and state are cut from the location, and the Houston facilities get a summary line per flagged owner.
- **`post_acute.dfy` (module `PostAcute`).** Post-acute care coordination after hospital discharge.
  - The synthetic discharge generator is a loop over per-patient draws. It covers the destination mix by condition and age, the days to the first post-acute visit, the readmission risk and the leak-type priority rule.
  - The pathway flows and the leak and delay tables are counts and shares over the discharge records.
  - The Sankey diagram's nodes and links are built by a loop.
- **`rating_tracker.dfy` (module `RatingTracker`).** The CMS star-rating tracker for nursing homes.
  - It keeps the rows of the provider CSV whose zero-filled CCN is tracked, renames the CMS columns and parses the processing date.
  - The rows are sorted by CCN and date. For each CCN, the last two dated rows are compared on four ratings: overall, staffing, quality measures and health inspection.
  - A rating that moved gives one change string with its label, both values and an arrow.
  - The history file keeps the last row per (CCN, date). The trend summary gives per-facility statistics of the recent rows.
- **`sorting.dfy` (module `Sorting`).** A stable insertion sort by a real-valued key. It stands for Python's `list.sort`/`sorted` with a key and for pandas `nlargest`.

A table is a sequence of records, and a missing or NaN cell is `None`. Timestamps are
integers. The current time ("now") and today's date are parameters.

## Model

| member | source | states |
|---|---|---|
| CmsWatch.CcnSource | discharge_planning/cms_watch.py:97-100 | the CCN column is the first of federal_provider_number, ccn, provider_number that the table has; None iff it has none of them |
| CmsWatch.NormalizedCcns | discharge_planning/cms_watch.py:92-104 | an empty pull has no ccn column; otherwise the ccn column exists iff a source column exists, and every row's ccn is its source cell zero-filled to at least 6 characters |
| CmsWatch.PadCcns | discharge_planning/cms_watch.py:530 | each command-line CCN is padded to 6 characters; longer ones are unchanged; a short all-digit CCN keeps its numeric value |
| CmsWatch.Eligible | discharge_planning/cms_watch.py:205-206 | a name survives iff it is a directory and not today's when today is excluded |
| CmsWatch.Greatest | discharge_planning/cms_watch.py:202-207 | the last name after sorting is one of the names and no name sorts after it |
| CmsWatch.LatestSnapshotName | discharge_planning/cms_watch.py:201-207 | None iff no directory qualifies; otherwise a qualifying directory that is lexicographically greatest among the qualifying ones |
| CmsWatch.SnapshotStore.Save | discharge_planning/cms_watch.py:209-219 | today's directory now holds the given tables, every other directory is unchanged, and the store stays consistent |
| CmsWatch.SnapshotStore.Load | discharge_planning/cms_watch.py:221-228 | a stored directory yields its tables; a missing one yields five empty tables |
| CmsWatch.RowsFor | discharge_planning/cms_watch.py:243-244 | the facility's rows of a table (penalties here, and the same selection for deficiencies, provider information, QRP and VBP) are exactly the table's rows with that CCN, and no more than the table has |
| CmsWatch.PenaltyRowEvents | discharge_planning/cms_watch.py:265-275 | a penalty row with a new key yields a high CMP event iff its amount is present and positive, then a high DPNA event iff the DPNA start is present and the end is absent or after now; with neither, it yields nothing |
| CmsWatch.DiffPenalties | discharge_planning/cms_watch.py:241-276 | corrected (see Findings): the loop returns the new-key rows' events in row order (PenaltyEvents), with previous and current keys rendered alike |
| CmsWatch.PenaltyEventOrigin | discharge_planning/cms_watch.py:257-275 | an event is reported iff some current row with a key outside the previous key set yields it |
| CmsWatch.KnownPenaltiesSilent | discharge_planning/cms_watch.py:264 | corrected (see Findings): rows whose keys were all seen before yield no events |
| CmsWatch.UnchangedPenaltiesSilent | discharge_planning/cms_watch.py:241-276 | corrected (see Findings): comparing a penalty table with itself yields nothing |
| CmsWatch.ColumnDateText | discharge_planning/cms_watch.py:250-254 | a date column rendered as text gives a present date as its ten-character date and a missing one as "NaT" |
| CmsWatch.ScalarDateText | discharge_planning/cms_watch.py:258-263 | a single timestamp rendered with `str()` is 19 characters, starting with its date, iff it is present |
| CmsWatch.DatedPenaltiesAlwaysNew | discharge_planning/cms_watch.py:256-264 | as written, a dated current row never finds its key among column-rendered previous keys, so every row is treated as new |
| CmsWatch.UnchangedPenaltiesReportedAsWritten | discharge_planning/cms_watch.py:241-276 | as written, a dated penalty table compared with itself reports like a first run: every positive CMP comes back |
| CmsWatch.FirstRunPenalties | discharge_planning/cms_watch.py:264-271 | with no previous snapshot every current penalty with a positive amount is reported |
| CmsWatch.DeficiencyRowEvent | discharge_planning/cms_watch.py:296-302 | one deficiency event, high iff the upper-cased scope/severity code is J, K or L and warn otherwise, carrying tag, upper-cased code and date |
| CmsWatch.DiffDeficiencies | discharge_planning/cms_watch.py:278-303 | corrected (see Findings): the loop returns one event per current row whose (tag, inspection date, scope/severity) key is new, in row order (DeficiencyEvents) |
| CmsWatch.DeficiencyOutcome | discharge_planning/cms_watch.py:296-302 | the event the loop body appends is DeficiencyRowEvent of the row |
| CmsWatch.DeficiencyEventCount | discharge_planning/cms_watch.py:293-302 | the number of deficiency events equals the number of current rows with a new key, and all are deficiency events |
| CmsWatch.FirstRunDeficiencies | discharge_planning/cms_watch.py:292-302 | with no previous snapshot every current deficiency row of the facility yields exactly one event |
| CmsWatch.KnownDeficienciesSilent | discharge_planning/cms_watch.py:295 | corrected (see Findings): rows whose keys were all seen before yield no events |
| CmsWatch.UnchangedDeficienciesSilent | discharge_planning/cms_watch.py:278-303 | corrected (see Findings): comparing a deficiency table with itself yields nothing |
| CmsWatch.DatedDeficienciesAlwaysNew | discharge_planning/cms_watch.py:292-295 | as written, a dated current deficiency row never finds its key among column-rendered previous keys |
| CmsWatch.UnchangedDeficienciesReportedAsWritten | discharge_planning/cms_watch.py:278-303 | as written, a dated deficiency table compared with itself yields one event per facility row, as on a first run |
| CmsWatch.LatestProvider | discharge_planning/cms_watch.py:313-320 | the latest row exists iff the facility has rows, and it is one of them |
| CmsWatch.StarEvent | discharge_planning/cms_watch.py:326-336 | at most one event, present iff the new rating is present and the old one is absent or different; warn iff it is the overall rating, the old value is present and the new one is lower; info otherwise |
| CmsWatch.StarChanges | discharge_planning/cms_watch.py:326-336 | the loop over the two ratings returns StarPart |
| CmsWatch.StarPartOrigin | discharge_planning/cms_watch.py:326-336 | an event is in the star part iff one of the listed ratings yields it |
| CmsWatch.PctChangeAsWritten | discharge_planning/cms_watch.py:343-347 | as written, pct_change of a float always yields +inf |
| CmsWatch.HprdDropNeverFiresAsWritten | discharge_planning/cms_watch.py:343-356 | as written, the HPRD-drop rule never emits an event |
| CmsWatch.HprdDropMissedExample | discharge_planning/cms_watch.py:343-356 | HPRD 4.0 to 3.0 gives no event as written, and one warning as intended |
| CmsWatch.PctChange | discharge_planning/cms_watch.py:343-347 | corrected (see Findings): +inf iff the base is zero; otherwise the relative change r with r·a = b−a |
| CmsWatch.HprdEvents | discharge_planning/cms_watch.py:349-356 | corrected (see Findings): one staffing warning iff both HPRD values are present, the previous is non-zero and the relative change is at most −10% |
| CmsWatch.HprdDropThreshold | discharge_planning/cms_watch.py:349-356 | for a positive previous value the HPRD rule fires iff the new value is at most 90% of it |
| CmsWatch.WeekendEvents | discharge_planning/cms_watch.py:359-366 | one info event iff the previous weekend value, the current weekend value and the current HPRD are present and weekend < 0.8 × HPRD |
| CmsWatch.UnchangedProviderWeekendEvent | discharge_planning/cms_watch.py:359-366 | identical snapshots still report low weekend staffing |
| CmsWatch.TurnoverEvent | discharge_planning/cms_watch.py:369-375 | one staffing warning iff both turnover values are present and rose by at least 0.05 |
| CmsWatch.TurnoverChanges | discharge_planning/cms_watch.py:369-375 | the loop over the three turnover metrics returns TurnoverPart |
| CmsWatch.StaffingChanges | discharge_planning/cms_watch.py:349-366 | corrected (see Findings): the HPRD rule's events followed by the weekend rule's |
| CmsWatch.DiffProviderInfo | discharge_planning/cms_watch.py:305-376 | corrected (see Findings): no events without a current row; otherwise the star, staffing and turnover events of the two latest rows, in that order (ProviderEvents) |
| CmsWatch.FirstRunStarReported | discharge_planning/cms_watch.py:330-336 | with no previous snapshot a present overall rating is reported as information |
| CmsWatch.OverallStarSeverity | discharge_planning/cms_watch.py:334 | a changed overall rating is a warning iff it fell; a changed staffing rating is always information |
| CmsWatch.MeasureEvent | discharge_planning/cms_watch.py:413-421 | one QRP event iff the new value is present and the old one is absent or moved by at least the measure's threshold; warn iff the old value is present and non-zero and the move is in the measure's bad direction |
| CmsWatch.QrpZeroPreviousNeverWorse | discharge_planning/cms_watch.py:418 | a previous value of 0 never counts as a worsening |
| CmsWatch.MeasureChange | discharge_planning/cms_watch.py:413-421 | one measure's comparison returns MeasureEvent |
| CmsWatch.DiffSnfQrp | discharge_planning/cms_watch.py:378-422 | the loop over the four measures returns QrpEvents |
| CmsWatch.MeasurePartOrigin | discharge_planning/cms_watch.py:412-421 | an event is in the QRP part iff a listed measure whose column exists yields it |
| CmsWatch.QrpOnlyPresentColumns | discharge_planning/cms_watch.py:413 | every QRP event is about a measure whose column the current table has |
| CmsWatch.FirstRunQrp | discharge_planning/cms_watch.py:413-421 | with no previous snapshot each present measure of the latest row is reported as information |
| CmsWatch.LatestQrp | discharge_planning/cms_watch.py:386-390 | the latest QRP row exists iff there are rows, and it is one of them |
| CmsWatch.LatestQrpWithoutDates | discharge_planning/cms_watch.py:390 | with neither date column the latest QRP row is the last one |
| CmsWatch.LatestVbp | discharge_planning/cms_watch.py:432-438 | the latest VBP row exists iff there are rows, and it is one of them |
| CmsWatch.MultiplierEvent | discharge_planning/cms_watch.py:443-447 | one VBP event iff the new multiplier is present and the old one is absent or differs by at least 0.005; warn iff the old one is present and the new one is lower |
| CmsWatch.VbpEvents | discharge_planning/cms_watch.py:424-449 | diff_snf_vbp is MultiplierEvent of the two latest multipliers |
| CmsWatch.SortBySeverity | discharge_planning/cms_watch.py:492-493 | the sorted events are a permutation of the emitted ones, ordered high, warn, info |
| CmsWatch.SortKeepsGroup | discharge_planning/cms_watch.py:493 | the sort is stable: the events of each severity keep their emission order |
| CmsWatch.SortBySeverityGroups | discharge_planning/cms_watch.py:484-493 | the sorted changelog is exactly the high events, then the warnings, then the information events, each in emission order |
| CmsWatch.HeaderAsWritten | discharge_planning/cms_watch.py:496 | as written, the header fails with an error on an empty provider table |
| CmsWatch.HeaderCrashesOnEmptyProviderTable | discharge_planning/cms_watch.py:496-509 | the as-written header fails on an empty provider table; the corrected header is the CCN with empty name, city and state |
| CmsWatch.HeaderFor | discharge_planning/cms_watch.py:496-509 | corrected (see Findings): the header carries the CCN, and the name, city and state of the facility's latest provider row, or none when it has no row |
| CmsWatch.BuildChangelogs | discharge_planning/cms_watch.py:455-513 | corrected (see Findings): today's snapshot is saved, and the result maps each requested CCN to its changelog against the previous snapshot |
| CmsWatch.ChangelogsFor | discharge_planning/cms_watch.py:482-511 | corrected (see Findings): the loop fills the results map with one changelog per CCN (ChangelogMap) |
| CmsWatch.ChangelogMapContents | discharge_planning/cms_watch.py:482-511 | corrected (see Findings): the results map has exactly one entry per requested CCN, and it is that CCN's changelog |
| CmsWatch.BuildChangelog | discharge_planning/cms_watch.py:484-511 | corrected (see Findings): one facility's changelog: the five rules in order, sorted by severity, with the facility header |
| CmsWatch.PreviousIsNotToday | discharge_planning/cms_watch.py:473-476 | the previous snapshot is never today's |
| CmsWatch.AbsentFacilitySilent | discharge_planning/cms_watch.py:483-511 | a facility with no rows in any current table gets an empty changelog |
| CmsWatch.FirstRunJeopardyFirst | discharge_planning/cms_watch.py:477-493 | on the first run, a facility without penalties whose deficiencies are all immediate jeopardy has a high deficiency event at the head of its changelog |
| RatingTracker.OrdinalOrder | discharge_planning/track_cms_star_rating_change.py:289-291 | the date key used to order rows agrees with calendar order, and equal keys mean equal dates |
| RatingTracker.IsoDate | discharge_planning/track_cms_star_rating_change.py:316-317 | an ISO date is ten characters with dashes at positions 4 and 7 |
| RatingTracker.ParseIsoDate | discharge_planning/track_cms_star_rating_change.py:249-250 | a date cell is read only when it is ten characters long and names a real calendar date |
| RatingTracker.IsoDateRoundTrip | discharge_planning/track_cms_star_rating_change.py:249-250 | reading back the ISO text of a valid date gives that date |
| RatingTracker.CcnColumnAfterRename | discharge_planning/track_cms_star_rating_change.py:220-241 | after the rename, federal_provider_number exists iff the CSV had the CCN column or already had federal_provider_number |
| RatingTracker.SourceColumn | discharge_planning/track_cms_star_rating_change.py:232-238 | the CSV column that becomes a given internal column renames to it, and there is none iff the internal column is absent after the rename |
| RatingTracker.RowDate | discharge_planning/track_cms_star_rating_change.py:249-256 | without a date column every row is dated "now"; with one, a row is dated iff its cell is present and parses |
| RatingTracker.NormalizeRow | discharge_planning/track_cms_star_rating_change.py:241-264 | a row survives iff it is dated, and its CCN is at least six characters |
| RatingTracker.DatedRowsOrigin | discharge_planning/track_cms_star_rating_change.py:249-256 | a normalised row comes from some raw row, and every raw row that normalises is kept |
| RatingTracker.SortRowsSpec | discharge_planning/track_cms_star_rating_change.py:267 | sorting by (ccn, month_year) gives a permutation of the rows in that order |
| RatingTracker.NormalizeData | discharge_planning/track_cms_star_rating_change.py:205-270 | an empty table or one without a CCN column gives no rows; otherwise the dated rows, sorted by (ccn, month_year), each with a CCN of at least six characters |
| RatingTracker.ChangeLineSpec | discharge_planning/track_cms_star_rating_change.py:301-308 | a rating yields one change string iff both values are present and differ; it starts with the label and ends with the up arrow iff the rating rose |
| RatingTracker.FieldLinesEmpty | discharge_planning/track_cms_star_rating_change.py:300-310 | no change strings iff no rating moved between the two rows |
| RatingTracker.GroupKeysMembers | discharge_planning/track_cms_star_rating_change.py:289 | the groups are exactly the CCNs that have a row, each once |
| RatingTracker.GroupKeysAscending | discharge_planning/track_cms_star_rating_change.py:289 | on sorted rows the groups come in ascending CCN order |
| RatingTracker.GroupOfMembers | discharge_planning/track_cms_star_rating_change.py:289 | a group holds exactly the rows with that CCN |
| RatingTracker.ChronologicalSpec | discharge_planning/track_cms_star_rating_change.py:290 | the sorted group is a permutation of the group in date order |
| RatingTracker.LatestChangeSpec | discharge_planning/track_cms_star_rating_change.py:291-320 | a sorted group yields a change iff it has two rows and some rating moved between the last two; the change carries the latest CCN, the change strings and both ISO dates |
| RatingTracker.ChangeForSpec | discharge_planning/track_cms_star_rating_change.py:289-320 | a facility has a change iff its date-sorted group has two rows whose ratings differ; the change names the facility and the two dates, previous before current |
| RatingTracker.DetectChanges | discharge_planning/track_cms_star_rating_change.py:272-323 | the loop over the groups returns one change per CCN that has one, in group order |
| RatingTracker.CompareLatest | discharge_planning/track_cms_star_rating_change.py:291-320 | one group's comparison of its last two rows gives its change |
| RatingTracker.CompareRatings | discharge_planning/track_cms_star_rating_change.py:300-308 | the loop over the four ratings collects their change strings in label order |
| RatingTracker.AtMostOneChangePerCcn | discharge_planning/track_cms_star_rating_change.py:289-323 | no CCN is reported twice |
| RatingTracker.ChangeReportedIff | discharge_planning/track_cms_star_rating_change.py:289-323 | a CCN is reported iff its last two dated rows differ in some rating |
| RatingTracker.RenderLines | discharge_planning/track_cms_star_rating_change.py:53-59 | the text of a change is two lines: the header and the semicolon-joined changes |
| RatingTracker.DedupeMembers | discharge_planning/track_cms_star_rating_change.py:339-343 | a row survives the de-duplication iff no later row has its (ccn, month_year) key |
| RatingTracker.DedupeKeysDistinct | discharge_planning/track_cms_star_rating_change.py:339-343 | after de-duplication every (ccn, month_year) key appears once |
| RatingTracker.DedupeKeepsKeys | discharge_planning/track_cms_star_rating_change.py:339-343 | every key of the input keeps a row |
| RatingTracker.NewRowWins | discharge_planning/track_cms_star_rating_change.py:339-343 | a fresh row replaces any history row with its key |
| RatingTracker.StatsOrdered | discharge_planning/track_cms_star_rating_change.py:385-391 | a rating has statistics iff some row has it; then min <= mean <= max and the current value lies between min and max |
| RatingTracker.TrendForSpec | discharge_planning/track_cms_star_rating_change.py:373-393 | a facility has a trend row iff it has a recent row; the row carries its CCN and its number of data points |
| RatingTracker.TrendsPerFacility | discharge_planning/track_cms_star_rating_change.py:365-395 | one trend row per recent CCN, in group order, each with its data-point count |
| RatingTracker.TrendSummary | discharge_planning/track_cms_star_rating_change.py:354-395 | the loop builds the trend rows (Trends) |
| RatingTracker.FacilityTrend | discharge_planning/track_cms_star_rating_change.py:374-393 | one facility's stats dictionary (TrendFor) |
| RatingTracker.RatingStats | discharge_planning/track_cms_star_rating_change.py:385-391 | the loop over the ratings fills in their statistics (StatsList) |
| RatingTracker.LatestCsvUrl | discharge_planning/track_cms_star_rating_change.py:143-151 | the URL of the first CSV distribution with a non-empty URL; an error iff there is none |
| RatingTracker.FetchData | discharge_planning/track_cms_star_rating_change.py:185-199 | an empty CSV gives an empty table; otherwise an error iff the CCN column is missing, else exactly the rows whose zero-filled CCN is tracked |
| RatingTracker.NonBlank | discharge_planning/track_cms_star_rating_change.py:559 | the kept lines are the non-empty stripped lines of the file |
| RatingTracker.LoadCcns | discharge_planning/track_cms_star_rating_change.py:557-563 | an unreadable file gives no CCNs; otherwise its non-blank stripped lines |
| RatingTracker.MainCcns | discharge_planning/track_cms_star_rating_change.py:650-656 | command-line CCNs are used as given; a file that yields no CCNs is an error (exit 1) |
| RatingTracker.Tracker.constructor | discharge_planning/track_cms_star_rating_change.py:82-99 | a tracker starts with its CCNs and the history it finds |
| RatingTracker.Tracker.SaveToHistory | discharge_planning/track_cms_star_rating_change.py:325-352 | the history becomes the new rows when there was none, otherwise the old history plus the new rows with the last row per (ccn, month_year) kept |
| RatingTracker.Tracker.Run | discharge_planning/track_cms_star_rating_change.py:484-522 | the changes come from the freshly fetched and normalised rows, never from the merged history; the history changes only when saving was asked for and rows were fetched |
| CmsApi.ParseRating | nursing_home_dashboard/cms_api.py:162-170 | a rating is always in 0..5; a falsy, "Not Available" or non-integer value gives 0; an integer below 0 is clamped to 0, one above 5 to 5, and one in range is kept |
| CmsApi.ParseRatingOfText | nursing_home_dashboard/cms_api.py:162-170 | a rating written as decimal text is the integer clamped to 0..5 |
| CmsApi.ParseFloatZero | nursing_home_dashboard/cms_api.py:172-179 | the number 0 is missing (it is falsy) while the text "0" reads as 0 |
| CmsApi.ParseFloatNumbers | nursing_home_dashboard/cms_api.py:172-179 | any non-zero number, and the decimal text of any natural number, reads as that number |
| CmsApi.RatingsOf | nursing_home_dashboard/cms_api.py:131-135 | all five ratings of a processed record are in 0..5 |
| CmsApi.ProcessFacility | nursing_home_dashboard/cms_api.py:121-158 | a record fails to process iff one of its three counts is not an integer literal; otherwise the id and state are its text columns (with their defaults), the bed count is its count, and the six measures are all present |
| CmsApi.MissingCountsAreZero | nursing_home_dashboard/cms_api.py:139-153 | a record without the count keys processes, with zero beds and zero deficiencies |
| CmsApi.ProcessData | nursing_home_dashboard/cms_api.py:112-160 | processing succeeds iff every record does, and then gives one row per record, in order |
| CmsApi.ProcessedFrom | nursing_home_dashboard/cms_api.py:112-160 | every processed row is the processing of one of the records |
| CmsApi.FilterBySearch | nursing_home_dashboard/cms_api.py:181-192 | a row is kept iff it is in the frame and the lower-cased stripped term occurs in its lower-cased name, city or address or in its zip as is |
| CmsApi.BlankTermKeepsTextRows | nursing_home_dashboard/cms_api.py:183-192 | a term that is blank after stripping keeps exactly the rows with some searched text column present |
| CmsApi.InState | nursing_home_dashboard/cms_api.py:92-93 | a row is kept iff it is in the frame and its state is the requested one |
| CmsApi.Head | nursing_home_dashboard/cms_api.py:100-101 | `head(n)` is a prefix of the frame, of length min(n, rows) for n >= 0 and with -n rows dropped for n < 0 |
| CmsApi.LiveResultSpec | nursing_home_dashboard/cms_api.py:91-101 | the result is a prefix of the filtered frame; every row comes from the frame, is in the requested state and matches the term; a non-negative limit caps the count exactly at min(limit, filtered rows) |
| CmsApi.FetchedPages | nursing_home_dashboard/cms_api.py:53-86 | the batch loop, when it does not fall back, returns the records of the first k batches for some k up to the batch count |
| CmsApi.LiveSearchFromPages | nursing_home_dashboard/cms_api.py:53-101 | every row of a live search is the processing of a record from the first k batches, k at most 20 with a state and 2 without |
| CmsApi.ResultFromRecords | nursing_home_dashboard/cms_api.py:89-101 | every row kept by the filters is the processing of one of the fetched records |
| CmsApi.LiveSearchFilters | nursing_home_dashboard/cms_api.py:91-101 | a live search returns only rows of the requested state that match the term, and at most `limit` of them |
| CmsApi.CacheKeyFields | nursing_home_dashboard/cms_api.py:41 | for a state text without '_' (a search term may hold any), the cache key splits on '_' into the state first and the limit last, so such searches differing in state or limit never share an entry |
| CmsApi.Api.constructor | nursing_home_dashboard/cms_api.py:19-21 | a new client starts with an empty cache |
| CmsApi.Api.SearchFacilities | nursing_home_dashboard/cms_api.py:23-110 | an entry younger than one hour is returned unchanged; otherwise a failed fetch returns the sample data and leaves the cache alone, and a live result is returned and cached under the key with the current time |
| CmsApi.Api.Live | nursing_home_dashboard/cms_api.py:48-106 | the live path fetches, processes and filters exactly as LiveSearch specifies |
| CmsApi.Api.Narrow | nursing_home_dashboard/cms_api.py:91-101 | the state filter, the search filter and the limit give the live result of the processed frame |
| CmsApi.Api.FetchBatches | nursing_home_dashboard/cms_api.py:51-86 | the batch loop stops at an empty page, at an error status, at enough rows of the requested state or after the batch count, as FetchFrom specifies |
| CmsApi.Api.ClearCache | nursing_home_dashboard/cms_api.py:305-308 | the cache becomes empty |
| ChangeOfOwnership.CleanPct | discharge_planning/change_of_ownership.py:37-46 | a missing cell is None; a kept percentage comes from text that is not empty and not NOT APPLICABLE in any case, read as a decimal after removing '%' and whitespace |
| ChangeOfOwnership.CleanPctOfPercent | discharge_planning/change_of_ownership.py:40-44 | a whole-number percentage written with '%' is read back as that number |
| ChangeOfOwnership.NotApplicableIsMissing | discharge_planning/change_of_ownership.py:41-42 | NOT APPLICABLE in any mix of cases is a missing percentage |
| ChangeOfOwnership.CleanFrame | discharge_planning/change_of_ownership.py:48-49 | the loop over a frame replaces each row's percentage by its cleaned value and changes nothing else |
| ChangeOfOwnership.KeyFields | discharge_planning/change_of_ownership.py:59-63 | the key `ccn|owner|role` splits back into its three parts when none of them holds a '|' |
| ChangeOfOwnership.IndexOf | discharge_planning/change_of_ownership.py:67-76 | a row takes part in the pivot iff all six index columns are present |
| ChangeOfOwnership.FirstPct | discharge_planning/change_of_ownership.py:77-79 | a month's value for a pivot row is the first present percentage among its rows, and it is missing iff none of its rows has one |
| ChangeOfOwnership.Indexes | discharge_planning/change_of_ownership.py:67-80 | the pivot has one row per distinct index of the combined months |
| ChangeOfOwnership.PivotHas | discharge_planning/change_of_ownership.py:67-80 | an index of either month with a value in at least one month is a pivot row carrying its first July and first September values |
| ChangeOfOwnership.PivotMonthPresent | discharge_planning/change_of_ownership.py:67-80 | the pivot has a July (September) value somewhere iff that month has a row with all index columns and a percentage |
| ChangeOfOwnership.OwnershipReport | discharge_planning/change_of_ownership.py:67-90 | the report fails with KeyError iff July or September has no percentage on an indexed row: 'July' when July has none, else 'Sept'; otherwise it is the flagged pivot rows (OwnershipChanges) |
| ChangeOfOwnership.FlagsPartition | discharge_planning/change_of_ownership.py:83-87 | the three flags exclude each other, and some flag is set iff the July and September values differ |
| ChangeOfOwnership.FlagChanges | discharge_planning/change_of_ownership.py:83-90 | the loop adds the flags and keeps the flagged pivot rows in order (Changed) |
| ChangeOfOwnership.ChangedMembers | discharge_planning/change_of_ownership.py:83-90 | a row is kept iff it is a pivot row whose months differ, and it carries its own flags |
| ChangeOfOwnership.ReportedIff | discharge_planning/change_of_ownership.py:67-90 | an owner row of either month is reported iff its first July and first September percentages differ, and the report carries both |
| ChangeOfOwnership.ReportedRow | discharge_planning/change_of_ownership.py:67-90 | every reported row carries its index's July and September values, which differ |
| ChangeOfOwnership.ReportedWhenDiffer | discharge_planning/change_of_ownership.py:67-90 | every index whose two months differ is reported |
| ChangeOfOwnership.NotApplicableReportedRemoved | discharge_planning/change_of_ownership.py:41-90 | a percentage that becomes NOT APPLICABLE in September is among the flagged pivot rows as disappeared; with no other September row the script stops with KeyError 'Sept' |
| ChangeOfOwnership.SeptMissingStops | discharge_planning/change_of_ownership.py:80-87 | one July row with a percentage and one September row without: the report is KeyError 'Sept' |
| ChangeOfOwnership.RelocatedOwnerSplits | discharge_planning/change_of_ownership.py:67-90 | an owner with an unchanged key but a changed location, provider name or owner type is reported as one disappeared and one appeared row; the report succeeds with these flagged rows |
| ChangeOfOwnership.LocationFields | discharge_planning/change_of_ownership.py:110-111 | City and State are the third- and second-to-last comma fields of the location |
| ChangeOfOwnership.SummaryOfReported | discharge_planning/change_of_ownership.py:123-129 | each reported row gives exactly the summary line of its one flag, with the owner and its percentages |
| ChangeOfOwnership.FacilityLinesOnePerRow | discharge_planning/change_of_ownership.py:117-129 | a Houston facility's summary has one line per reported owner row, in order |
| Dashboard.Repeat | nursing_home_dashboard/app.py:74-75 | a repeated star has the repeat count as its length (none for a count that is not positive), and every character is that star |
| Dashboard.StarsShowRating | nursing_home_dashboard/app.py:70-76 | a rating of 0..5 is drawn as five stars of which exactly the first `rating` are filled, then "(rating)", or "(Not Rated)" for 0 |
| Dashboard.StarsDistinguishRatings | nursing_home_dashboard/app.py:70-76 | two different ratings in 0..5 are drawn differently |
| Dashboard.StarsOutOfRange | nursing_home_dashboard/app.py:74-76 | a rating above 5 shows that many filled stars and no empty one; a negative rating shows 5 - rating empty stars |
| Dashboard.GreyIffUnrated | nursing_home_dashboard/app.py:78-81 | the colour is grey iff the rating is not one of 1..5 |
| Dashboard.ColorsDistinguishRatings | nursing_home_dashboard/app.py:80 | the five star ratings get five different colours |
| Dashboard.FilterSteps | nursing_home_dashboard/app.py:85-121 | applying the four filters one after the other is the single filter on their conjunction |
| Dashboard.ClassesCoverChosen | nursing_home_dashboard/app.py:96-109 | a bed count is in one of the masks built for the chosen labels iff it lies in a chosen size class |
| Dashboard.CombineMasks | nursing_home_dashboard/app.py:105-108 | the OR loop gives, for each row, true iff some mask holds for that row |
| Dashboard.MasksOfClasses | nursing_home_dashboard/app.py:96-109 | the OR of the chosen classes' masks is exactly the bed-size filter |
| Dashboard.FilterDataframe | nursing_home_dashboard/app.py:83-121 | the step-by-step filtering gives exactly the rows that pass all four filters, in table order |
| Dashboard.FilterBySize | nursing_home_dashboard/app.py:95-109 | the bed-size step keeps the rows in some chosen size class, and every row when no size is chosen |
| Dashboard.FilterBySidebarSearch | nursing_home_dashboard/app.py:111-119 | the search step keeps the rows whose lower-cased name or city, or raw zip, contains the lower-cased text, and every row for an empty text |
| Dashboard.FilterSame | nursing_home_dashboard/app.py:111-119 | two masks that agree on every row select the same rows |
| Dashboard.FilteredRowsMembers | nursing_home_dashboard/app.py:83-121 | a row is shown iff it is in the table and passes every filter that has a choice: rating, ownership, size and search text |
| Dashboard.NoFiltersKeepAll | nursing_home_dashboard/app.py:83-121 | with nothing chosen the table is shown unchanged |
| Dashboard.ZeroBedsDropped | nursing_home_dashboard/app.py:96-109 | whenever a size is chosen, a facility with no beds on record is not shown |
| Dashboard.RemoveFirst | nursing_home_dashboard/app.py:260 | `list.remove` drops one occurrence: one element fewer, the same multiset minus that id |
| Dashboard.RemoveFirstNoDuplicates | nursing_home_dashboard/app.py:258-261 | in a list without duplicates, removing an id removes it entirely and keeps the rest without duplicates |
| Dashboard.Comparison.constructor | nursing_home_dashboard/app.py:66-67 | the session starts with nothing selected |
| Dashboard.Comparison.Press | nursing_home_dashboard/app.py:258-268 | a selected facility is removed; another is added while fewer than four are selected, and otherwise the warning is shown and nothing changes; at most four ids, none twice, is kept |
| Dashboard.Comparison.Compared | nursing_home_dashboard/app.py:474-476 | the comparison rows are the rows of the whole table whose id is selected |
| CertLeakage.OtherByFirstChar | data_visualization_scripts/cert_leakage.py:39-59 | a code whose first character starts none of the rules (J, Q99, E/K/L, 7, 8, 99) falls through to "Other" |
| CertLeakage.MissingCodeIsOther | data_visualization_scripts/cert_leakage.py:35-37 | a missing code is "Other", and so is the text "nan" that `astype(str)` makes of it (line 120) |
| CertLeakage.ServiceCategoryIgnoresCase | data_visualization_scripts/cert_leakage.py:37 | the category of a code does not depend on the case of its letters |
| CertLeakage.ServiceCategoryIgnoresBlanks | data_visualization_scripts/cert_leakage.py:37 | blanks around a code do not change its category |
| CertLeakage.FlagsIgnoreCase | data_visualization_scripts/cert_leakage.py:62-74 | an upper-cased decision is flagged as (partial) disagreement exactly when the original is |
| CertLeakage.PartialIsDisagree | data_visualization_scripts/cert_leakage.py:69-74 | a partial disagreement is always a disagreement |
| CertLeakage.OtherIffNoSignal | data_visualization_scripts/cert_leakage.py:77-106 | an error reason falls in "Other" if and only if its text contains none of the twelve signal words (necess, doc, record not received, coding, code incorrect, incorrect code, modifier, place of service, pos, diagnosis, procedure, billing error) |
| CertLeakage.NecessityWithoutOtherKeys | data_visualization_scripts/cert_leakage.py:85-98 | text with "necess" and no documentation or coding keyword is Medical Necessity, with or without "medical" |
| CertLeakage.SafeErrorBucket | data_visualization_scripts/cert_leakage.py:125-131 | a claim gets an error bucket exactly when its decision is a disagreement, and then the bucket of its error code and decision |
| CertLeakage.GroupOf | data_visualization_scripts/cert_leakage.py:140-141 | a category's group holds exactly the claims whose code maps to that category |
| CertLeakage.RateAsWrittenExceedsHundred | data_visualization_scripts/cert_leakage.py:143-149 | two disagreed claims of one category, one without a control number, give a disagreement rate of 200% |
| CertLeakage.RateInRange | data_visualization_scripts/cert_leakage.py:149 | corrected (see Findings): the disagreement rate over all claims of a category lies in [0, 100]; it is 0 iff none and 100 iff all of a non-empty group disagreed |
| CertLeakage.PartialShareInRange | data_visualization_scripts/cert_leakage.py:144-150 | partial disagreements never outnumber disagreements, so partial_share lies in [0, 100] |
| CertLeakage.MixPartition | data_visualization_scripts/cert_leakage.py:164-168 | the four error buckets split the disagreed claims of a category: their counts add up to the disagreed count |
| CertLeakage.MixSharesSumToHundred | data_visualization_scripts/cert_leakage.py:171 | the bucket shares of a category with disagreements add up to 100% |
| CertFfs.AgreesOnCleanCodes | cert_ffs_analysis.py:27-41 | on a code with no surrounding blanks and no lower-case letters, map_category and map_service_category agree |
| CertFfs.CaseMatters | cert_ffs_analysis.py:28-30 | "j1234" is "Other" for map_category but Part B Drugs for map_service_category |
| CertFfs.BlanksMatter | cert_ffs_analysis.py:28-30 | a J code behind a leading blank is "Other" for map_category but Part B Drugs for map_service_category |
| CertFfs.IsDisagreeIsFlagDisagree | cert_ffs_analysis.py:49 | the case-insensitive "Disagree" test flags exactly the claims flag_disagree flags, and a missing decision is not flagged |
| CertFfs.FfsGroupOf | cert_ffs_analysis.py:55 | a category's group holds exactly the claims whose code map_category sends there |
| CertFfs.FfsRateDividesByZero | cert_ffs_analysis.py:54-61 | a category whose only claim lacks a control number has no finite disagreement rate |
| CertFfs.FfsRateWithNumbers | cert_ffs_analysis.py:54-61 | when every claim has a control number, the rate is disagreed over all claims times 100 and lies in [0, 100] |
| EmCoding.KeepAlnum | em_coding.py:42 | the normalised name is no longer than the input and keeps only letters and digits |
| EmCoding.Lookup | em_coding.py:38 | a name is found among the columns iff some column has the same key, and what is found is such a column |
| EmCoding.LaterColumnWins | em_coding.py:38 | of two columns with the same key, the later one is the one the dictionary keeps |
| EmCoding.FirstFound | em_coding.py:39-41 | a column is found iff some candidate matches a column, and the result is one of the columns |
| EmCoding.FirstFoundPicks | em_coding.py:39-41 | the first candidate that matches decides the column, whatever later candidates match |
| EmCoding.PickCol | em_coding.py:36-48 | a picked column is always one of the frame's columns |
| EmCoding.PickColCaseInsensitive | em_coding.py:38-41 | a case-insensitive match of the first matching candidate is picked |
| EmCoding.PickColNormalised | em_coding.py:42-47 | with no case-insensitive match, the first candidate whose letters and digits match a column's picks that column |
| EmCoding.PickColFails | em_coding.py:48 | `KeyError` is raised iff no candidate matches any column after normalisation |
| EmCoding.WeightedAvg | em_coding.py:50-52 | the weighted mean is NaN (None) iff the weights do not sum to a positive number; otherwise it times the weight sum is the weighted sum of the values |
| Common.DotAtLeast | em_coding.py:51 | with non-negative weights and values at least `lo`, the weighted sum is at least `lo` times the total weight |
| Common.DotAtMost | em_coding.py:51 | with non-negative weights and values at most `hi`, the weighted sum is at most `hi` times the total weight |
| EmCoding.WeightedAvgBounds | em_coding.py:50-52 | a weighted mean of values in [lo, hi] with non-negative weights lies in [lo, hi] |
| EmCoding.TrailingZeros | em_coding.py:97 | counts exactly the trailing run of zeros |
| EmCoding.NormalizeHcpcs | em_coding.py:97 | the normalised code is a prefix of the stripped code, and what is removed is a point followed by zeros |
| EmCoding.FloatRenderingDropped | em_coding.py:97 | a code read as a float ("99213.0", "99213.00") loses its ".0…" suffix |
| EmCoding.SuffixDropped | em_coding.py:97 | a stripped code ending in a point and k zeros is cut before the point |
| EmCoding.TrailingZerosExactly | em_coding.py:97 | a run of exactly k zeros before a non-zero is counted as k |
| EmCoding.NoPointOnlyStripped | em_coding.py:97 | a code without a point is only stripped |
| EmCoding.Complexity | em_coding.py:56-62 | a code has a complexity iff its normalised form is one of the 18 E/M codes, and the complexity is 1 to 5 |
| EmCoding.EmLines | em_coding.py:100-101 | the kept lines are exactly those whose code maps to a complexity |
| EmCoding.LevelsInRange | em_coding.py:100 | every kept line's level is between 1 and 5 |
| EmCoding.ServicesAt | em_coding.py:230-232 | the weights are the lines' service counts, in order |
| EmCoding.ProviderOf | em_coding.py:227-235 | a provider keeps its NPI and specialty; its total services is the sum of its lines' services; its complexity is NaN iff that total is not positive, and otherwise the service-weighted mean of its lines' levels |
| EmCoding.ProviderComplexityInRange | em_coding.py:227-235 | a provider's service-weighted complexity is NaN iff its services do not sum to a positive number, and otherwise lies in [1, 5] |
| EmCoding.Compared | em_coding.py:246-256 | the compared providers are exactly those with at least 20 services in a compared specialty |
| EmCoding.AboveShare | em_coding.py:267-273 | the share above B's median is NaN iff the median is missing or A has no values; otherwise it is a percentage, 0 iff no value of A exceeds the median |
| EmCoding.BuildOverlap | em_coding.py:264-273 | the matrix is square over the compared specialties and every cell is the share of A's providers above B's median |
| EmCoding.SurprisingPairs | em_coding.py:298-307 | the loop collects, in row-major order, exactly the specification's entries |
| EmCoding.RowEntriesMembers | em_coding.py:301-307 | an entry of one row is there iff its pair is distinct, both medians exist, B's median is higher and the cell is at least 20 |
| EmCoding.SurprisingMembers | em_coding.py:300-307 | an entry is collected iff some distinct pair with both medians, B's median higher and a cell of at least 20 gives it |
| EmCoding.SurprisingSound | em_coding.py:302-307 | every collected entry has distinct specialties, B's median above A's, a share of at least 20, and the medians from the table |
| EmCoding.SortedSurprising | em_coding.py:308 | the sorted list is a permutation of the entries, largest share first |
| EmShift.CodeRange | em_coding_2019_to_2023.py:24 | the list has one entry per number in the range, each its decimal spelling |
| EmShift.CodeRangeIff | em_coding_2019_to_2023.py:24 | a code is in the list iff it spells a number of the range |
| EmShift.CodeRangeDistinct | em_coding_2019_to_2023.py:24 | the spellings in the list are pairwise distinct |
| EmShift.EmCodeIff | em_coding_2019_to_2023.py:24 | a code is an office E/M code iff it spells a number from 99201 to 99215 |
| EmShift.EmCodesDistinct | em_coding_2019_to_2023.py:24 | there are fifteen distinct office E/M codes |
| EmShift.HighLevelIsEm | em_coding_2019_to_2023.py:24-25 | levels 4 and 5 are office E/M codes, so high-level services are counted in the total |
| EmShift.ParseServices | em_coding_2019_to_2023.py:38-42 | after the commas are dropped: a missing cell and a NaN text are 0; other text fails with ValueError iff `float()` cannot read it, and a readable count is truncated toward zero |
| EmShift.FractionTruncated | em_coding_2019_to_2023.py:38-42 | a count written with a fraction, such as "71842.6", counts as its whole part |
| EmShift.NanCountIsZero | em_coding_2019_to_2023.py:38-42 | the text "NaN" counts as 0 |
| EmShift.ServicesOfCount | em_coding_2019_to_2023.py:38-42 | a count written as plain digits reads as that count |
| EmShift.CommasIgnored | em_coding_2019_to_2023.py:40 | a thousands separator does not change the count |
| EmShift.CleanRows | em_coding_2019_to_2023.py:38-42 | the clean-up fails iff some count is unreadable; otherwise every row keeps its codes and gets its parsed count, and a missing count is 0 |
| EmShift.GroupRows | em_coding_2019_to_2023.py:45-49 | a pair's rows are exactly the rows of that specialty and state with an office E/M code |
| EmShift.SumSplits | em_coding_2019_to_2023.py:54-58 | high-level and other services add up to all services |
| EmShift.SumAppend | em_coding_2019_to_2023.py:49-50 | the services of two lists of rows add up |
| EmShift.Groups | em_coding_2019_to_2023.py:45-58 | the (specialty, state) pairs of the summary, each once, are exactly the pairs of the year's rows with an office E/M code |
| EmShift.SummariesOf | em_coding_2019_to_2023.py:51-63 | one summary per listed pair, built from that pair's rows |
| EmShift.YearSummaries | em_coding_2019_to_2023.py:30-65 | a year fails with KeyError iff it has no low-level or no high-level E/M row (KeyError 'low' when the low level is missing, else KeyError 'high'); otherwise it has one summary per pair of Groups, each for that year, and every pair's summary is there |
| EmShift.PairTallyIsGroupSum | em_coding_2019_to_2023.py:45-58 | a pair's tally over the rows is the services of its group's rows that pass the level test |
| EmShift.PoolTallyIsPoolSum | em_coding_2019_to_2023.py:72-74 | a pool's tally over the rows is the services of the pool's E/M rows that pass the level test |
| EmShift.RowTallyOnce | em_coding_2019_to_2023.py:45-58 | with distinct pairs, a row adds its services exactly once when it is an E/M row of a listed pair in the pool that passes the test, and nothing otherwise |
| EmShift.GroupsTallyIsPoolTally | em_coding_2019_to_2023.py:45-74 | summing pair by pair over distinct pairs that cover every E/M row gives the pool's tally |
| EmShift.PooledGroups | em_coding_2019_to_2023.py:62-74 | pooling the pairs' summaries adds up the pairs' high and low tallies |
| EmShift.PooledCoveringGroups | em_coding_2019_to_2023.py:62-74 | over distinct covering pairs, the pooled high and total are the high and all services of the pool's E/M rows |
| EmShift.PooledShareOfRows | em_coding_2019_to_2023.py:30-75 | the pooled high count, total and share of a state or specialty in a year's summary table are those of the pool's own E/M rows, so grouping by pair first changes nothing |
| EmShift.TotalIsAllServices | em_coding_2019_to_2023.py:62 | a pair's total is the sum of all its E/M services |
| EmShift.ShareIsFraction | em_coding_2019_to_2023.py:62-63 | with non-negative counts, high is within the total, the share exists iff the total is positive, and it lies in [0, 1] |
| EmShift.FractionBetween | em_coding_2019_to_2023.py:63 | a part over a positive whole lies in [0, 1] |
| EmShift.PooledBounds | em_coding_2019_to_2023.py:73-74 | pooling summaries keeps high within total |
| EmShift.PooledShareIsFraction | em_coding_2019_to_2023.py:73-75 | the pooled share of a specialty or state lies in [0, 1] |
| EmShift.ShiftOf | em_coding_2019_to_2023.py:77-83 | a group has a pivot row iff it has a share in both years, and the row's delta is the 2023 share minus the 2019 share |
| EmShift.Shifts | em_coding_2019_to_2023.py:136-145 | the pivot holds exactly the groups with a share in both years, each with its own shares |
| EmShift.StateShift | em_coding_2019_to_2023.py:136-145 | only the fifty states and DC appear in the state pivot |
| EmShift.SpecialtiesOf | em_coding_2019_to_2023.py:72-78 | the pivot's specialties, each once, are exactly the specialties of the summaries |
| EmShift.PooledTotalHasMember | em_coding_2019_to_2023.py:73-75 | a pool with a non-zero total holds some summary |
| EmShift.SpecialtyTableRows | em_coding_2019_to_2023.py:72-83 | the specialty table has a row for a specialty iff its pooled share exists in both years, and the row holds the two shares and their difference |
| EmShift.SpecialtyChart | em_coding_2019_to_2023.py:67-84 | the specialty table fails iff either year's summary fails, with the 2019 error first |
| EmShift.TopStatesChart | em_coding_2019_to_2023.py:67-152 | the top states fail iff either year's summary fails; otherwise at most ten states, all among the fifty states and DC |
| EmShift.SpecialtyRanking | em_coding_2019_to_2023.py:72-84 | the specialty rows are the pivot's rows, ordered by delta, largest increase first |
| EmShift.Keys | em_coding_2019_to_2023.py:151 | the index keeps the rows' states in order |
| EmShift.TopShifts | em_coding_2019_to_2023.py:146-150 | at most ten rows, all from the pivot, ordered by absolute delta, largest first |
| EmShift.TopStates | em_coding_2019_to_2023.py:146-152 | at most ten states, each a state of the pivot |
| EmShift.TopShiftsDominate | em_coding_2019_to_2023.py:147-150 | no state left out of the top ten changed more than a chosen one |
| Common.WeightedMeanBetween | em_coding.py:50-52 | a weighted mean with non-negative weights and a positive total lies between any lower and upper bound of the values |
| Common.MapAll | data_visualization_scripts/ma_star_ratings_geographic.py:215-227 | a per-group computation over a list of keys fails iff it fails for some key; otherwise it yields one result per key, in order |
| Common.Unique | data_visualization_scripts/ma_star_ratings_geographic.py:219 | `nunique`/`unique`: the distinct values of a list, each once, and no others |
| Common.FilterFull | data_visualization_scripts/ma_star_ratings_geographic.py:249-250 | a boolean mask keeps every row iff every row satisfies it |
| MaStarRatings.RoundHalfStarBetween | data_visualization_scripts/ma_star_ratings_geographic.py:106 | rounding to the nearest half star keeps a rating in [2.0, 5.0] and yields a multiple of 0.5 |
| MaStarRatings.TrajectoryInRange | data_visualization_scripts/ma_star_ratings_geographic.py:92-106 | every synthetic rating, improving, declining or stable, is a half-star value between 2.0 and 5.0 |
| MaStarRatings.NearHalfStarRoundsBack | data_visualization_scripts/ma_star_ratings_geographic.py:106 | a value within a quarter star of a half-star value rounds back to it |
| MaStarRatings.StableKeepsBase | data_visualization_scripts/ma_star_ratings_geographic.py:100-106 | a stable plan's jitter of at most 0.1 is rounded away: the rating stays at its half-star base |
| MaStarRatings.ImproveSchedule | data_visualization_scripts/ma_star_ratings_geographic.py:92-95 | over five years an improving plan keeps its base for two years and then gains half a star, capped at 5.0 |
| MaStarRatings.DeclineSchedule | data_visualization_scripts/ma_star_ratings_geographic.py:96-99 | over five years a declining plan keeps its base for four years and then loses half a star, floored at 2.0 |
| MaStarRatings.MergeRatedMembers | data_visualization_scripts/ma_star_ratings_geographic.py:205-212 | the merged table holds exactly the pairs of an enrollment row and a rating row with the same contract whose rating is present |
| MaStarRatings.MergedRowsAreRated | data_visualization_scripts/ma_star_ratings_geographic.py:211-212 | every merged row carries a present rating of its own contract |
| MaStarRatings.Average | data_visualization_scripts/ma_star_ratings_geographic.py:217 | `np.average` raises iff the weights sum to zero |
| MaStarRatings.AverageBetween | data_visualization_scripts/ma_star_ratings_geographic.py:217 | with non-negative weights an enrollment-weighted average lies between the lowest and the highest value |
| MaStarRatings.CountyOf | data_visualization_scripts/ma_star_ratings_geographic.py:215-233 | a county line fails iff its enrollment sums to zero; otherwise it has the county's code, the state and name of its first row, and a desert flag that agrees with the thresholds |
| MaStarRatings.CountyBounds | data_visualization_scripts/ma_star_ratings_geographic.py:217-225 | a county's average lies between its lowest and highest plan rating, and its share of 4+ star enrollment is a percentage |
| MaStarRatings.WellServedCountyIsNoDesert | data_visualization_scripts/ma_star_ratings_geographic.py:230-233 | a county with two distinct contracts, all rated at least 3.5, is not a quality desert |
| MaStarRatings.PoorlyRatedCountyIsDesert | data_visualization_scripts/ma_star_ratings_geographic.py:230-233 | a county whose plans are all rated below 3.5 is a quality desert |
| MaStarRatings.SingleContractIsDesert | data_visualization_scripts/ma_star_ratings_geographic.py:219-233 | a county served by a single contract is a quality desert however well it is rated |
| MaStarRatings.CountyCodes | data_visualization_scripts/ma_star_ratings_geographic.py:215 | the grouped county codes are exactly the codes present in the merged rows |
| MaStarRatings.CountyStats | data_visualization_scripts/ma_star_ratings_geographic.py:215-227 | one line per county code, each the county's own line; the table fails iff some county has zero enrollment |
| MaStarRatings.CountiesClassified | data_visualization_scripts/ma_star_ratings_geographic.py:229-233 | every county line carries the desert flag that its rating and plan count call for |
| MaStarRatings.DesertAnalysis | data_visualization_scripts/ma_star_ratings_geographic.py:598-613 | the desert summary fails iff there are no counties; it counts the desert counties and their enrollment, and the enrollment share is missing iff total enrollment is zero |
| MaStarRatings.DesertEnrollmentBetween | data_visualization_scripts/ma_star_ratings_geographic.py:599-611 | with non-negative enrollments the desert enrollment lies between zero and the total |
| MaStarRatings.DesertSharesArePercentages | data_visualization_scripts/ma_star_ratings_geographic.py:608-611 | the shares of desert counties and of desert enrollment are percentages, and desert counties are at most all counties |
| MaStarRatings.NonDesertsRateWell | data_visualization_scripts/ma_star_ratings_geographic.py:612-613 | counties that are not deserts average at least the 3.5 threshold |
| MaStarRatings.MeanAtLeast | data_visualization_scripts/ma_star_ratings_geographic.py:612-613 | the mean of values each at least a bound is at least that bound |
| MaStarRatings.StateOf | data_visualization_scripts/ma_star_ratings_geographic.py:244-253 | a state line fails iff its counties' enrollment sums to zero; otherwise it counts the state's counties and its desert counties |
| MaStarRatings.StateDesertShare | data_visualization_scripts/ma_star_ratings_geographic.py:249-250 | the state's desert share is a percentage: 0 iff no county is a desert, 100 iff every county is |
| MaStarRatings.StateRatingBetween | data_visualization_scripts/ma_star_ratings_geographic.py:246 | a state's rating lies between its lowest and highest county rating |
| MaStarRatings.StateYearOf | data_visualization_scripts/ma_star_ratings_geographic.py:279-285 | a state's yearly line fails iff the state's enrollment that year is zero; otherwise it carries the state, the year and that enrollment |
| MaStarRatings.StateYears | data_visualization_scripts/ma_star_ratings_geographic.py:267-287 | one line per state for the year, in order; the year fails iff some state has no enrollment |
| MaStarRatings.CategoryBands | data_visualization_scripts/ma_star_ratings_geographic.py:311-321 | each trend category holds exactly on its band of total change: at least 0.25, [0.1, 0.25), (-0.1, 0.1), (-0.25, -0.1], at most -0.25 |
| MaStarRatings.CategoryMonotone | data_visualization_scripts/ma_star_ratings_geographic.py:311-321 | a larger total change never gets a worse trend category |
| MaStarRatings.PctChange | data_visualization_scripts/ma_star_ratings_geographic.py:330 | the percentage change is 0 when the first rating is not positive; otherwise it has the sign of the change and equals change / first * 100 |
| MaStarRatings.TrendOf | data_visualization_scripts/ma_star_ratings_geographic.py:294-331 | a state gets a trend line iff it has at least two yearly lines; the line's change is current minus first, with its category and percentage |
| MaStarRatings.TrendEndpoints | data_visualization_scripts/ma_star_ratings_geographic.py:295-309 | the first rating is that of the state's earliest year and the current rating that of its latest year |
| MaStarRatings.States | data_visualization_scripts/ma_star_ratings_geographic.py:294 | the states listed (of the yearly lines here, and of a year's merged rows at line 279) are exactly those occurring in the table, each once |
| MaStarRatings.TrendStatsCover | data_visualization_scripts/ma_star_ratings_geographic.py:293-331 | the trend table has a line for a state iff that state has at least two yearly lines |
| MaStarRatings.CountyFipsShape | data_visualization_scripts/ma_star_ratings_geographic.py:152-153 | a county code built from a two-digit state code and an index below 1000 has five digits, starts with the state code, ends with the index, and is unchanged by the map's zero-padding |
| MaStarRatings.CountyFipsInjective | data_visualization_scripts/ma_star_ratings_geographic.py:152-153 | distinct state codes or county indexes give distinct county codes |
| Common.Mean | data_visualization_scripts/ma_star_ratings_geographic.py:612-613 | a mean is missing (NaN) exactly when there is nothing to average |
| MaStarRatings.AllStateYears | data_visualization_scripts/ma_star_ratings_geographic.py:267-290 | the yearly lines of all requested years, in year order; no years at all fail with ValueError (`pd.concat` of nothing); the first year with a zero-enrollment state makes the whole table fail |
| MaStarRatings.YearLinesYears | data_visualization_scripts/ma_star_ratings_geographic.py:267-290 | every yearly line in the combined table belongs to one of the requested years |
| MaStarRatings.YearLinesErr | data_visualization_scripts/ma_star_ratings_geographic.py:267-290 | once a year fails, the later years do not change the outcome: the combined table fails with that year's error |
| MaStarRatings.CalculateStateTrends | data_visualization_scripts/ma_star_ratings_geographic.py:258-335 | an empty year list fails with IndexError at the opening message (`years[0]`, line 263); otherwise the loop over the years builds exactly the combined yearly table (or its error), and the loop over the states builds the trend line of every state with at least two years, in order of first appearance; on an error no trend is computed |
| PostAcute.ConditionNameInjective | data_visualization_scripts/post_acute_care_coordination.py:48-56 | the seven index conditions have distinct names |
| PostAcute.DestinationCodeInjective | data_visualization_scripts/post_acute_care_coordination.py:38-45 | the six discharge settings have distinct codes |
| PostAcute.LeakNameInjective | data_visualization_scripts/post_acute_care_coordination.py:59-65 | the five leak categories have distinct names |
| Common.SumNormalize | data_visualization_scripts/post_acute_care_coordination.py:104-105 | dividing every weight by the total divides their sum by it |
| PostAcute.BaseProbs | data_visualization_scripts/post_acute_care_coordination.py:89-98 | each condition group's destination probabilities are six positive numbers that sum to 1 |
| PostAcute.DestinationProbs | data_visualization_scripts/post_acute_care_coordination.py:89-105 | a patient's destination mix has one probability per discharge setting |
| PostAcute.DestinationProbsDistribution | data_visualization_scripts/post_acute_care_coordination.py:89-107 | the destination mix is a probability distribution for every condition and age; past 85 the SNF share rises and the home share falls |
| PostAcute.MixIsDistribution | data_visualization_scripts/post_acute_care_coordination.py:89-98 | positive weights that sum to 1 are each between 0 and 1 |
| PostAcute.OldAgeMix | data_visualization_scripts/post_acute_care_coordination.py:100-105 | scaling SNF by 1.3 and home by 0.6 and renormalising gives a distribution with a larger SNF and a smaller home share |
| PostAcute.NormalizedIsDistribution | data_visualization_scripts/post_acute_care_coordination.py:103-105 | non-negative weights divided by their positive sum form a probability distribution |
| PostAcute.DaysToFirstVisit | data_visualization_scripts/post_acute_care_coordination.py:117-124 | a first visit is timed exactly for SNF, home health, IRF and LTCH; SNF is day 0; the others are the whole part of the draw, never negative |
| PostAcute.SnfNeverDelayed | data_visualization_scripts/post_acute_care_coordination.py:117-120 | a transfer to SNF is never a delayed first visit |
| PostAcute.FailuresRaiseRisk | data_visualization_scripts/post_acute_care_coordination.py:144-149 | each coordination failure can only raise the readmission risk, and the risk is unchanged exactly when the setting risk is zero or there is no failure |
| PostAcute.LeakOf | data_visualization_scripts/post_acute_care_coordination.py:157-166 | a leak type is assigned exactly to readmitted patients |
| PostAcute.LeakPriority | data_visualization_scripts/post_acute_care_coordination.py:157-166 | a readmission is blamed on a delayed visit first, then a missing medication reconciliation, then a missing handoff, and only otherwise on the drawn follow-up or early-discharge category |
| PostAcute.PatientIdInjective | data_visualization_scripts/post_acute_care_coordination.py:169 | distinct patient numbers get distinct zero-padded ids |
| PostAcute.DischargeOf | data_visualization_scripts/post_acute_care_coordination.py:84-181 | a discharge record has its id, condition and destination, a stay of at least one day, a readmission exactly when the draw is below the risk, a readmission day exactly when readmitted, and the leak type of the priority rule |
| PostAcute.DischargeConsistent | data_visualization_scripts/post_acute_care_coordination.py:117-166 | every generated record is consistent: a leak iff readmitted, a first visit iff post-acute, SNF at day 0, and a delayed-visit leak only after a delay past 7 days |
| PostAcute.GenerateDischarges | data_visualization_scripts/post_acute_care_coordination.py:71-183 | the loop produces one record per patient draw, record i being the discharge of patient i, and every record is consistent |
| PostAcute.LeakPct | data_visualization_scripts/post_acute_care_coordination.py:258-260 | a leak type's share of the counted readmissions is a percentage, missing exactly when nothing was counted |
| PostAcute.LeakTotalCons | data_visualization_scripts/post_acute_care_coordination.py:255-260 | a patient adds one to the leak counts exactly when readmitted with a leak type |
| PostAcute.LeakTotalIsReadmissions | data_visualization_scripts/post_acute_care_coordination.py:255-260 | the leak-type counts add up to the number of readmissions |
| PostAcute.LeaksAreReadmissions | data_visualization_scripts/post_acute_care_coordination.py:637-638 | the patients with a leak type are exactly the readmitted ones, so the caption's share of readmissions linked to coordination failures is all of them |
| PostAcute.DelayImpact | data_visualization_scripts/post_acute_care_coordination.py:263-268 | a delay group holds the timed first visits at one destination on one side of 7 days; its readmission rate is the share readmitted, between 0 and 1 |
| PostAcute.DelayGroupsArePostAcute | data_visualization_scripts/post_acute_care_coordination.py:263-268 | only post-acute settings form delay groups, and SNF never forms a delayed one |
| PostAcute.BucketOf | data_visualization_scripts/post_acute_care_coordination.py:411-415 | the delay categories are the half-open bins (-1, 3], (3, 7] and (7, 30]; days outside them get no category |
| PostAcute.BucketMatchesDelay | data_visualization_scripts/post_acute_care_coordination.py:411-415 | within 0 to 30 days every visit gets a category, and the ">7 days" category is exactly the delayed first visits |
| PostAcute.BucketMonotone | data_visualization_scripts/post_acute_care_coordination.py:411-415 | a later first visit never falls in an earlier category |
| PostAcute.Paths | data_visualization_scripts/post_acute_care_coordination.py:236 | the pathways are exactly the condition and destination pairs some patient took, each once |
| PostAcute.Ratio | data_visualization_scripts/post_acute_care_coordination.py:239 | a group's mean of a yes/no column: the share of yes among the group, between 0 and 1 |
| PostAcute.FlowOf | data_visualization_scripts/post_acute_care_coordination.py:236-243 | a pathway's flow carries its names, the number of patients on it and the share of them readmitted |
| PostAcute.Flows | data_visualization_scripts/post_acute_care_coordination.py:236-245 | one flow per pathway present, in pathway order |
| PostAcute.FlowBounds | data_visualization_scripts/post_acute_care_coordination.py:236-245 | every flow has at least one patient and a readmission rate between 0 and 1 |
| PostAcute.FlowsCover | data_visualization_scripts/post_acute_care_coordination.py:236-245 | a flow for a condition and destination exists exactly when some patient took that pathway |
| PostAcute.FlowNamesDisjoint | data_visualization_scripts/post_acute_care_coordination.py:283-288 | no condition name of a flow is also a destination name |
| PostAcute.NodeIndex | data_visualization_scripts/post_acute_care_coordination.py:288 | the node index of a listed name is a position holding that name |
| PostAcute.LinkColorBands | data_visualization_scripts/post_acute_care_coordination.py:299-304 | a link is red above a 20% readmission rate, orange above 15% up to 20%, and green otherwise |
| PostAcute.SankeyNodes | data_visualization_scripts/post_acute_care_coordination.py:283-286 | the Sankey nodes are exactly the flows' conditions and destinations |
| PostAcute.LinkStep | data_visualization_scripts/post_acute_care_coordination.py:290-304 | each flow's link runs from its condition's node, among the condition nodes, to its destination's node, with the flow's count and color |
| PostAcute.AppendLinks | data_visualization_scripts/post_acute_care_coordination.py:290-304 | the loop appends, for each flow in order, the node of its condition, the node of its destination, its count and its color |
| PostAcute.SankeyLinks | data_visualization_scripts/post_acute_care_coordination.py:282-306 | the nodes are the unique conditions then the unique destinations, and link k joins flow k's condition node to its destination node with its count and readmission color |
| Lodestar.Numbered | lodestar_output_figs.py:91-92 | the i-th synthesised entity has the given kind and the id prefix followed by i+1; a non-positive count gives an empty list |
| Lodestar.SynthRingIds | lodestar_output_figs.py:85-93 | the ring's DME and prescriber ids are pairwise distinct, the kind follows the id prefix ("DME_" gives DME, otherwise Prescriber), and the i-th DME's id reads back as the number i+1 |
| Lodestar.Normalize01 | lodestar_output_figs.py:76-80 | an empty input is an error (numpy's min of an empty array raises); a constant input maps to zeros; otherwise each value is scaled by its distance from the minimum over the range |
| Lodestar.Scale01Unit | lodestar_output_figs.py:80 | min-max scaling maps the range into [0, 1], the minimum to 0 and the maximum to 1, and keeps order |
| Lodestar.Normalize01Unit | lodestar_output_figs.py:76-80 | every scaled value is in [0, 1], the scaling preserves order, the minimum becomes 0 and, for a non-constant input, the maximum becomes 1 |
| Lodestar.SliceBound | lodestar_output_figs.py:177-178 | the cut point of `series[:m]`/`series[m:]` is within the series and equals m when 0 <= m <= length |
| Lodestar.CooSpikeScore | lodestar_output_figs.py:176-181 | the score is undefined exactly when the pre-change mean is (empty months) or when it is positive and the post-change mean is; a non-positive pre mean gives 0; otherwise post = pre * (1 + score), and the score is positive iff volume rose |
| Lodestar.Clipped | lodestar_output_figs.py:191 | each indicator value is clipped into [0, 1], in the indicators' order |
| Lodestar.WeightedRisk | lodestar_output_figs.py:189-198 | the result is an error iff an indicator has no weight (`KeyError`) or the weights sum to minus epsilon; otherwise each contribution is the clipped indicator times its normalised weight, labelled with the indicator's name, and the score is their dot product |
| Lodestar.SumProducts | lodestar_output_figs.py:195-196 | the sum of the element-wise products equals the dot product, so the score is the sum of the contributions |
| Lodestar.NormalizedWeightsBounds | lodestar_output_figs.py:192-193 | with non-negative weights the denominator is positive, every normalised weight is non-negative and they sum to less than 1 |
| Lodestar.RiskBounds | lodestar_output_figs.py:189-198 | with non-negative weights and every indicator weighted, scoring succeeds, the score lies in [0, 1) and each contribution lies between 0 and its normalised weight |
| Lodestar.RiskPercent | lodestar_output_figs.py:294 | the overall risk percent is an integer in [0, 100] within one half of 100 times the clipped score |
| Lodestar.Spaced | lodestar_output_figs.py:298 | the displayed reason has the same length as the name, keeps every other character and contains no underscore |
| Lodestar.TopWhy | lodestar_output_figs.py:297-298 | the reasons are the first min(4, n) names of the contributions sorted by decreasing value, with underscores shown as spaces |
| Lodestar.TopWhyDominates | lodestar_output_figs.py:297-298 | every contribution shown as a reason is at least as large as every contribution left out |
| Lodestar.Explanations | lodestar_output_figs.py:200-210 | scanning all ranked names gives no duplicates, at most one explanation per name, and exactly the catalog explanations of the names that have one |
| Lodestar.ExplanationsPrefix | lodestar_output_figs.py:203-206 | scanning more names only appends explanations, so earlier picks are never reordered or dropped |
| Lodestar.ChosenBounded | lodestar_output_figs.py:200-210 | the picks number at most k (at most one when k <= 0, since the stop test follows the append), have no duplicates and all come from the catalog |
| Lodestar.ExplanationsInRankOrder | lodestar_output_figs.py:202-206 | a newly picked explanation of a lower-ranked indicator comes after that of a higher-ranked one |
| Lodestar.ChosenInRankOrder | lodestar_output_figs.py:200-210 | among the k picks, a higher-ranked indicator's explanation precedes a lower-ranked one's |
| Lodestar.PickInOrder | lodestar_output_figs.py:203-210 | the loop with its early `break` returns exactly the first distinct catalog explanations of the ranked names, up to k |
| Lodestar.PickBenignExplanations | lodestar_output_figs.py:200-210 | the picks are those of the indicators sorted by decreasing value |
| Lodestar.LocRow | lodestar_output_figs.py:315 | locating an entity's row fails iff no row carries that entity, and otherwise yields a row of that entity |
| Lodestar.LinkCount | lodestar_output_figs.py:315-317 | the link count is at most the row length, strictly less when the entity's own column is present, and zero iff no other entity has a positive entry |
| Lodestar.LinkCountIgnoresSelf | lodestar_output_figs.py:316 | the entity's own cell never affects its link count |
| Lodestar.LinksTextRoundTrip | lodestar_output_figs.py:317 | the "N links" text reads back as N |
| Lodestar.EntitySummary | lodestar_output_figs.py:311-318 | the summary fails iff some signal frame lacks the entity; otherwise it has one cell per signal, in order, whose text reads back as the entity's link count there |
| Lodestar.SummarizeEntity | lodestar_output_figs.py:311-318 | the loop over the signal frames returns exactly the entity summary, stopping with `KeyError` at the first frame without the entity |
| HccDiabetesMap.Snaked | hcc_diabetes_map.py:40 | every character is lower-cased and a blank becomes an underscore, position by position |
| HccDiabetesMap.ColumnKey | hcc_diabetes_map.py:40 | a cleaned column name has no blank, no upper-case letter and no surrounding whitespace, and is no longer than the raw name |
| HccDiabetesMap.ColumnKeyFixed | hcc_diabetes_map.py:40 | a name already in clean form is left unchanged |
| HccDiabetesMap.ColumnKeyIdempotent | hcc_diabetes_map.py:40 | cleaning a cleaned name changes nothing |
| HccDiabetesMap.SnakedLower | hcc_diabetes_map.py:40 | lower-casing before the clean-up makes no difference |
| HccDiabetesMap.ColumnKeyIgnoresCase | hcc_diabetes_map.py:40 | two headers that differ only in letter case get the same column name |
| HccDiabetesMap.Keys | hcc_diabetes_map.py:40 | the cleaned header has one name per raw column, in order |
| HccDiabetesMap.ColumnIndex | hcc_diabetes_map.py:44-56 | a column is found iff the header has that name, and then at its first position |
| HccDiabetesMap.PrevalenceColumn | hcc_diabetes_map.py:43-48 | the age-adjusted column is taken when present, else the crude column; with neither the result is a ValueError |
| HccDiabetesMap.FipsCode | hcc_diabetes_map.py:51-52 | a county code survives iff its text has at most five characters, and then it is padded to exactly five |
| HccDiabetesMap.FipsCodeDigits | hcc_diabetes_map.py:51 | a code of one to five digits pads to five digits that spell the same number |
| HccDiabetesMap.MissingFipsKept | hcc_diabetes_map.py:51-52 | an empty county-code cell reads "nan", pads to "00nan" and is not dropped |
| HccDiabetesMap.RowCounty | hcc_diabetes_map.py:51-60 | a row is kept iff its padded code has five characters and its prevalence is numeric; it then carries the padded code, the row's name, state, coerced population and prevalence, and the year |
| HccDiabetesMap.LayoutOf | hcc_diabetes_map.py:43-56 | the clean-up fails iff there is no prevalence column (ValueError) or one of the kept columns is missing; otherwise each kept column is found under its name |
| HccDiabetesMap.PlacesCounties | hcc_diabetes_map.py:39-62 | the clean-up fails exactly when the columns do, and otherwise keeps at most one county per row |
| HccDiabetesMap.PlacesRowKept | hcc_diabetes_map.py:51-60 | a county is in the cleaned table iff some raw row yields it |
| HccDiabetesMap.PlacesCodesHaveFiveChars | hcc_diabetes_map.py:51-52 | every county left in the cleaned table has a five-character code |
| HccDiabetesMap.PlacesKeepsCleanRows | hcc_diabetes_map.py:51-60 | when every row has a short enough code and a numeric prevalence, no row is dropped |
| HccDiabetesMap.MapCounties | hcc_diabetes_map.py:107-109 | the map is built iff the clean-up succeeds with at least one county; an empty table stops with SystemExit |
| HccDiabetesMap.CaptionPoolChoice | hcc_diabetes_map.py:72-76 | when some county has more than 10000 people the caption ranks exactly those counties; when none does it ranks all of them; it ranks none only for an empty table |
| HccDiabetesMap.FormatCaption | hcc_diabetes_map.py:71-79 | both lists hold min(10, pool size) counties, the highest in decreasing and the lowest in increasing prevalence |
| HccDiabetesMap.CaptionFromPool | hcc_diabetes_map.py:78-79 | every listed county comes from the ranked pool |
| HccDiabetesMap.HighestDominates | hcc_diabetes_map.py:78 | no county left off the highest list has a higher prevalence than one on it |
| HccDiabetesMap.LowestDominated | hcc_diabetes_map.py:79 | no county left off the lowest list has a lower prevalence than one on it |
| HccDiabetesMap.SmallPoolListsAll | hcc_diabetes_map.py:78-79 | with at most ten counties in the pool, both lists hold every one of them |
| Sorting.SortDesc | em_coding_2019_to_2023.py:84 | `sort_values(..., ascending=False)`, `nlargest` and `sorted(..., reverse=True)`: the result is a permutation of the rows, ordered by key, largest first |
| Sorting.SortDescStable | hcc_diabetes_map.py:78 | rows with equal keys keep their input order through the descending sort |
| Sorting.SortAsc | hcc_diabetes_map.py:79 | `sort_values` and `nsmallest`: the result is a permutation of the rows, ordered by key, smallest first |
| Common.ZFill | discharge_planning/cms_watch.py:99 | `str.zfill`: a text at least as long as the width is unchanged; a shorter one is padded with zeros on the left to the width, after its sign when it has one |
| Common.ParseInt | nursing_home_dashboard/cms_api.py:139 | `int()` of text reads iff the stripped text is digits, or a sign followed by digits |
| Common.ParseDecimalNatStr | discharge_planning/change_of_ownership.py:44 | `float()` of the decimal spelling of a natural number is that number |
| Common.DecimalWithPoint | em_coding_2019_to_2023.py:41 | `float()` of digits, a point and digits is the digit string over ten to the power of the fraction's length |
| Common.DecimalWholePart | em_coding_2019_to_2023.py:41 | a decimal with a fraction lies between its whole part and the next integer |
| Common.Trunc | em_coding_2019_to_2023.py:42 | `astype(int)` truncates toward zero: the result has the sign of x and lies within 1 of it, on the side of zero |
| Common.TruncOfWhole | em_coding_2019_to_2023.py:42 | a non-negative value between n and n + 1 truncates to n |
| Common.RoundHalfEven | lodestar_output_figs.py:294 | `round()`: the nearest integer, and the even one of two equally near |

## Left out

- Network access (the Socrata fetchers), the parquet files and the JSON output are not modelled. The snapshot directories are an in-memory store (`SnapshotStore`). `load_snapshot` stores an empty table for a parquet file that fails to read (discharge_planning/cms_watch.py:221-228); the in-memory store cannot fail to read, so this per-file fallback is not modelled.
- Message texts, the dollar formatting of amounts and the `[:10]` date truncation are not modelled. An event carries its kind, severity and payload.
- Floating point is modelled as exact `real`, so binary rounding at thresholds is not modelled. For example, 4.0 to 3.6 does not fire the 10% HPRD rule in IEEE arithmetic.
- pandas representation quirks are not modelled: dtype coercion and NaN passing through `float()`. A missing cell is `None`. The penalty and deficiency keys compare field by field; only their date fields' text is modelled, in the as-written members of the Findings.
- `sort_values(...).iloc[-1]` is modelled with ties resolved to the last row in table order and missing keys sorted last. numpy's default sort is not guaranteed stable for large inputs.
- CmsWatch.DiffPenalties: the DPNA end date is modelled as a parsed timestamp; an unparsable end date is not modelled.
- CmsWatch.DiffPenalties: compares previous and current keys rendered the same way (the corrected rule, see Findings); the as-written comparison is CmsWatch.PenaltyEventsAsWritten.
- CmsWatch.DiffDeficiencies: compares previous and current keys rendered the same way (the corrected rule, see Findings); the as-written comparison is CmsWatch.DeficiencyEventsAsWritten.
- CmsWatch.UnchangedPenaltiesSilent: holds for the corrected key rule only; as written, dated penalties are reported again (CmsWatch.UnchangedPenaltiesReportedAsWritten).
- CmsWatch.UnchangedDeficienciesSilent: holds for the corrected key rule only; as written, dated deficiencies are reported again (CmsWatch.UnchangedDeficienciesReportedAsWritten).
- CmsWatch.KnownPenaltiesSilent and CmsWatch.KnownDeficienciesSilent: stated for the corrected key rule (see Findings).
- CmsWatch.PctChange, CmsWatch.HprdEvents and CmsWatch.StaffingChanges: the corrected HPRD rule (see Findings); the as-written rule is CmsWatch.HprdEventsAsWritten.
- CmsWatch.DiffProviderInfo: built on the corrected HPRD rule (see Findings).
- CmsWatch.HeaderFor: the corrected header for an empty provider table (see Findings); the as-written header is CmsWatch.HeaderAsWritten.
- CmsWatch.BuildChangelog, CmsWatch.BuildChangelogs, CmsWatch.ChangelogsFor and CmsWatch.ChangelogMapContents: compose the corrected key rule, HPRD rule and header (see Findings), so they describe the script as intended, not as written.
- CertLeakage.RateInRange: states the corrected rate over all claims of a category (see Findings); the as-written rate is CertLeakage.RateAsWrittenExceedsHundred.
- RatingTracker.StatsOf: the average is the exact mean, not `round(mean, 2)`.
- Ties in `sort_values` are modelled as a stable insertion order; pandas' default quicksort does not promise stability for rows with the same (ccn, month_year).
- RatingTracker.Recent: the cutoff ("now" minus `months * 30` days) is a calendar-date parameter. The clock and the time of day are not modelled.
- RatingTracker.ParseIsoDate: only `YYYY-MM-DD` dates are read. The other formats `pd.to_datetime` accepts are not modelled, and such a cell counts as unparsable.
- A missing provider_name, city or state column makes the source raise `KeyError` in `detect_changes`; the model reads such a cell as missing, and the text of the change shows it as "nan".
- Duplicate column names after the rename, and the history CSV's write and re-read (with its re-typing of cells), are not modelled. The history is an in-memory value.
- Exceptions caught and logged by `save_to_history`, the export of changes to CSV, e-mail and webhook alerts, the HTTP session and the metadata download are not modelled.
- RatingTracker.RatingStats and RatingTracker.CompareLatest take the rating list and the date-sorted group as parameters, so their loops are proved against the specification functions on those values.
- CmsApi.FilterBySearch: the term is matched as a literal substring. pandas `str.contains` reads it as a regular expression, so a term with regex metacharacters can match differently or raise, which falls back to the sample data.
- CmsApi.ParseRating and CmsApi.ProcessFacility: `int()` is modelled on optionally signed decimal digits with surrounding blanks; underscores between digits and non-ASCII digits are not read. `float()` is modelled on decimal literals with an optional exponent; "inf", "infinity", "nan" and underscores between digits are not read.
- Lower-casing is ASCII only; Unicode case mapping is not modelled.
- The HTTP requests, the JSON decoding and the printed messages are not modelled. The API's answers to the successive batches are a parameter (`responses`); a batch past the end of that sequence returns no results. An exception anywhere in the live path (a raised request, `int()` on a bad count) is a `Raised` answer or an error result, and both lead to the sample data.
- A text column whose values are all non-strings makes pandas' `.str` accessor raise, which falls back to the sample data; the model treats such cells as missing text instead.
- The clock (`datetime.now()`) is the `now` parameter, in whole seconds.
- CmsApi.LiveSearchFilters: the bound on the number of rows is stated for a non-negative limit. A negative limit makes `head` drop rows from the end, which CmsApi.Head states.
- CmsApi.CacheKeyFields: stated for a state text without '_'; a state holding '_' could make two searches share a key, which the lemma does not cover.
- The cached frame is shared with the caller in the source, so a caller that mutates it changes the cache; the model's rows are values.
- ChangeOfOwnership.CleanPct: `float()` is modelled on decimal literals with an optional exponent; "inf", "infinity", "nan" and underscores between digits are not read.
- The pivot's row order (pandas sorts by the index columns) and the summary's `groupby` order are not modelled. The pivot lists its rows in order of first appearance, and a facility's summary keeps the report's order.
- pivot_table drops pivot rows whose two months are both missing; the model drops them too (PivotCell). A month column missing throughout is dropped as well, and the flag step's `KeyError` that follows is ChangeOfOwnership.OwnershipReport.
- ChangeOfOwnership.NotApplicableReportedRemoved states the flagged pivot rows (OwnershipChanges) of its one-row files; on those files September has no percentage at all, so the script itself stops with `KeyError`, which the same lemma states.
- The printing of the report, the float formatting of the percentages and the CSV output are not modelled; a summary line carries the owner and the percentages.
- The Association Date column is read but unused by the report, and is not modelled.
- The Streamlit page itself (layout, tabs, map, charts, detail view, buttons and reruns) and the sort options are not modelled. The sort is a pandas `sort_values` whose order among ties is not promised.
- Dashboard.FilterBySidebarSearch: the search text is matched as a literal substring, while pandas reads it as a regular expression.
- A facility table without columns (a search that found no records) makes `filter_dataframe` raise `KeyError` as soon as a rating, ownership or size is chosen; the model's rows always have every column.
- The star characters are modelled as the code points BLACK STAR and WHITE STAR.
- CertLeakage: claim_share, leakage_index and the choice of the five hottest categories only rank and label the plots; the error mix is stated for any category.
- CertLeakage: the plots, and the composite panel at data_visualization_scripts/cert_leakage.py:261-270, which uses undefined names and would raise.
- CertLeakage: `str.lower()`/`str.upper()` are modelled on ASCII letters only; reading the CSV and the required-column check are I/O.
- CertFfs: `str.contains(..., case=False)` is a regular-expression search; the pattern "Disagree" has no special characters, so it is modelled as a substring test. Printing, the bar chart and the CSV export are I/O.
- The E/M complexity script reads its columns with `pd.to_numeric(errors="coerce")`; the model takes the service counts as numbers. Total beneficiaries and the allowed amount (`avg_allowed`) feed only the specialty table and the commented-out charts, and are not modelled.
- EmCoding: the specialty-level table, its top-8 specialties, the top-12 compared specialties by provider count, and the specialty means and 75th percentiles are not modelled. The compared specialties and the medians are parameters.
- EmCoding.KeepAlnum: `str.isalnum` is modelled on ASCII letters and digits; other Unicode letters and digits are dropped.
- EmCoding.NormalizeHcpcs: `astype(str)` of a missing code gives "nan", which never maps to a complexity; the model's codes are strings.
- The heatmap, violin, strip and dumbbell plots, the printed lists and the commented-out charts of both E/M scripts are not modelled.
- EmShift.ParseServices: the missing-value spellings `read_csv` turns into NaN ("", "NA", "null" and others) are the `None` cell, and a "nan" text is read as NaN. `float()` is modelled on decimal literals with an optional exponent; "inf", "infinity" and underscores between digits are not read and count as unreadable.
- EmShift.YearSummaries: the summaries follow the order in which their pairs first appear, while `groupby` sorts them by key; the pooled sums and shares do not depend on that order.
- EmShift.SpecialtyChart: the table is stated per specialty (SpecialtyTableRows) and by its ranking; the dumbbell plot drawn from it is not modelled.
- EmShift.ShareOf: a zero total with a non-zero high count (possible only with negative counts) is an infinite share in pandas; the model gives None for every zero total.
- EmShift: rows whose specialty or state is missing are dropped by `groupby`; the model's rows always carry both.
- EmShift.Shifts: the pivot's row order (sorted by key in pandas) follows the order of the given keys; ties in `sort_values` are broken by the stable sort, which pandas' default quicksort does not promise.
- MaStarRatings: the synthetic data generators' random draws (base ratings, trends, county and plan counts, enrollments, contract ids) are not modelled. A stable plan's jitter is a parameter of `Trajectory`, and the county index is a parameter of `CountyFips`.
- MaStarRatings.TrendOf: the annual slope from `np.polyfit` is not modelled; only the first-to-last change and what is derived from it are.
- MaStarRatings: `groupby` lists its groups sorted by key and `unique` in order of appearance; the model lists counties and states in order of first appearance.
- MaStarRatings: enrollments are whole numbers; sums of enrollment are exact `real`, and NaN from a mean or a ratio over nothing is `None`.
- MaStarRatings: the GeoJSON downloads, the maps, the dashboard and its top-improver lists, hover text, the printed desert report and the state FIPS table are not modelled.
- MaStarRatings.DesertAnalysis: the largest-deserts sort and the `affected_beneficiaries` copy only feed the printed report and are not modelled.
- PostAcute: the random draws of the generator (condition, age, comorbidity, destination, gamma and uniform draws, SNF quality modifier, the follow-up category) are the fields of a `Draw` parameter; the seeds and distributions are not modelled.
- PostAcute.DischargeOf: the stay and the readmission day are the whole parts of their draws; the draw ranges (gamma, `uniform(1, 30)`) are not modelled.
- PostAcute: probabilities and rates are exact `real`, so float rounding in the renormalisation and the risk products is not modelled.
- PostAcute: `groupby` lists its groups sorted by key; the model lists pathways in order of first appearance.
- PostAcute: `value_counts` sorts the leak types by count; the model gives each type's count and share without the ordering.
- PostAcute: the SNF quality table and its polyfit, the heatmap, the dashboard panels (including its 20-patient filter), the caption text and the PNG, HTML and CSV exports are not modelled.
- The Lodestar card's numpy floats are modelled as exact `real`; `softmax`, the entropy in `sku_narrowing_score` and the velocity proxy are floating-point numerics and are not modelled.
- The Lodestar card's random synthesis of claims, SKU mix, shared-signal matrices and the beta-distributed new-identity proxy is not modelled; the indicators are a parameter.
- The Lodestar `shared_signal_strength` (the mean of the upper triangle of each matrix) is not modelled; its values enter as indicators.
- The Lodestar plots, the output directory, the summary-card text and the roster table are not modelled; the roster's per-entity cells are `EntitySummary`.
- Lodestar.LocRow: a frame with several rows for one entity is read as its first such row; pandas `loc` would return a sub-frame there.
- Lodestar.WeightedRisk: a weight sum of exactly minus epsilon divides by zero and gives NaN or infinity in numpy; the model returns an error there instead.
- Lodestar.ChosenInRankOrder: stated for k >= 1; for k <= 0 only one explanation is picked and there is no order to state.
- Lodestar.Normalize01: numpy raises on an empty array; the model returns an error.
- The county map's download from CDC PLACES, the GeoJSON download, the choropleth, the HTML and PNG files and the printed caption are not modelled; the downloaded CSV is the `Table` parameter.
- HccDiabetesMap.RowCounty: a cell's text stands for pandas' `str()` of the value `read_csv` inferred. A county-code column that pandas reads as floats (one with an empty cell) prints as "1001.0" and is dropped by the length test; that dtype inference is not modelled.
- HccDiabetesMap.Numeric: `pd.to_numeric` is modelled on decimal literals; the other spellings pandas accepts are not read.
- HccDiabetesMap.ColumnIndex: a header with a repeated column name makes pandas return several columns; the model takes the first.
- HccDiabetesMap.FormatCaption: the caption text, its `.1f` percentages, the thousands separator and the national median are not modelled; the caption is its two county lists. `nlargest`/`nsmallest` ties are modelled in table order.
- The hover text and the 5th/95th percentile colour range of the county map are floating-point display details and are not modelled.

## Findings

| source | as written | input that shows it | evidently intended | confidence | as-written member | corrected member |
|---|---|---|---|---|---|---|
| discharge_planning/cms_watch.py:250-295 | the previous snapshot's keys are joined from `astype(str)` columns, which render a parsed date as `2024-01-05`, while each current row's key is joined from `str()` of the Timestamp, `2024-01-05 00:00:00`; a dated row never matches its own previous key | a penalty or deficiency table with dated rows compared with an identical previous snapshot: every positive CMP and every deficiency is reported again | a row already present in the previous snapshot is not reported | not executed | CmsWatch.UnchangedPenaltiesReportedAsWritten, CmsWatch.UnchangedDeficienciesReportedAsWritten | CmsWatch.UnchangedPenaltiesSilent, CmsWatch.UnchangedDeficienciesSilent |
| discharge_planning/cms_watch.py:343-356 | `a not in (None, 0, pd.NA, pd.NaT)` compares a non-zero float with `pd.NA`; the truth value of `pd.NA` raises `TypeError`, the handler returns `math.inf`, and the HPRD-drop test `chg <= -0.10` is never true | total nurse HPRD 4.0 in the previous snapshot, 3.0 in the current one: no staffing warning | warn when HPRD fell by at least 10% | not executed | CmsWatch.HprdDropMissedExample | CmsWatch.HprdDropThreshold |
| discharge_planning/cms_watch.py:496 | `provider.get("ccn","")` on the empty provider table of a pull that returned no rows yields the string `""`, and `"".astype(str)` raises `AttributeError`, so the changelog build stops | a run whose provider-information fetch returns no rows | the header falls back to the CCN with no name, city or state, as the `if not p.empty` branch intends | not executed | CmsWatch.HeaderCrashesOnEmptyProviderTable | CmsWatch.HeaderFor |
| data_visualization_scripts/cert_leakage.py:143-149 | `total_claims` counts the non-missing claim control numbers, while `disagreed_claims` sums the flag over every row of the category | two disagreed claims in one category, one of them without a control number: disagreement rate 200% | the rate over all claims of the category, at most 100% | medium, not executed | CertLeakage.RateAsWrittenExceedsHundred | CertLeakage.RateInRange |
| cert_ffs_analysis.py:54-61 | the same count as denominator, without the clip to 1 | a category whose claims all lack a control number: division by zero, an infinite rate | a finite percentage over all claims of the category | medium, not executed | CertFfs.FfsRateDividesByZero | CertLeakage.RateInRange |
