# Record linkage of access-to-information requests and proactive disclosures, in Dafny

This project models the core of a small data pipeline that links Canadian federal
access-to-information records:

- `BN/build_db.py` downloads three open-data tables:
  - A: tracking numbers per organisation;
  - B: completed requests with an informal-request count and unique identifiers;
  - C: request summaries.

  It then:
  1. aggregates B per (organisation, request number);
  2. left-joins C onto the aggregate;
  3. fuzzy-matches every A tracking number as a literal substring of the lower-cased C summaries, 400 candidates at a time, per organisation;
  4. splits placeholder tracking numbers ("weak" ones such as `NA` or `[REDACTED]`) from real ones;
  5. attaches DocumentCloud links, first by request number and then by tracking number;
  6. rolls the results up per organisation.

  The DocumentCloud table itself has four parts:
  - it is read from the previous database as a cache;
  - it is refreshed over month windows (backfill) or a recent look-back (incremental);
  - duplicate keys are resolved so that the last occurrence wins;
  - it falls back to the cache when credentials, the API or the search fail.
- `BN/build_page.py` injects the loader script into the page template.
- `VALIDATION/scripts/build_site.py` provides the report helpers:
  - slugify;
  - unwrapping reports that were JSON-encoded several times;
  - table lookup that accepts both `-` and `_` spellings;
  - metric aggregation;
  - language blocks.
- `VALIDATION/scripts/enrich_validation.py` builds a resource index from the open-data dump and keeps only the validation rows whose resource is indexed and active.

State and failure are modelled explicitly:
- Operations that loop in the source are methods proved equal to a specification function: the month-window generator, the matcher, the DocumentCloud fetch, the report unwrapping, the metric aggregation, the resource index and the keep/drop loop.
- Everything else is a function with lemmas.
- Exceptions the scripts raise or swallow are `Option`/`Result` values:
  - a missing column;
  - an unparsable integer or date;
  - a failed search;
  - a value that is not a dict;
  - an unhashable key.
- The network, the clock, the environment, the JSON decoder and the DocumentCloud client are parameters.

Modules, one per file:
- `Wrappers`, `Text`, `Seqs`, `Sorting` and `Json` hold shared helpers: Python's strip/lower/int/str, `sorted(set())`, `drop_duplicates`, `dict(pairs)`, truthiness and `or`.
- `Dates`, `Tables`, `Aggregate`, `Merge`, `Matcher`, `Classify`, `DocCloud`, `Enrichment`, `Stats` and `Pipeline` model `build_db.py`.
- `Site` models `build_site.py`.
- `Page` models `build_page.py`.
- `ValidationEnrich` models `enrich_validation.py`.

## Model

| member | source | states |
|---|---|---|
| Aggregate.TrimmedIds | BN/build_db.py:76 | every identifier kept is non-empty |
| Aggregate.TrimmedIdsElements | BN/build_db.py:76 | an identifier is kept exactly when it is non-empty and the strip of some input value |
| Aggregate.IdentifierListSpec | BN/build_db.py:76-77 | the identifier list is strictly ascending and holds exactly the stripped non-empty values |
| Aggregate.AggUniqueIdentifiersSpec | BN/build_db.py:75-77 | the result is "" or the "; "-join of the sorted distinct identifiers, and it is "" exactly when every value strips to "" |
| Aggregate.AggUniqueIdentifiersOrderFree | BN/build_db.py:75-77 | the result depends only on the set of input values, not their order or repetition |
| Aggregate.Keys | BN/build_db.py:282 | one (owner_org, Request Number) key per row, and the keys are exactly those of the rows |
| Aggregate.GroupIds | BN/build_db.py:283 | the identifiers of a group are exactly the unique identifiers of the rows with that key |
| Aggregate.AggregateBGroups | BN/build_db.py:281-286 | the aggregate has one row per distinct key, strictly ordered by (owner, request), and a key appears exactly when some B row has it |
| Aggregate.AggregateBTotal | BN/build_db.py:280-285 | the informal-request sums over the aggregate add up to the metric summed over all B rows |
| Aggregate.SumOfAggregates | BN/build_db.py:283 | summing the group rows equals the keyed total over the keys |
| Aggregate.AggregateBOrderFree | BN/build_db.py:281-286 | permuting the B rows does not change the aggregate |
| Classify.WeakBnValuesLowered | BN/build_db.py:42 | the weak set is the lower-casing of the nine listed tokens |
| Classify.IsWeakZero | BN/build_db.py:85-87 | "0" is weak |
| Classify.IsWeakPadded | BN/build_db.py:85-87 | surrounding blanks do not change whether a value is weak |
| Classify.IsWeakMixedCase | BN/build_db.py:85-87 | "[Redacted]" is weak: the comparison ignores case |
| Classify.IsWeakRealNumber | BN/build_db.py:85-87 | a real tracking number such as "abc-123" is not weak |
| Classify.SplitPartition | BN/build_db.py:374-375 | the weak and strong rows partition the matches: membership by is_weak, multisets add up, sizes add up |
| Dates.DaysInMonth | BN/build_db.py:94 | a month has 28 to 31 days |
| Dates.NextDay | BN/build_db.py:109 | date + 1 day is a valid, strictly later date |
| Dates.PrevDay | BN/build_db.py:105 | date - 1 day is a valid, strictly earlier date |
| Dates.NextOfPrev | BN/build_db.py:105-109 | adding one day undoes subtracting one day |
| Dates.PrevOfNext | BN/build_db.py:105-109 | subtracting one day undoes adding one day |
| Dates.NextDayIsSuccessor | BN/build_db.py:109 | the day after a date that is before b is not after b |
| Dates.SubDays | BN/build_db.py:210 | today - n days is valid and strictly earlier when n > 0 |
| Dates.OrdinalPrev | BN/build_db.py:105 | date.toordinal() of the previous day is one less |
| Dates.OrdinalNext | BN/build_db.py:109 | date.toordinal() of the next day is one more |
| Dates.OrdinalOrder | BN/build_db.py:104-109 | one date is before another exactly when its ordinal is smaller, and two dates are equal exactly when their ordinals are |
| Dates.SubDaysOrdinal | BN/build_db.py:210 | today - timedelta(days=n) is exactly n days earlier: its ordinal is today's minus n |
| Dates.AddMonths | BN/build_db.py:90-95 | the month index moves by exactly `months`, and the day is kept or clamped to the month's last day |
| Dates.AddMonthsLater | BN/build_db.py:90-95 | adding at least one month gives a strictly later date |
| Dates.WindowEnd | BN/build_db.py:105-107 | a window's end is at or after its start and at or before end_date |
| Dates.MonthWindowsStart | BN/build_db.py:98-109 | there are no windows exactly when end < start, and the first window starts at start |
| Dates.MonthWindowsEach | BN/build_db.py:98-109 | every window lies inside [start, end] and ends one day before start + months, or at end |
| Dates.MonthWindowsContiguous | BN/build_db.py:98-109 | each window starts the day after the previous one ends, and the last one ends at end |
| Dates.IterMonthWindows | BN/build_db.py:98-109 | the cursor loop yields exactly the specified windows |
| Tables.MissingColumns | BN/build_db.py:275 | a column is reported missing exactly when it is needed and absent |
| Tables.ReadB | BN/build_db.py:273-277 | B fails exactly when a needed column is absent, naming the missing columns; otherwise row i holds CSV row i's owner_org, Request Number, Number of Informal Requests and Unique Identifier cells |
| Tables.ReadC | BN/build_db.py:292-296 | one row per CSV row; row i holds CSV row i's owner_org, request_number, summary_en and summary_fr cells, an absent summary column reading as "" |
| Tables.ReadA | BN/build_db.py:312-316 | A fails exactly when a needed column is absent, naming them; otherwise row i holds CSV row i's owner_org and tracking_number cells |
| Tables.ToNumeric | BN/build_db.py:280 | a blank cell never converts |
| Tables.MetricOfIntToString | BN/build_db.py:280 | an integer written out converts back to itself |
| Tables.MetricOfText | BN/build_db.py:280 | text without digits coerces to 0 |
| Tables.MetricOfPadded | BN/build_db.py:280 | a padded digit string converts to its value |
| Merge.MatchingAggs | BN/build_db.py:298-302 | the aggregate rows a C row meets are exactly those with its owner and lower-cased request number |
| Merge.JoinRows | BN/build_db.py:298-305 | one joined row per matching aggregate, in order |
| Merge.LeftJoinSize | BN/build_db.py:298-302 | the join has as many rows as the per-row fan-outs add up to, and never fewer than C |
| Merge.LeftJoinSound | BN/build_db.py:298-307 | every joined row comes from a C row and a matching aggregate, or from no aggregate |
| Merge.LeftJoinComplete | BN/build_db.py:298-305 | every matching (C row, aggregate) pair is joined, and an unmatched C row is kept with blanks |
| Merge.LeftJoinMultiplies | BN/build_db.py:282-302 | two B groups that differ only in request-number case both meet one C row, which is repeated |
| Matcher.ChunksFlatten | BN/build_db.py:80-82 | the chunks concatenate back to the list |
| Matcher.ChunksSizes | BN/build_db.py:80-82 | every chunk has 1..size items and all but the last have exactly size |
| Matcher.PairsOf | BN/build_db.py:325-329 | the lookup pairs are exactly (lower(tn), tn) of the organisation's A rows |
| Matcher.Candidates | BN/build_db.py:342 | the candidates are exactly the non-empty lower-cased tracking numbers |
| Matcher.ScanFrom | BN/build_db.py:354 | the hit is at the leftmost position where any candidate occurs, and is the first candidate occurring there |
| Matcher.Extract | BN/build_db.py:350-354 | a hit is a candidate occurring in the haystack, and there is none exactly when no candidate occurs |
| Matcher.ExtractPrefersEarlierCandidate | BN/build_db.py:348-354 | at the same position the earlier alternative wins |
| Matcher.ChunkMatchesSound | BN/build_db.py:347-359 | every match of a chunk is a BC row whose haystack contains a chunk candidate |
| Matcher.ChunkMatchesHit | BN/build_db.py:347-359 | a BC row containing a chunk candidate produces a match |
| Matcher.AOwners | BN/build_db.py:322 | exactly the organisations of A |
| Matcher.BlocksForSound | BN/build_db.py:346-359 | the matched blocks only hold rows explained by a contained candidate |
| Matcher.BlocksForComplete | BN/build_db.py:346-359 | every row containing a candidate of some chunk is in the blocks |
| Matcher.OrgsMember | BN/build_db.py:322 | an organisation is searched exactly when it occurs in both A and BC |
| Matcher.OrgMatchesSound | BN/build_db.py:324-361 | an organisation's matches belong to it and are explained by A and BC rows |
| Matcher.OrgMatchesComplete | BN/build_db.py:324-361 | a BC row whose haystack contains an A tracking number of the same organisation is matched |
| Matcher.MatchesForSound | BN/build_db.py:321-361 | all matches belong to searched organisations and are explained |
| Matcher.MatchesForComplete | BN/build_db.py:321-361 | the matches of each searched organisation are all kept |
| Matcher.FuzzyMatchSound | BN/build_db.py:320-364 | the output has no duplicates, every row is explained, and its organisation occurs in A and BC |
| Matcher.FuzzyMatchComplete | BN/build_db.py:320-364 | every (A row, BC row) pair of one organisation whose haystack contains the tracking number yields an output row |
| Matcher.MatchOrganisation | BN/build_db.py:324-361 | the chunk loop's blocks concatenate to the organisation's specified matches |
| Matcher.FuzzyMatch | BN/build_db.py:320-364 | the organisation loop followed by drop_duplicates gives the specified deduplicated matches |
| DocCloud.Sanitize | BN/build_db.py:116-127 | an empty frame gives no rows, otherwise one per row, in order; in each row an absent column or a null gives "" (0 for the flag), text is kept, an integer is written out, and a text flag is coerced as pd.to_numeric(errors="coerce").fillna(0) |
| DocCloud.SanitizeToFrame | BN/build_db.py:116-127 | sanitising an already clean table changes nothing |
| Text.StripCharStart | BN/build_db.py:163 | lstrip of one character, shared by SQL TRIM (spaces) and strip("-"): the leading copies, and only they, are removed |
| Text.StripCharEnd | VALIDATION/scripts/build_site.py:20 | rstrip of one character, shared by strip("-") and SQL TRIM (spaces): the trailing copies, and only they, are removed |
| DocCloud.SqlTrim | BN/build_db.py:163 | SQL TRIM gives the slice of the text between its leading and trailing spaces, and the result neither starts nor ends with a space |
| DocCloud.LegacyCacheUrls | BN/build_db.py:157-167 | rows read from an older strong_matches table all have a URL |
| DocCloud.ReadEnvIntSpec | BN/build_db.py:130-138 | an integer written out is read back; an unset setting and every setting int() rejects give the default; every setting int() accepts gives its value |
| DocCloud.IsoFormat | BN/build_db.py:185 | isoformat writes ten characters |
| DocCloud.ParseIsoDate | BN/build_db.py:187 | fromisoformat only yields valid dates in years 1..9999 |
| DocCloud.ParseIsoFormat | BN/build_db.py:185-187 | fromisoformat(isoformat(d)) == d |
| DocCloud.PadDigitsValue | BN/build_db.py:185 | zero-padded digits read back as the number |
| DocCloud.BackfillSince | BN/build_db.py:185-190 | the backfill start is a valid date in years 1..9999: a setting fromisoformat accepts is used as parsed, and an unset or rejected one gives 2021-01-01 |
| DocCloud.BackfillSinceDefault | BN/build_db.py:185-190 | unset, or set to the default's isoformat, it is 2021-01-01 |
| DocCloud.Lookback | BN/build_db.py:210 | the look-back is max(1, incremental_days): at least 1 and at least the setting, and equal to one of them |
| DocCloud.IncrementalWindow | BN/build_db.py:209-219 | incremental and unknown modes query the one window [start, today] whose start is exactly max(1, days) days before today by ordinal; a start before year 1 means no window |
| DocCloud.WindowsOverflow | BN/build_db.py:206-219 | outside backfill, a look-back reaching before 0001-01-01 leaves no window to query |
| DocCloud.NoWindowsCache | BN/build_db.py:206-262 | with no window to query, the table is the cache |
| DocCloud.OverflowFallback | BN/build_db.py:209-262 | outside backfill, a look-back before 0001-01-01 (OverflowError, caught by the same handler) returns the cache |
| DocCloud.BackfillWindows | BN/build_db.py:206-208 | backfill queries the 3-month windows from the backfill start to today |
| DocCloud.MetaText | BN/build_db.py:229-233 | str(data.get(key, "")): "" when absent, "None" for null, text as is, an integer written out |
| DocCloud.RecordOf | BN/build_db.py:228-236 | the flag is 1 exactly when the document has a non-empty canonical URL, else 0; owner, request and tracking are the stripped str() of the metadata values; a URL is stripped |
| DocCloud.RecordOfNoUrl | BN/build_db.py:234-235 | a document without a canonical URL gets the URL text "None" and flag 0 |
| DocCloud.RecordOfTrimmed | BN/build_db.py:231-234 | every text field of a record is stripped |
| DocCloud.Records | BN/build_db.py:227-238 | one record per document, in order |
| DocCloud.SanitizeRecords | BN/build_db.py:243 | sanitising the fetched records keeps them unchanged |
| DocCloud.KeepLast | BN/build_db.py:249-252 | drop_duplicates(keep="last") keeps a subsequence of the rows: their relative order is preserved |
| DocCloud.KeepLastUnique | BN/build_db.py:249-252 | no two kept rows share a key |
| DocCloud.KeepLastKeeps | BN/build_db.py:249-252 | the last row of every key is kept |
| DocCloud.KeepLastOnlyLast | BN/build_db.py:249-252 | only the last row of a key is kept |
| DocCloud.KeepLastKeys | BN/build_db.py:249-252 | every key of the input survives |
| DocCloud.FetchedWins | BN/build_db.py:248-252 | a key that was fetched is represented by a fetched row, not a cached one |
| DocCloud.FetchedKept | BN/build_db.py:248-252 | the last fetched row of each key is kept |
| DocCloud.CacheFallbacks | BN/build_db.py:192-262 | missing credentials, a failed login, cache-only mode, a failed search and an empty fetch all return the cache |
| DocCloud.MergedTable | BN/build_db.py:243-259 | otherwise the table is cache + fetched with the last row of each key kept, fetched rows winning |
| DocCloud.FetchAllFound | BN/build_db.py:221-240 | a successful window appends its records |
| DocCloud.FetchAllFailed | BN/build_db.py:221-241 | a failing window makes the whole fetch fail |
| DocCloud.ChooseWindows | BN/build_db.py:206-219 | the mode dispatch chooses the specified windows |
| DocCloud.AppendRecords | BN/build_db.py:227-238 | the document loop appends exactly the records of the documents |
| DocCloud.FetchWindows | BN/build_db.py:221-241 | the window loop returns the specified fetch result |
| DocCloud.FetchDocCloudTable | BN/build_db.py:176-262 | fetch_doccloud_table returns the specified table |
| Enrichment.ByRequest | BN/build_db.py:386-390 | the DocumentCloud rows met are exactly those with the row's owner and request number |
| Enrichment.ByTracking | BN/build_db.py:395-401 | the fallback rows met are exactly those with the row's owner and tracking number |
| Enrichment.Attach | BN/build_db.py:386-390 | a left-join row is kept once with no link when nothing matches, otherwise repeated once per match, the i-th copy carrying the i-th match's URL and flag |
| Enrichment.EnrichEmptyDc | BN/build_db.py:412-414 | with no DocumentCloud rows every strong row gets URL "" and flag 0 |
| Enrichment.PrimaryJoinSound | BN/build_db.py:386-390 | the first join keeps every row and links only by owner and request number |
| Enrichment.PrimaryJoinComplete | BN/build_db.py:386-390 | every strong row appears; one with no request match appears unlinked; and it appears linked to each DocumentCloud row with its owner and request number |
| Enrichment.BlankRequestJoins | BN/build_db.py:386-390 | a DocumentCloud row with no request_number in its metadata ("") still links to every strong row of its organisation whose request number is blank |
| Enrichment.FallbackJoinSound | BN/build_db.py:392-408 | every fallback row comes from a first-join row |
| Enrichment.FinalizeExplained | BN/build_db.py:402-411 | a final link is either blank or justified by a request or tracking match |
| Enrichment.EnrichSound | BN/build_db.py:378-414 | every enriched row is a strong row with a justified link |
| Enrichment.FallbackJoinAligned | BN/build_db.py:396-407 | with at most one tracking match per row, the fallback keeps rows aligned one to one |
| Enrichment.EnrichFillsOnlyBlanks | BN/build_db.py:392-411 | the fallback fills only rows the first join left blank; other links are unchanged |
| Stats.Owners | BN/build_db.py:421 | the groups are exactly the organisations of the strong rows |
| Stats.StatsForTotals | BN/build_db.py:420-429 | each statistic column sums to the keyed totals of the strong rows |
| Stats.OrgStatsTotals | BN/build_db.py:419-429 | strong counts add up to the number of strong rows, and the open-by-default and informal sums to the row sums |
| Stats.OrgStatsShape | BN/build_db.py:419-429 | one row per organisation in ascending order, with unique counts never above the strong count |
| Stats.TokenCountsTotal | BN/build_db.py:455-464 | the token counts add up to the keyed totals over the tokens |
| Stats.WeakTokensDistinct | BN/build_db.py:442 | the nine token columns are distinct |
| Stats.WeakStatTotal | BN/build_db.py:454-465 | nine counts whose sum is the total, never above the organisation's weak rows |
| Stats.NaNotToken | BN/build_db.py:442 | "Na" is not one of the token columns |
| Stats.TokenCountsOther | BN/build_db.py:455-463 | a value outside the token list is counted in no column |
| Stats.WeakStatExactCase | BN/build_db.py:455-464 | a weak row "Na" (weak because the test is case-insensitive) adds 0 to weak_stats |
| Pipeline.BuildSchemaErrors | BN/build_db.py:273-317 | a missing B column fails first, then a missing A column; the build succeeds exactly when both have their columns |
| Pipeline.BuildSound | BN/build_db.py:268-429 | strong rows are explained, not weak and justified; weak rows are explained and weak; strong counts add up |
| Pipeline.BuildDatabase | BN/build_db.py:268-470 | main computes the specified database from the tables and the DocumentCloud table |
| Sorting.SortedDistinctCorrect | BN/build_db.py:77 | sorted(set(xs)) is strictly ascending with exactly the elements of xs |
| Sorting.SortedUnique | BN/build_db.py:77 | two strictly sorted lists with the same elements are equal |
| Sorting.SortedDistinctDependsOnElements | BN/build_db.py:77 | sorted(set(xs)) depends only on the elements |
| Sorting.StrLessIsStrictTotalOrder | BN/build_db.py:77 | Python's string order is a strict total order |
| Text.ParseIntOfIntToString | BN/build_db.py:135 | int(str(n)) == n |
| Text.RFind | BN/build_page.py:21 | rfind finds the last occurrence, and none exactly when there is no occurrence |
| Text.SplitOnJoin | BN/build_page.py:19 | the pieces between the occurrences join back to the text |
| Seqs.Distinct | BN/build_db.py:364 | drop_duplicates: no duplicates, and the same elements |
| Seqs.IndexOf | BN/build_db.py:364 | the position of the first occurrence of an element |
| Seqs.DistinctOrder | BN/build_db.py:364 | drop_duplicates keeps first occurrences in input order: kept elements are ordered by their first positions |
| Seqs.DictOf | BN/build_db.py:333 | dict(pairs) has exactly the keys of the pairs, each with a value from a pair |
| Seqs.DictOfLastWins | VALIDATION/scripts/enrich_validation.py:113 | the value of a key is the one of its last pair |
| Seqs.FirstIndex | VALIDATION/scripts/build_site.py:35-38 | the loop returns at the first element that passes, and none exactly when none passes |
| Json.Or | VALIDATION/scripts/enrich_validation.py:44 | `a or b` is a when a is truthy and b otherwise, so it is truthy exactly when either is |
| Site.Slugify | VALIDATION/scripts/build_site.py:19-20 | a slug is non-empty, only letters, digits, `_` and `-`, and neither starts nor ends with `-` |
| Site.Collapse | VALIDATION/scripts/build_site.py:20 | the substitution leaves only slug characters |
| Site.CollapseFromWords | VALIDATION/scripts/build_site.py:20 | the substitution keeps every letter, digit and `_`, in order |
| Site.StripDashWords | VALIDATION/scripts/build_site.py:20 | strip("-") keeps every letter, digit and `_` |
| Site.StripDashShape | VALIDATION/scripts/build_site.py:20 | strip("-") leaves no dash at either end |
| Site.DashesOnly | VALIDATION/scripts/build_site.py:20 | a run of dashes strips to "" |
| Site.SlugifyWords | VALIDATION/scripts/build_site.py:19-20 | with no letter, digit or `_` the slug is "report", otherwise it keeps exactly those characters in order |
| Site.SlugifyOfSlug | VALIDATION/scripts/build_site.py:19-20 | a well-formed slug is its own slug |
| Site.SlugifyIdempotent | VALIDATION/scripts/build_site.py:19-20 | slugify(slugify(s)) == slugify(s) |
| Site.Decoded | VALIDATION/scripts/build_site.py:22-31 | at most three strings are decoded, and all but the last decode |
| Site.UnwrapReports | VALIDATION/scripts/build_site.py:22-31 | the unwrapping loop returns the specified reports |
| Site.UnwrapUsesDecoded | VALIDATION/scripts/build_site.py:24-30 | the unwrapping depends only on how the decoded strings decode |
| Site.ParseReportsDecodes | VALIDATION/scripts/build_site.py:22-31 | at most three layers are decoded, and the result depends only on them |
| Site.ParseReportsOfDict | VALIDATION/scripts/build_site.py:25-31 | a dict is returned as it is, with nothing decoded |
| Site.ParseReportsRejected | VALIDATION/scripts/build_site.py:26-31 | an undecodable string gives {} |
| Site.FirstExisting | VALIDATION/scripts/build_site.py:33-39 | the key returned holds a dict, no earlier key does, and none is returned exactly when no key holds a dict |
| Site.GetTables | VALIDATION/scripts/build_site.py:41-48 | the language block's tables when it is a dict, otherwise the top-level tables, [] where not a list |
| Site.GetTablesBlockOnly | VALIDATION/scripts/build_site.py:43-45 | with a language block, the rest of the report is ignored |
| Site.ReplaceChar | VALIDATION/scripts/build_site.py:57 | a single-character replace changes exactly that character |
| Site.SwappedTwice | VALIDATION/scripts/build_site.py:57 | swapping `-`/`_` twice gives the key back when it does not mix them |
| Site.NormGet | VALIDATION/scripts/build_site.py:50-60 | the first exact key wins; swapped spellings only when no exact key exists; none exactly when no spelling exists |
| Site.CountValue | VALIDATION/scripts/build_site.py:75-76 | int(x or 0): a falsy count is 0, an integer is itself, True is 1, a non-empty string is what int() parses (None where it raises), and a non-empty list or dict raises |
| Site.AggregateTableMetrics | VALIDATION/scripts/build_site.py:62-86 | the specified aggregate; no tables gives (0, 0, unknown) |
| Site.AggregateLoop | VALIDATION/scripts/build_site.py:70-86 | the loop with its four accumulators computes the specified fold |
| Site.AggregateFails | VALIDATION/scripts/build_site.py:74-77 | the aggregation raises exactly when some table's counts do |
| Site.AggregateSums | VALIDATION/scripts/build_site.py:74-76 | the totals are the sums of the per-table counts |
| Site.AggregateValidity | VALIDATION/scripts/build_site.py:72-85 | valid_all is unknown exactly when no table has a boolean valid, and otherwise true exactly when none is false |
| Site.LanguageBlocks | VALIDATION/scripts/build_site.py:88-112 | the result always has exactly the keys en and fr |
| Site.BuildLanguageBlocks | VALIDATION/scripts/build_site.py:95-112 | the dict built in place is the specified one |
| Site.LanguageBlocksExplicit | VALIDATION/scripts/build_site.py:96-99 | with an en or fr block, the generic holders are ignored |
| Site.LanguageBlocksGeneric | VALIDATION/scripts/build_site.py:101-111 | without one, fr is empty and en comes from the first non-empty report/data dict |
| Page.InjectAtMarker | BN/build_page.py:17-19 | every placeholder is replaced by the tag, and the text between them is kept |
| Page.InjectSplices | BN/build_page.py:20-24 | without a placeholder the tag is inserted at one position |
| Page.SpliceRemovable | BN/build_page.py:23 | the page grows by the tag, and cutting it out gives the page back |
| Page.InjectBeforeLastBody | BN/build_page.py:20-23 | the tag goes before the last case-insensitive `</body>`, which then follows it |
| Page.InjectAppends | BN/build_page.py:24 | with no placeholder and no `</body>` the tag is appended |
| ValidationEnrich.Side | VALIDATION/scripts/enrich_validation.py:41-53 | a side is truthy or "" |
| ValidationEnrich.SidePrecedence | VALIDATION/scripts/enrich_validation.py:44-53 | a present `_en`/`_fr` key wins even when empty, then the translated dict, and the plain value fills only a falsy side |
| ValidationEnrich.BestOrgName | VALIDATION/scripts/enrich_validation.py:55-64 | the name is a string or truthy |
| ValidationEnrich.BestOrgNameOrder | VALIDATION/scripts/enrich_validation.py:55-64 | English title, then string title (even ""), name, id, then owner_org, then "" |
| ValidationEnrich.FirstTruthy | VALIDATION/scripts/enrich_validation.py:68-76 | the first truthy field wins, and "" when there is none |
| ValidationEnrich.ResourceStatus | VALIDATION/scripts/enrich_validation.py:66-77 | the status is the stripped, lower-cased first truthy status field when that is a string, and "" otherwise |
| ValidationEnrich.StatusNonString | VALIDATION/scripts/enrich_validation.py:68-77 | a truthy non-string status hides the later fields and gives "" |
| ValidationEnrich.NormalizeUrlType | VALIDATION/scripts/enrich_validation.py:79-83 | "upload" exactly for a string that strips and lower-cases to "upload", otherwise "remote" |
| ValidationEnrich.NormalizeUrlTypeIdempotent | VALIDATION/scripts/enrich_validation.py:79-83 | normalising twice is normalising once |
| ValidationEnrich.ResourceNames | VALIDATION/scripts/enrich_validation.py:105-107 | the title pair replaces the name pair only when both name sides are empty |
| ValidationEnrich.ResourceEntriesExact | VALIDATION/scripts/enrich_validation.py:101-122 | every entry comes from a dict resource with that string id, and every resource with a string id yields its entry |
| ValidationEnrich.AddResources | VALIDATION/scripts/enrich_validation.py:101-122 | the inner loop assigns the entries of one dataset, or raises when a resource is not a dict |
| ValidationEnrich.IndexLoop | VALIDATION/scripts/enrich_validation.py:87-122 | the line loop builds the specified index |
| ValidationEnrich.BuildResourceIndex | VALIDATION/scripts/enrich_validation.py:85-124 | build_resource_index returns the specified index |
| ValidationEnrich.IndexEntriesAll | VALIDATION/scripts/enrich_validation.py:89-122 | a property of every possible entry holds of every indexed entry |
| ValidationEnrich.ResourceIndexLastWins | VALIDATION/scripts/enrich_validation.py:113 | a later resource with the same id overwrites the earlier one |
| ValidationEnrich.IndexStatusLower | VALIDATION/scripts/enrich_validation.py:111-121 | every indexed status is already lower-case |
| ValidationEnrich.Update | VALIDATION/scripts/enrich_validation.py:152 | obj.update(meta): meta's keys win, and the other keys are kept |
| ValidationEnrich.DecideKeep | VALIDATION/scripts/enrich_validation.py:141-152 | a row is kept exactly when its resource is indexed with status "active", and is written with the metadata winning |
| ValidationEnrich.KeepActive | VALIDATION/scripts/enrich_validation.py:132-157 | the main loop gives the specified rows and counters |
| ValidationEnrich.RunCounts | VALIDATION/scripts/enrich_validation.py:132-157 | added == kept == the rows written, kept + dropped <= total, and total counts every line read |
| ValidationEnrich.RunWritesKept | VALIDATION/scripts/enrich_validation.py:134-155 | without an exception, exactly the kept rows are written, in input order |
| ValidationEnrich.RunWritesOnlyKept | VALIDATION/scripts/enrich_validation.py:143-155 | only rows the decision keeps are ever written |
| ValidationEnrich.DecideActive | VALIDATION/scripts/enrich_validation.py:147-152 | with lower-case statuses, a kept row carries resource_status "active" |
| ValidationEnrich.WrittenRowsActive | VALIDATION/scripts/enrich_validation.py:130-155 | with the built index, every written row carries resource_status "active" |

## Left out

- Downloads, HTTP retries, gzip files and file reading and writing (download_csv_df, download_file, open/gzip.open): the tables and lines are inputs.
- Sleeps, progress printing and `log`.
- The SQLite writing in main of build_db.py: the schema, to_sql, the FTS table and meta_counts, including the build date. The model stops at the tables that are written.
- The DocumentCloud client, its login and pagination: the search is a parameter returning documents or a failure. Today's date and the environment are parameters too.
- The JSON decoder (ujson.loads) is a parameter returning a value or nothing, and JSON floats are not in the value type.
- Tables.ToNumeric: pd.to_numeric's decimal and float forms are not modelled; a metric is an integer, or 0 where it does not convert.
- Text.Lower: only ASCII letters are lower-cased; Unicode case mapping is not modelled.
- Text.Trim: strip() removes ASCII whitespace only.
- Dates.AddMonths: years are unbounded, so Python's year range 1..9999 is not modelled: for a year past 9999, `date(year, month, day)` at BN/build_db.py:95 raises ValueError.
- Dates.SubDays: its own contract states validity and order only; that the result is exactly n days earlier is stated by Dates.SubDaysOrdinal.
- DocCloud.Windows: backfill windows running past year 9999 are not modelled, because Dates.AddMonths has unbounded years. In Python, add_months raises ValueError there (BN/build_db.py:105), or the step `window_end + timedelta(days=1)` raises OverflowError when the window ends on 9999-12-31 (BN/build_db.py:109). The handler at BN/build_db.py:260 catches both and returns the cache. The look-back overflow before year 1 is modelled.
- DocCloud.Doc: metadata values are null, text or integers; JSON floats, booleans, lists and dicts are not modelled. A `data` that is truthy but not a dict (an AttributeError, caught and turned into the cache) is not modelled either.
- DocCloud.ParseIsoDate: only the YYYY-MM-DD form of date.fromisoformat is accepted.
- Enrichment.EnrichFillsOnlyBlanks: pandas' where() aligns the fallback frame by position, which lines up with the rows only when each row has at most one tracking-number match. The lemma requires that, and the model otherwise keeps each row's own mask.
- Site.AggregateSums: stated for any per-table count function, which Site.Aggregate instantiates with the table counts.
- Site.ReplaceChar: str.replace of a one-character key is modelled as a character map.
- Everything build_page.py and build_site.py do besides the helpers above is not modelled:
  - HTML and JavaScript generation;
  - template placeholder substitution;
  - record reading and the site's file output.
- VALIDATION/scripts/fetch_and_convert.py is not part of this model.
- ValidationEnrich.KeepActive: an exception ends the loop with the rows written so far; the counters that would have been logged are returned but never printed.
- A dataset's id, titles and organisation are computed per resource (EntryOf) rather than once per dataset; they have no side effects, so the index is the same.
