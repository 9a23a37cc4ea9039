# Heatmap add-in: data-shaping rules

This project models the deterministic core of the Geotab heatmap add-in in Dafny. The add-in ships in three near-duplicate versions:

- the **optimized** add-in, `addin-heatmap/dist/heatmap_optimized.js`. It adds a result cache, vehicle chunking, batched exception follow-ups, display sampling and validation gates;
- the **enhanced** add-in, `addin-heatmap/dist/scripts/main.js`. It has location, EV battery, EV charging and fault views, and a CSV export;
- the **classic** add-in, `addin-heatmap/dist/heatmap.js`. It has location and exception searches, a raw-data table and a raw-data CSV download.

The project has six modules:

- `Common` (`common.dfy`) holds the shared data model:
  - records (`Entity`), plotted points, queries and API calls;
  - option lists;
  - chunking, flattening, counting and filtering of record lists;
  - the "are all result lists empty" test.
- `Text` (`text.dfy`) holds the string side:
  - integer to decimal text, and the thousands-separator formatter;
  - two-digit padding, join and split;
  - lower-casing, and the case-insensitive name comparator;
  - the string ordering and a string sort.
- `OptimizedPipeline` (`optimized_pipeline.dfy`) holds the optimized add-in's request pipeline:
  - the cache key, the sampler and the chunked and batched runs;
  - the loops that collect follow-up calls and plot records;
  - the validation gates and the CSV download.
- `OptimizedSession` (`optimized_session.dfy`) holds the optimized add-in's module state. It is the class `Session`, with the result cache, its insertion order, the last points and the processing stats. Its methods are cache eviction, the cached chunk run, the two searches and the entry point that runs the gates.
- `Enhanced` (`enhanced.dfy`) holds the enhanced add-in: the view dispatch, the aggregation loops of the four views, the fault tally and the CSV export.
- `Classic` (`classic.dfy`) holds the classic add-in:
  - the two searches and their limit notes;
  - the raw-data table and the CSV download;
  - the default date strings;
  - the class `HeatmapAddin`, whose state is `lastHeatmapPoints`.

Modelling choices:

- **API calls.** The Geotab API is a parameter. `fetch` maps one multi-call (a sequence of `Get` calls) to either the list of result lists or an error string. In the enhanced add-in, `api` maps the calls to the answer the handler receives.
- **Asynchronous steps.** The asynchronous continuation chains become recursive methods, one call per scheduled step. These are the chunk chain of `processVehiclesInChunks` and the batch chain of `processLogBatch`.
- **User input.** Dialog answers (`confirm`) are boolean parameters. The current date and hour are parameters.
- **Coordinates.** Coordinates and battery levels are integers. Only their zero test and their comparison with thresholds matter.

## Model

| member | source | states |
|---|---|---|
| Common.ResultsEmpty | addin-heatmap/dist/scripts/main.js:57-63 | true exactly when the outer list is missing or empty, or every inner list is empty (the same test as `x` in the other two versions) |
| Common.CountSelected | addin-heatmap/dist/heatmap.js:43-44 | the count of selected options, which is zero exactly when no option is selected |
| Common.SelectedVehicles | addin-heatmap/dist/heatmap.js:50-51 | the loop collecting `value || text` of the selected options returns the same list as the selection function, one entry per selected option in list order |
| Common.SelectedIdsOrTextConcat | addin-heatmap/dist/heatmap_optimized.js:346-353 | the selected ids of a concatenated option list are the ids of the first part followed by those of the second |
| Common.CeilDiv | addin-heatmap/dist/heatmap_optimized.js:107 | `ceil(n/d)`, characterised as the least c with c·d ≥ n |
| Common.ChunksConcatenate | addin-heatmap/dist/heatmap_optimized.js:175-176 | consecutive slices of a list concatenate back to the whole list |
| Common.ChunksCount | addin-heatmap/dist/heatmap_optimized.js:166 | a list of n items is cut into exactly `ceil(n/size)` slices |
| Common.ChunksBounded | addin-heatmap/dist/heatmap_optimized.js:175-176 | every slice is non-empty and holds at most `size` items |
| Common.FlattenConcat | addin-heatmap/dist/heatmap_optimized.js:201 | concatenating result lists in order distributes over splitting the list of lists |
| Common.CountWhereComplement | addin-heatmap/dist/scripts/main.js:187-196 | the records a filter keeps and those it drops add up to all records |
| Common.CountWhereCollect | addin-heatmap/dist/scripts/main.js:258-273 | counting the kept points that satisfy a test equals counting the records that are kept and satisfy it |
| Common.CollectMembers | addin-heatmap/dist/scripts/main.js:258-273 | every point the filter produces comes from a kept input record |
| Text.FormatNumber | addin-heatmap/dist/heatmap_optimized.js:41-43 | the text is never empty; it starts with a minus sign exactly when the number is negative, and with a digit otherwise |
| Text.FormatNumberRemoveCommas | addin-heatmap/dist/heatmap_optimized.js:41-43 | removing the commas from `S(n)` gives back `n.toString()` |
| Text.FormatNumberSmall | addin-heatmap/dist/scripts/main.js:68-70 | numbers strictly between -1000 and 1000 are formatted without commas |
| Text.FormatNumberWellGrouped | addin-heatmap/dist/heatmap.js:23-25 | every comma in `S(n)` follows a digit and is followed by exactly three digits, then a comma or the end |
| Text.InsertCommasGroupsFromRight | addin-heatmap/dist/heatmap_optimized.js:42 | the left-to-right lookahead rule inserts the same commas as grouping the digits in threes from the right |
| Text.RemoveCommasInsert | addin-heatmap/dist/heatmap_optimized.js:42 | comma insertion only inserts: removing the commas gives back the digit string |
| Text.GroupFromRightWellGrouped | addin-heatmap/dist/heatmap_optimized.js:42 | grouping a digit string from the right gives a well-grouped string that starts with a digit |
| Text.NumberOrEmpty | addin-heatmap/dist/heatmap_optimized.js:755-756 | `(x || '')` is empty exactly when x is 0, and never contains a comma or a line break |
| Text.Pad2 | addin-heatmap/dist/scripts/main.js:570-571 | a value below 100 is written as exactly two digits, tens then units |
| Text.Pad2Less | addin-heatmap/dist/heatmap.js:184-188 | for two-digit padded fields, a smaller value gives an earlier string whatever follows |
| Text.SplitJoin | addin-heatmap/dist/heatmap.js:234 | joining fields that do not contain the separator and splitting again gives back the fields |
| Text.JoinHasNo | addin-heatmap/dist/heatmap_optimized.js:753-758 | a join introduces no character that is absent from the separator and the parts |
| Text.ToLower | addin-heatmap/dist/scripts/main.js:580-581 | lower-casing keeps the length and maps each character on its own |
| Text.LessTotal | addin-heatmap/dist/heatmap.js:285 | string `<` orders any two different strings one way or the other |
| Text.LessTransitive | addin-heatmap/dist/heatmap.js:285 | string `<` is transitive |
| Text.LessAsymmetric | addin-heatmap/dist/heatmap.js:285 | string `<` is asymmetric |
| Text.CompareNames | addin-heatmap/dist/scripts/main.js:579-583 | 0 exactly when the lower-cased names are equal, 1 exactly when the first is greater, -1 exactly when it is smaller |
| Text.CompareNamesAntisymmetric | addin-heatmap/dist/heatmap_optimized.js:900-902 | swapping the arguments negates the result |
| Text.CompareNamesTransitive | addin-heatmap/dist/heatmap.js:284-286 | the comparator is transitive, so it is a valid sort order |
| Text.InsertPermutes | addin-heatmap/dist/heatmap_optimized.js:51 | inserting into a sorted list adds exactly the new element |
| Text.InsertSorted | addin-heatmap/dist/heatmap_optimized.js:51 | inserting into a sorted list keeps it sorted |
| Text.SortStringsPermutes | addin-heatmap/dist/heatmap_optimized.js:51 | `vehicles.sort()` is a permutation of its input |
| Text.SortStringsSorted | addin-heatmap/dist/heatmap_optimized.js:51 | `vehicles.sort()` leaves the list in ascending string order |
| Text.SortedUnique | addin-heatmap/dist/heatmap_optimized.js:51 | two sorted lists with the same elements are equal |
| Text.SortStringsOrderIndependent | addin-heatmap/dist/heatmap_optimized.js:51 | sorting the same vehicles given in any order gives the same list |
| OptimizedPipeline.GetCacheKey | addin-heatmap/dist/heatmap_optimized.js:50-55 | sorts the caller's array in place (sorted, a permutation) and returns `sorted.join(',') + '_' + from + '|' + to + '_' + (ruleId or 'location')` |
| OptimizedPipeline.CacheKey | addin-heatmap/dist/heatmap_optimized.js:50-55 | the key starts with the sorted ids joined by commas, then `_`, the two dates joined by `\|` and `_`; it ends in `_location` when the rule id is missing or empty, else in `_` and the rule id |
| OptimizedPipeline.CacheKeyOrderIndependent | addin-heatmap/dist/heatmap_optimized.js:50-55 | the key of a search does not depend on the order of its vehicles |
| OptimizedPipeline.OptimizeDataForDisplay | addin-heatmap/dist/heatmap_optimized.js:103-118 | unchanged up to 3000 points; otherwise with stride `ceil(n/3000)` element k is `points[k·stride]`, the length is `ceil(n/stride)` and at most 3000, and the first point is kept |
| OptimizedPipeline.SampleEvery | addin-heatmap/dist/heatmap_optimized.js:109-114 | the stride loop pushes exactly the sampled sequence |
| OptimizedPipeline.SampledLength | addin-heatmap/dist/heatmap_optimized.js:111-113 | sampling n points with stride s gives `ceil(n/s)` points |
| OptimizedPipeline.SampledIndices | addin-heatmap/dist/heatmap_optimized.js:111-113 | sampled element k is input element k·s |
| OptimizedPipeline.SampledFits | addin-heatmap/dist/heatmap_optimized.js:107-108 | with stride `ceil(n/3000)` the sample holds at most 3000 points |
| OptimizedPipeline.DisplayedCount | addin-heatmap/dist/heatmap_optimized.js:121-149 | the number of points drawn never exceeds the input or 3000, and is positive for a non-empty input |
| OptimizedPipeline.VehicleBatchesShape | addin-heatmap/dist/heatmap_optimized.js:165-190 | `ceil(n/3)` multi-calls; multi-call c is one `Get` per vehicle of chunk c; together they are one call per vehicle in order |
| OptimizedPipeline.ChunkCalls | addin-heatmap/dist/heatmap_optimized.js:184-189 | one `Get` per chunk vehicle, with the search config and `deviceSearch` set to that vehicle |
| OptimizedPipeline.ProcessNextChunk | addin-heatmap/dist/heatmap_optimized.js:169-212 | from the current index, the chunk chain delivers the results so far followed by the remaining chunks' results, or stops at the first failing chunk or a missing API |
| OptimizedPipeline.RunVehicleChunks | addin-heatmap/dist/heatmap_optimized.js:164-214 | the whole chain equals the chunked run: results concatenated in chunk order, first failure stops it |
| OptimizedPipeline.RunBatchesAllDelivered | addin-heatmap/dist/heatmap_optimized.js:198-205 | when every multi-call succeeds, the run delivers all result lists concatenated in order and sends every batch |
| OptimizedPipeline.RunBatchesFirstFailure | addin-heatmap/dist/heatmap_optimized.js:206-210 | when batch k is the first to fail, the run stops there, reports batch k+1 and has sent exactly batches 0..k |
| OptimizedPipeline.FetchedLists | addin-heatmap/dist/heatmap_optimized.js:201 | one list of result lists per batch |
| OptimizedPipeline.ProcessLogBatch | addin-heatmap/dist/heatmap_optimized.js:518-540 | from batch `currentBatch`, the batch chain ends as the rest of the batched run from that batch would |
| OptimizedPipeline.ProcessLogBatches | addin-heatmap/dist/heatmap_optimized.js:513-540 | the follow-up calls are sent as consecutive batches of 10, results concatenated in order, first failure stops it |
| OptimizedPipeline.LogBatchCount | addin-heatmap/dist/heatmap_optimized.js:513-516 | at most 1000 calls make `ceil(len/10)` ≤ 100 batches, each of 1 to 10 calls, which concatenate back to the calls |
| OptimizedPipeline.FollowUps | addin-heatmap/dist/heatmap_optimized.js:485-497 | a follow-up call is built only for an exception with a device id, so there are at most as many calls as exceptions |
| OptimizedPipeline.FollowUpsConcat | addin-heatmap/dist/heatmap_optimized.js:482-485 | the follow-ups of concatenated exception lists are the follow-ups of each list in order |
| OptimizedPipeline.CollectExceptionCalls | addin-heatmap/dist/heatmap_optimized.js:484-498 | the inner loop extends the calls to the first 1000 follow-ups of everything seen, and keeps the count equal to the number of calls |
| OptimizedPipeline.CollectLogRecordCalls | addin-heatmap/dist/heatmap_optimized.js:478-502 | the calls are the first 1000 follow-ups of all exceptions in order, `totalExceptions` equals their number (≤ 1000), and the exceeded counter counts lists of at least 2000 |
| OptimizedPipeline.Plotted | addin-heatmap/dist/heatmap_optimized.js:380-388 | only records with both coordinates non-zero become points, so no point has a zero coordinate |
| OptimizedPipeline.PlottedConcat | addin-heatmap/dist/heatmap_optimized.js:377-379 | plotting concatenated record lists is plotting each list in order |
| OptimizedPipeline.AggregateLocations | addin-heatmap/dist/heatmap_optimized.js:377-397 | the points are the first 15000 plotted records in input order, `totalRecords` is their number (≤ 15000), and `exceededLimit` counts lists of at least 5000, independent of the cap |
| OptimizedPipeline.AggregateExceptionLogs | addin-heatmap/dist/heatmap_optimized.js:551-571 | the points are all plotted log records in order, `totalRecords` is their number, and the log-limit counter counts lists of at least 50 |
| OptimizedPipeline.ValidateVehicleSelection | addin-heatmap/dist/heatmap_optimized.js:218-245 | accepts exactly when at least one vehicle is selected and, above 10, the user confirms; rejects with "no vehicle" exactly when none is selected |
| OptimizedPipeline.ValidateDateRange | addin-heatmap/dist/heatmap_optimized.js:248-278 | accepts exactly when both dates are given, the end is after the start, and a range over 168 hours is confirmed; reports missing dates exactly when one is empty |
| OptimizedPipeline.CsvRows | addin-heatmap/dist/heatmap_optimized.js:754-759 | one row per point |
| OptimizedPipeline.DownloadCsvLines | addin-heatmap/dist/heatmap_optimized.js:744-761 | with points, the file splits at line breaks into the header followed by one row per point in order |
| OptimizedPipeline.CsvRow | addin-heatmap/dist/heatmap_optimized.js:754-758 | a row contains no line break when its timestamp has none; when the timestamp has no comma, the row splits at commas into latitude (empty for 0), longitude (empty for 0), timestamp and `Point_` with the 1-based index |
| OptimizedPipeline.DownloadCsv | addin-heatmap/dist/heatmap_optimized.js:744-761 | no file exactly when there are no points; otherwise the file starts with the header line `Latitude,Longitude,Timestamp,Vehicle_Info` |
| OptimizedSession.RemoveKey | addin-heatmap/dist/heatmap_optimized.js:97 | deleting a key removes exactly that key from the insertion order |
| OptimizedSession.RemoveFirst | addin-heatmap/dist/heatmap_optimized.js:96-97 | deleting the earliest key of a duplicate-free order drops its first entry |
| OptimizedSession.DistinctRemove | addin-heatmap/dist/heatmap_optimized.js:97 | deleting a key keeps the insertion order free of duplicates |
| OptimizedSession.Newest | addin-heatmap/dist/heatmap_optimized.js:93-99 | keeping the newest n keys leaves `min(len, n)` of them |
| OptimizedSession.Session.constructor | addin-heatmap/dist/heatmap_optimized.js:16-18 | the module starts with an empty cache, no points and zero stats |
| OptimizedSession.Session.Delete | addin-heatmap/dist/heatmap_optimized.js:97 | `delete dataCache[key]` removes the key from the cache and from the insertion order and changes nothing else |
| OptimizedSession.Session.Store | addin-heatmap/dist/heatmap_optimized.js:172 | storing under a key updates the cache and appends the key to the order only when it is new |
| OptimizedSession.Session.ClearPreviousData | addin-heatmap/dist/heatmap_optimized.js:82-100 | points reset to empty and stats to zero; the cache is untouched up to 5 keys, otherwise exactly the 5 most recently inserted keys remain |
| OptimizedSession.RepeatSearchUsesCache | addin-heatmap/dist/heatmap_optimized.js:155-163 | after a successful search, the same search with the vehicles in any order is answered from the cache with the same results, whatever the API does |
| OptimizedSession.FailedSearchCachesNothing | addin-heatmap/dist/heatmap_optimized.js:192-210 | a failed search leaves the cache and its order unchanged |
| OptimizedSession.Session.ProcessVehiclesInChunks | addin-heatmap/dist/heatmap_optimized.js:152-215 | sorts the vehicles; a cache hit sends nothing and returns the cached results; otherwise the outcome is the chunked run, cached under the key only when it delivers |
| OptimizedSession.LocationReport | addin-heatmap/dist/heatmap_optimized.js:366-431 | a shown location map has 1 to 15000 records, at most 3000 drawn and no more than the records, and at most one limit hit per vehicle list |
| OptimizedSession.LocationResultsArrived | addin-heatmap/dist/heatmap_optimized.js:366-431 | the callback's report is the location report of the results, and it stores points exactly when some list is non-empty |
| OptimizedSession.Session.OptimizedLocationSearch | addin-heatmap/dist/heatmap_optimized.js:345-432 | runs the chunked search over the selected vehicles and reports its outcome; cache, order and points follow the run |
| OptimizedSession.ExceptionReport | addin-heatmap/dist/heatmap_optimized.js:466-603 | a shown exception map has at least one record, at most 3000 drawn, and between 1 and 1000 exceptions |
| OptimizedSession.ProcessLogResults | addin-heatmap/dist/heatmap_optimized.js:542-600 | no results gives "no locations" and no points; otherwise the points are all plotted records, and the report is "no valid coordinates" when there are none |
| OptimizedSession.ExceptionResultsArrived | addin-heatmap/dist/heatmap_optimized.js:466-603 | the callback's report is the exception report of the results, and points are stored exactly when the log results are reached |
| OptimizedSession.Session.OptimizedExceptionSearch | addin-heatmap/dist/heatmap_optimized.js:435-604 | without a rule selection nothing changes and the report asks for a rule; otherwise it runs the chunked exception search and reports its outcome |
| OptimizedSession.Gate | addin-heatmap/dist/heatmap_optimized.js:300-304 | a search starts exactly when the vehicle and date gates both pass |
| OptimizedSession.Session.GenerateHeatmap | addin-heatmap/dist/heatmap_optimized.js:294-342 | always clears previous data first: the cache is trimmed to the newest entries, the points and the statistics are reset. A failing gate reports and stops there. Otherwise the location search runs when the rule list is missing or disabled, and the exception search when not. Each path states the report, the cache and key order after a hit or a miss on the trimmed cache, the points (the search's points, else none) and the statistics (the vehicle and record counts on the location path, zero otherwise). With no rule chosen, only the trimmed, cleared state is left |
| Enhanced.SelectedValues | addin-heatmap/dist/scripts/main.js:452-454 | one value per selected option |
| Enhanced.SelectedValuesMembers | addin-heatmap/dist/scripts/main.js:452-454 | a value is returned exactly when some selected option carries it |
| Enhanced.SelectedValuesConcat | addin-heatmap/dist/scripts/main.js:452-454 | the values of concatenated option lists are the values of each list in order |
| Enhanced.Route | addin-heatmap/dist/scripts/main.js:127-143 | "battery", "charging" and "faults" go to their handlers, and every other value goes to location history |
| Enhanced.DisplayHeatMap | addin-heatmap/dist/scripts/main.js:114-144 | no selected vehicle: an error and no request; missing dates: no request; otherwise one call per selected vehicle with the routed handler's query, and its answer shown |
| Enhanced.RunHandler | addin-heatmap/dist/scripts/main.js:149-171 | a handler needs vehicles and both dates, then sends one call per selected vehicle and shows the answer |
| Enhanced.AggregateLocationHistory | addin-heatmap/dist/scripts/main.js:182-196 | the coordinates are the records not at (0,0), in order; `logRecordCount` is their number; the exceeded counter counts lists of at least 50000 |
| Enhanced.LocationHistoryDropsOnlyOrigin | addin-heatmap/dist/scripts/main.js:187-196 | the kept coordinates and the records at (0,0) add up to all records |
| Enhanced.AggregateBatteryEvents | addin-heatmap/dist/scripts/main.js:255-274 | the points are the records with both coordinates truthy, in order; `lowBatteryCount` is the number of low points, never more than the points |
| Enhanced.BatteryLowExactly | addin-heatmap/dist/scripts/main.js:258-273 | a point is low exactly when its level is below 20, and the low count equals the number of kept records with a level below 20 |
| Enhanced.AggregateChargingEvents | addin-heatmap/dist/scripts/main.js:332-341 | the charging points are the records with both coordinates truthy, in order |
| Enhanced.TallyFault | addin-heatmap/dist/scripts/main.js:402-413 | adding one fault keeps each severity counter equal to its count among the points |
| Enhanced.TallyDeviceFaults | addin-heatmap/dist/scripts/main.js:400-416 | the inner loop extends the points and keeps the three counters exact |
| Enhanced.TallyFaults | addin-heatmap/dist/scripts/main.js:394-417 | the fault points are the located records in order, the counters count critical, warning and everything else, and they add up to the number of points |
| Enhanced.SeverityPartition | addin-heatmap/dist/scripts/main.js:403-405 | critical, warning and info counts add up to the number of points |
| Enhanced.FaultSeverityNeverEmpty | addin-heatmap/dist/scripts/main.js:402 | a missing severity becomes "info", so no fault point has an empty severity |
| Enhanced.Shown | addin-heatmap/dist/scripts/main.js:275-441 | a battery view never shows more low points than points, and a fault view's three counts add up to its points |
| Enhanced.ExportRows | addin-heatmap/dist/scripts/main.js:480-491 | header first, then battery, charging and fault rows in that order |
| Enhanced.BatteryRows | addin-heatmap/dist/scripts/main.js:483-485 | one battery row per battery event, in order |
| Enhanced.ChargingRows | addin-heatmap/dist/scripts/main.js:486-488 | one charging row per charging event, in order |
| Enhanced.FaultRows | addin-heatmap/dist/scripts/main.js:489-491 | one fault row per fault, in order |
| Enhanced.Lines | addin-heatmap/dist/scripts/main.js:492 | one line per row |
| Enhanced.ExportCsvLines | addin-heatmap/dist/scripts/main.js:480-492 | the file splits at line breaks into exactly the joined rows: 1 + battery + charging + faults lines |
| Enhanced.ExportCsv | addin-heatmap/dist/scripts/main.js:479-492 | the file starts with the header `Type,Lat,Lon,Value,Details`, followed by a line break when any battery, charging or fault row follows |
| Enhanced.ExportLineClean | addin-heatmap/dist/scripts/main.js:480-492 | no exported line contains a line break |
| Enhanced.FaultLineFields | addin-heatmap/dist/scripts/main.js:490 | a fault line splits into one more field than the header, because its details carry an unquoted comma |
| Enhanced.HeaderLine | addin-heatmap/dist/scripts/main.js:480 | the header line is `Type,Lat,Lon,Value,Details` |
| Enhanced.ExportCsvHeaderOnly | addin-heatmap/dist/scripts/main.js:479-492 | with the three lists empty, as the module leaves them (lines 39-41), the export is the header line alone |
| Enhanced.DefaultRange | addin-heatmap/dist/scripts/main.js:566-573 | today at 00:00 and today at 23:59, with day and month zero-padded, and the first before the second |
| Classic.HeatMap | addin-heatmap/dist/heatmap.js:36-46 | no selected vehicle: an error, nothing sent and no points; the location search runs only when the exception list is disabled, the exception search (with its note as written) only when not |
| Classic.LocationCallsPerVehicle | addin-heatmap/dist/heatmap.js:57-67 | call i of the location search is a `LogRecord` call with limit 5000 for selected vehicle i |
| Classic.LocationHistory | addin-heatmap/dist/heatmap.js:49-91 | nothing is sent without both dates; otherwise one multi-call of one call per selected vehicle; a shown map's record count equals its points, and no point is at (0,0) |
| Classic.Drawn | addin-heatmap/dist/heatmap.js:72-75 | no drawn point has both coordinates zero |
| Classic.DrawnDropsOnlyOrigin | addin-heatmap/dist/heatmap.js:72-75 | the drawn points and the records at (0,0) add up to all records |
| Classic.AggregateLogRecords | addin-heatmap/dist/heatmap.js:71-78 | the points are the records not at (0,0), in order; the count equals the points; the vehicle counter counts lists of at least 5000 |
| Classic.LocationLimitNote | addin-heatmap/dist/heatmap.js:87 | the note appears exactly when some vehicle hit the limit, and starts with the note prefix |
| Classic.LimitText | addin-heatmap/dist/heatmap.js:87 | the limit is printed as "5,000" |
| Classic.FollowUpCalls | addin-heatmap/dist/heatmap.js:118-127 | exactly one `LogRecord` call per exception, in order, with no cap |
| Classic.CollectFollowUps | addin-heatmap/dist/heatmap.js:117-129 | the calls are one per exception, the counter `u` is the total number of exceptions, and `s` counts exception lists of at least 5000 |
| Classic.ExceptionHistory | addin-heatmap/dist/heatmap.js:94-158 | no rule: an error and nothing sent; at most two multi-calls, the second being the follow-ups of the first's results; a shown map reports one exception per follow-up call. The note is built as written: none when a rule list reached the limit, and a shown note ends in two full stops |
| Classic.ExceptionNoteSuppressed | addin-heatmap/dist/heatmap.js:147 | as written, when rule lists hit the limit no note is shown at all, while the corrected note is shown |
| Classic.ExceptionNoteDoubleStop | addin-heatmap/dist/heatmap.js:151-152 | as written, the note shown ends in two full stops |
| Classic.ExceptionNoteTextAsWritten | addin-heatmap/dist/heatmap.js:147-153 | as written: the note text starts with the "Note: Not all results are displayed because" prefix and ends in a full stop |
| Classic.ExceptionLimitNoteAsWritten | addin-heatmap/dist/heatmap.js:147-153 | as written: a note exactly when no rule list and some vehicle list reached the limit; it starts with the prefix and ends in two full stops |
| Classic.ExceptionLimitNote | addin-heatmap/dist/heatmap.js:147-153 | corrected: a note exactly when rule lists or vehicles hit the limit; the vehicle-only note is the prefix, the vehicle clause and one stop |
| Classic.ExceptionNoteSingleStop | addin-heatmap/dist/heatmap.js:147-153 | corrected: every note ends in exactly one full stop |
| Classic.ExceptionNoteAgreesWhereShown | addin-heatmap/dist/heatmap.js:147-153 | where the code as written does show a note, the corrected note differs only by the extra stop |
| Classic.ClausesEndInLetter | addin-heatmap/dist/heatmap.js:149-151 | the clauses of a note end in a letter, so the note needs one full stop |
| Classic.RenderRawDataTable | addin-heatmap/dist/heatmap.js:249-281 | no data gives the "no data" table; otherwise the first `min(n, 1000)` points in order, with the "Showing first 1000 of N" summary exactly when n > 1000 |
| Classic.RawSummary | addin-heatmap/dist/heatmap.js:259-263 | the summary starts with "Showing first" exactly when there are more than 1000 points |
| Classic.RawLines | addin-heatmap/dist/heatmap.js:228-234 | the header line followed by one line per point: n+1 lines |
| Classic.RawCsv | addin-heatmap/dist/heatmap.js:224-234 | no file exactly when there are no points; otherwise the file starts with the header line `Latitude,Longitude,Timestamp` |
| Classic.RawCsvRoundTrip | addin-heatmap/dist/heatmap.js:222-245 | with points, the file splits at line breaks into the n+1 lines, and each line splits at commas back into its cells |
| Classic.RawLineRoundTrip | addin-heatmap/dist/heatmap.js:229-233 | a point's line splits back into its three cells |
| Classic.RawHeaderRoundTrip | addin-heatmap/dist/heatmap.js:228 | the header splits back into `Latitude,Longitude,Timestamp` |
| Classic.DefaultRangeAsWritten | addin-heatmap/dist/heatmap.js:179-189 | as written: "to" is today at the current hour; "from" is today at four hours earlier, but at 20 hours later on the same day before 04:00 |
| Classic.DefaultRangeInvertedBeforeFour | addin-heatmap/dist/heatmap.js:179-189 | as written, before 04:00 the "from" string is later than the "to" string |
| Classic.DefaultRange | addin-heatmap/dist/heatmap.js:179-189 | corrected: "to" is today at the current hour; "from" is four hours earlier, on the previous day before 04:00 |
| Classic.DefaultRangeOrdered | addin-heatmap/dist/heatmap.js:179-189 | corrected: "from" is always before "to" |
| Classic.NextOfPrevious | addin-heatmap/dist/heatmap.js:180 | stepping a calendar day back and forward returns the same day |
| Classic.DaysIn | addin-heatmap/dist/heatmap.js:180 | every month has 28 to 31 days |
| Classic.HeatmapAddin.constructor | addin-heatmap/dist/heatmap.js:9 | the add-in starts with no stored points |
| Classic.HeatmapAddin.ShowHeatMap | addin-heatmap/dist/heatmap.js:36-46 | the outcome (with the exception note as written) and calls of `HeatMap`; `lastHeatmapPoints` is replaced by the drawn points of the search that ran, possibly none, whenever its last answer holds at least one record. It is kept when no vehicle is selected, nothing is sent, a multi-call fails, or every result list is empty |
| Classic.HeatmapAddin.LocationSearch | addin-heatmap/dist/heatmap.js:49-91 | the outcome and calls of `LocationHistory`; `lastHeatmapPoints` is replaced by the drawn points, possibly none, whenever the answer holds at least one record. It is kept when nothing is sent, the multi-call fails, or every result list is empty |
| Classic.HeatmapAddin.ExceptionSearch | addin-heatmap/dist/heatmap.js:94-158 | the outcome (with the note as written) and calls of `ExceptionHistory`; `lastHeatmapPoints` is replaced by the drawn points, possibly none, whenever the follow-up answer holds at least one record. It is kept when nothing is sent, either multi-call fails, or every exception or follow-up list is empty |
| Classic.HeatmapAddin.DownloadRawData | addin-heatmap/dist/heatmap.js:222-245 | no file exactly when there are no points; otherwise the header and one line per point |
| Classic.HeatmapAddin.ShowRawData | addin-heatmap/dist/heatmap.js:206-214 | nothing is rendered exactly when there are no points; otherwise a table whose summary gives the point count and whose `min(n, 1000)` rows are the cells of the first points, in order |

## Left out

- Leaflet and the DOM are not modelled: the heat layer, `fitBounds`, the `L.LatLng` bounds arrays, element lookup, HTML templates, event listeners, and Blob and anchor downloads. The raw table is modelled as its rows and summary, not its markup.
- Timers are not modelled: `setTimeout` delays, the debounce, the spinner, progress messages and elapsed seconds (`N()`). The chunk and batch chains are modelled as sequential recursion.
- Console logging and emoji status texts are not modelled; an error or status message is a `Report`/`Outcome` case.
- The Geotab `multiCall` is a deterministic function parameter, and `confirm` is a boolean parameter.
- Floating point is not modelled. Coordinates and battery levels are integers, and `parseFloat` of the battery data is an `Option<int>`.
- `Date` parsing, ISO conversion and time zones are not modelled. Date fields carry their text, an instant in milliseconds and an ISO string as given values.
- String order is `char` order, and lower-casing covers ASCII letters only. JavaScript compares UTF-16 code units and lower-cases all of Unicode.
- Missing or null records and the `|| []` fallbacks are not modelled; every result list is present.
- The optimized add-in's show-raw-data table is not modelled: `renderEnhancedDataTable`, `getTimeSpan` and `getCoordinateStats` in `heatmap_optimized.js`. It shows the first 1000 rows with a "Showing first 1000 of N" note, and formats its cells with `toFixed(6)` and its statistics with `toFixed(4)` and `Math.max`/`Math.min` over floating-point coordinates. That is floating-point formatting and HTML, and the model has no floating point. The classic counterpart, which prints the values as they are, is modelled by `Classic.RenderRawDataTable`.
- `showDataOutput` and `updateSummaryPanel` in the enhanced add-in are not modelled. They are floating-point statistics and HTML.
- Enhanced.TallyFaults: a located fault record without a `diagnostic` cannot be represented, because `Telemetry` has plain `code` and `description` strings. The enhanced add-in reads `fault.diagnostic.code` and `fault.diagnostic.description` unguarded (`scripts/main.js:410-411`), so for such a record it throws inside the multi-call's callback: no message is shown and the spinner stays on. The model instead tallies the fault with the codes it carries.
- Classic.FollowUpCalls: an exception without a `device` cannot be represented, because `Entity` has a plain `deviceId` string. The classic add-in reads `a[i].device.id` unguarded (`heatmap.js:123`), so for such an exception it throws inside the first multi-call's callback: no follow-up request is sent, nothing is shown and the spinner stays on. The model instead builds a follow-up call with device id `""`. `OptimizedPipeline.FollowUps` models the optimized add-in's guard `exc && exc.device && exc.device.id` (`heatmap_optimized.js:486`) as `deviceId != ""`.
- Add-in initialisation and focus (loading and sorting the device and rule lists) is modelled only through the comparator's properties. The list requests are not modelled.
- `addin-heatmap/app/scripts/main.js` is not part of this model. It is Google Maps plumbing plus a floating-point average.
- Text.SortStrings: the engine's array sort is modelled as insertion sort. Any correct sort gives the same result (Text.SortedUnique), so only the result is modelled, not the engine's algorithm.
- Classic.ExceptionHistory: when no rule is selected, the code as written fails on `p.options[-1]`. The model reports `NoRuleSelected` instead of an exception.
- The four enhanced view handlers share one request model (`RunHandler`); their aggregation loops stay separate.
- The raw-data button's show/hide toggle is not modelled; `ShowRawData` models the click that shows the table.

## Findings

| source | as written | input that shows it | evidently intended | confidence | as-written member | corrected member |
|---|---|---|---|---|---|---|
| addin-heatmap/dist/heatmap.js:147 | `0 < s \|\| 0 < a && (...)()` parses as `0 < s \|\| (0 < a && ...)`, so the note is only built when `s == 0` | one rule list at the 5000 limit (`s = 1`, `a = 0`): no note is shown | a note whenever `s > 0` or `a > 0`, with the rule clause when `s > 0` | not executed | Classic.ExceptionNoteSuppressed | Classic.ExceptionLimitNote |
| addin-heatmap/dist/heatmap.js:151-152 | the vehicle clause ends in `"."` and then `d += "."` appends another | `s = 0`, `a = 2`: the note ends in ".." | a single full stop | not executed | Classic.ExceptionNoteDoubleStop | Classic.ExceptionNoteSingleStop |
| addin-heatmap/dist/heatmap.js:179-189 | the "from" string combines today's date with the hour of four hours ago | 2026-10-16 at 02:00: from "2026-10-16T22:00", to "2026-10-16T02:00", so from is after to | "from" four hours before "to", on the previous day when needed | not executed | Classic.DefaultRangeInvertedBeforeFour | Classic.DefaultRangeOrdered |
