/** The state the optimized add-in keeps between searches (dist/heatmap_optimized.js): the
    result cache and its key order, the last points drawn and the processing counters, with
    the search handlers that read and update them. */
module OptimizedSession {
  import opened Common
  import opened Text
  import opened OptimizedPipeline

  /** Entries kept by `clearPreviousData` (`cacheKeys.length > 5`). */
  const MAX_CACHED: nat := 5

  datatype Stats = Stats(totalVehicles: nat, processedVehicles: nat, totalRecords: nat)

  /** What a run of `d` ends with: the error or status the add-in shows. */
  datatype Report =
    | SelectionRefused(selection: Selection)
    | DatesRefused(dates: DateCheck)
    | NoExceptionType
    | SearchFailed(failure: Outcome)
    | NoLocationData
    | NoExceptionsFound
    | NoValidExceptions
    | NoExceptionLocations
    | NoValidCoordinates
    | LocationsShown(records: nat, displayed: nat, vehiclesAtLimit: nat)
    | ExceptionsShown(records: nat, exceptions: nat, displayed: nat,
                      vehiclesAtExceptionLimit: nat, exceptionsAtLogLimit: nat)

  /** The exception-type list `p`: absent, or present with its `disabled` flag and the
      option at `selectedIndex` (`None` when there is none). */
  datatype RuleList = NoRuleList | RuleList(disabled: bool, chosen: Option<SelectOption>)

  predicate Distinct(s: seq<string>)
  {
    forall i, j :: 0 <= i < j < |s| ==> s[i] != s[j]
  }

  /** The key order after `delete dataCache[key]`. */
  function RemoveKey(order: seq<string>, key: string): (r: seq<string>)
    ensures forall k :: k in r <==> k in order && k != key
    ensures |r| <= |order|
  {
    if order == [] then []
    else
      var last := order[|order| - 1];
      RemoveKey(order[..|order| - 1], key) + (if last == key then [] else [last])
  }

  lemma {:induction false} RemoveAbsent(order: seq<string>, key: string)
    requires key !in order
    ensures RemoveKey(order, key) == order
    decreases |order|
  {
    if order != [] {
      RemoveAbsent(order[..|order| - 1], key);
      assert order[..|order| - 1] + [order[|order| - 1]] == order;
    }
  }

  lemma {:induction false} RemoveFirst(order: seq<string>)
    requires order != [] && Distinct(order)
    ensures RemoveKey(order, order[0]) == order[1..]
    decreases |order|
  {
    if |order| == 1 {
      assert RemoveKey(order, order[0]) == RemoveKey([], order[0]) + [];
    } else {
      var init := order[..|order| - 1];
      RemoveFirst(init);
      assert init[1..] + [order[|order| - 1]] == order[1..];
    }
  }

  /** The last `n` keys in insertion order: the ones `clearPreviousData` keeps. */
  function Newest(order: seq<string>, n: nat): (r: seq<string>)
    ensures |r| == Min(|order|, n)
  {
    if |order| > n then order[|order| - n..] else order
  }

  /** The cache after `clearPreviousData`: only the newest five keys remain. */
  function Trimmed(cache: map<string, seq<seq<Entity>>>, order: seq<string>): map<string, seq<seq<Entity>>>
  {
    map k | k in cache && k in Newest(order, MAX_CACHED) :: cache[k]
  }

  // ---- what one search reads from and writes to the cache ----

  function SearchKey(vehicles: seq<string>, config: Query): string
  {
    CacheKey(vehicles, config.search.fromDate, config.search.toDate, config.search.ruleId)
  }

  /** `processVehiclesInChunks`: the cached results when the key is present, else a chunked
      run over the vehicles in sorted order. */
  function CachedOutcome(cache: map<string, seq<seq<Entity>>>, vehicles: seq<string>, config: Query,
                         apiAvailable: bool, fetch: seq<Call> -> Fetch): Outcome
  {
    var key := SearchKey(vehicles, config);
    if key in cache then Delivered(cache[key])
    else ChunkedRun(SortStrings(vehicles), config, apiAvailable, fetch).outcome
  }

  /** Only a completed run on a miss adds an entry. */
  function CacheAfter(cache: map<string, seq<seq<Entity>>>, vehicles: seq<string>, config: Query,
                      outcome: Outcome): map<string, seq<seq<Entity>>>
  {
    var key := SearchKey(vehicles, config);
    if key !in cache && outcome.Delivered? then cache[key := outcome.results] else cache
  }

  function OrderAfter(cache: map<string, seq<seq<Entity>>>, order: seq<string>, vehicles: seq<string>,
                      config: Query, outcome: Outcome): seq<string>
  {
    var key := SearchKey(vehicles, config);
    if key !in cache && outcome.Delivered? then order + [key] else order
  }

  /** Once a search has delivered, the same vehicles in any order over the same dates and rule
      get the same results from the cache, whatever the API would now do. */
  lemma RepeatSearchUsesCache(cache: map<string, seq<seq<Entity>>>, vehicles: seq<string>,
                              again: seq<string>, config: Query,
                              apiAvailable: bool, fetch: seq<Call> -> Fetch,
                              laterApi: bool, laterFetch: seq<Call> -> Fetch)
    requires multiset(again) == multiset(vehicles)
    requires CachedOutcome(cache, vehicles, config, apiAvailable, fetch).Delivered?
    ensures var outcome := CachedOutcome(cache, vehicles, config, apiAvailable, fetch);
            CachedOutcome(CacheAfter(cache, vehicles, config, outcome), again, config, laterApi, laterFetch)
              == outcome
  {
    CacheKeyOrderIndependent(vehicles, again, config.search.fromDate, config.search.toDate, config.search.ruleId);
  }

  /** A search that fails leaves the cache as it was. */
  lemma FailedSearchCachesNothing(cache: map<string, seq<seq<Entity>>>, order: seq<string>,
                                  vehicles: seq<string>, config: Query,
                                  apiAvailable: bool, fetch: seq<Call> -> Fetch)
    requires !CachedOutcome(cache, vehicles, config, apiAvailable, fetch).Delivered?
    ensures var outcome := CachedOutcome(cache, vehicles, config, apiAvailable, fetch);
            CacheAfter(cache, vehicles, config, outcome) == cache
            && OrderAfter(cache, order, vehicles, config, outcome) == order
            && SearchKey(vehicles, config) !in cache
  {
  }

  // ---- the search configurations ----

  function LocationConfig(from: DateField, to: DateField): Query
  {
    Query("LogRecord", RECORDS_PER_VEHICLE, Search(None, None, None, from.iso, to.iso))
  }

  function ExceptionConfig(ruleId: string, from: DateField, to: DateField): Query
  {
    Query("ExceptionEvent", EXCEPTION_RESULTS_LIMIT, Search(None, Some(ruleId), None, from.iso, to.iso))
  }

  // ---- what the handlers report ----

  predicate HasResults(outcome: Outcome)
  {
    outcome.Delivered? && |outcome.results| != 0 && !NoRecords(outcome.results)
  }

  function LocationPoints(results: seq<seq<Entity>>): seq<Point>
  {
    Take(Plotted(Flatten(results)), MAX_TOTAL_RECORDS)
  }

  /** The location handler's report for the outcome of the chunked search. */
  function LocationReport(outcome: Outcome): (r: Report)
    ensures r.LocationsShown? ==> 0 < r.displayed <= r.records <= MAX_TOTAL_RECORDS && r.displayed <= MAX_DISPLAY_POINTS
    ensures r.LocationsShown? ==> outcome.Delivered? && r.vehiclesAtLimit <= |outcome.results|
  {
    if !outcome.Delivered? then SearchFailed(outcome)
    else if !HasResults(outcome) then NoLocationData
    else
      var points := LocationPoints(outcome.results);
      if points == [] then NoValidCoordinates
      else LocationsShown(|points|, DisplayedCount(|points|), CountAtLeast(outcome.results, RECORDS_PER_VEHICLE))
  }

  function ExceptionCalls(exceptionResults: seq<seq<Entity>>): seq<Call>
  {
    Take(FollowUps(Flatten(exceptionResults)), MAX_EXCEPTIONS)
  }

  function LogRun(exceptionResults: seq<seq<Entity>>, fetch: seq<Call> -> Fetch): Run
  {
    RunBatches(Chunks(ExceptionCalls(exceptionResults), BATCH_SIZE), fetch)
  }

  /** True when the exception handler reaches `processLogResults` with some records. */
  predicate ReachesLogResults(outcome: Outcome, fetch: seq<Call> -> Fetch)
  {
    HasResults(outcome) && ExceptionCalls(outcome.results) != []
    && HasResults(LogRun(outcome.results, fetch).outcome)
  }

  function ExceptionPoints(outcome: Outcome, fetch: seq<Call> -> Fetch): seq<Point>
    requires ReachesLogResults(outcome, fetch)
  {
    Plotted(Flatten(LogRun(outcome.results, fetch).outcome.results))
  }

  /** The exception handler's report: the exceptions found, the follow-up batches for them,
      and the points of the log records those return. */
  function ExceptionReport(outcome: Outcome, fetch: seq<Call> -> Fetch): (r: Report)
    ensures r.ExceptionsShown? ==> 0 < r.displayed <= r.records && r.displayed <= MAX_DISPLAY_POINTS
    ensures r.ExceptionsShown? ==> 0 < r.exceptions <= MAX_EXCEPTIONS
  {
    if !outcome.Delivered? then SearchFailed(outcome)
    else if !HasResults(outcome) then NoExceptionsFound
    else
      var calls := ExceptionCalls(outcome.results);
      if calls == [] then NoValidExceptions
      else
        var logs := LogRun(outcome.results, fetch).outcome;
        if !logs.Delivered? then SearchFailed(logs)
        else if !HasResults(logs) then NoExceptionLocations
        else
          var points := Plotted(Flatten(logs.results));
          if points == [] then NoValidCoordinates
          else ExceptionsShown(|points|, |calls|, DisplayedCount(|points|),
                               CountAtLeast(outcome.results, EXCEPTION_RESULTS_LIMIT),
                               CountAtLeast(logs.results, LOG_RESULTS_LIMIT))
  }

  /** The callback `optimizedLocationSearch` hands to `processVehiclesInChunks`: the report
      for the delivered results and, once there are records, the points it keeps as the last
      heat map. */
  method LocationResultsArrived(allResults: seq<seq<Entity>>) returns (report: Report, points: Option<seq<Point>>)
    ensures report == LocationReport(Delivered(allResults))
    ensures points == if HasResults(Delivered(allResults)) then Some(LocationPoints(allResults)) else None
  {
    var empty := ResultsEmpty(Some(allResults));
    if empty {
      return NoLocationData, None;
    }
    var allPoints, totalRecords, exceededLimit := AggregateLocations(allResults);
    points := Some(allPoints);
    if |allPoints| > 0 {
      var displayPoints := OptimizeDataForDisplay(allPoints);
      report := LocationsShown(totalRecords, |displayPoints|, exceededLimit);
    } else {
      report := NoValidCoordinates;
    }
  }

  /** `processLogResults`: the report once the follow-up batches delivered `logResults`, and
      the points it keeps as the last heat map. */
  method ProcessLogResults(logResults: seq<seq<Entity>>, totalExceptions: nat, exceededExceptionLimit: nat)
    returns (report: Report, points: Option<seq<Point>>)
    ensures !HasResults(Delivered(logResults)) ==> report == NoExceptionLocations && points == None
    ensures HasResults(Delivered(logResults)) ==>
              var all := Plotted(Flatten(logResults));
              && points == Some(all)
              && report == (if all == [] then NoValidCoordinates
                            else ExceptionsShown(|all|, totalExceptions, DisplayedCount(|all|),
                                                 exceededExceptionLimit, CountAtLeast(logResults, LOG_RESULTS_LIMIT)))
  {
    var noLogs := ResultsEmpty(Some(logResults));
    if noLogs {
      return NoExceptionLocations, None;
    }
    var allPoints, totalRecords, exceededLogLimit := AggregateExceptionLogs(logResults);
    points := Some(allPoints);
    if |allPoints| > 0 {
      var displayPoints := OptimizeDataForDisplay(allPoints);
      report := ExceptionsShown(totalRecords, totalExceptions, |displayPoints|,
                                exceededExceptionLimit, exceededLogLimit);
    } else {
      report := NoValidCoordinates;
    }
  }

  /** The callback `optimizedExceptionSearch` hands to `processVehiclesInChunks`: one
      follow-up per exception with a device, sent in batches, then `processLogResults`. */
  method ExceptionResultsArrived(exceptionResults: seq<seq<Entity>>, fetch: seq<Call> -> Fetch)
    returns (report: Report, points: Option<seq<Point>>)
    ensures report == ExceptionReport(Delivered(exceptionResults), fetch)
    ensures points == if ReachesLogResults(Delivered(exceptionResults), fetch)
                      then Some(ExceptionPoints(Delivered(exceptionResults), fetch)) else None
  {
    var empty := ResultsEmpty(Some(exceptionResults));
    if empty {
      return NoExceptionsFound, None;
    }
    var logRecordCalls, totalExceptions, exceededExceptionLimit := CollectLogRecordCalls(exceptionResults);
    if |logRecordCalls| == 0 {
      return NoValidExceptions, None;
    }
    var logOutcome, _ := ProcessLogBatches(logRecordCalls, fetch);
    if !logOutcome.Delivered? {
      return SearchFailed(logOutcome), None;
    }
    report, points := ProcessLogResults(logOutcome.results, totalExceptions, exceededExceptionLimit);
  }

  /** The checks `d` makes before any search: `None` when they all pass. */
  function Gate(options: seq<SelectOption>, confirmManyVehicles: bool,
                from: DateField, to: DateField, confirmLongRange: bool): (g: Option<Report>)
    ensures g.None? <==> 0 < NumSelected(options)
                         && (NumSelected(options) > MAX_VEHICLES_WARNING ==> confirmManyVehicles)
                         && ValidateDateRange(from, to, confirmLongRange) == DatesAccepted
  {
    if NumSelected(options) == 0 then Some(SelectionRefused(NoVehicleSelected))
    else if NumSelected(options) > MAX_VEHICLES_WARNING && !confirmManyVehicles
    then Some(SelectionRefused(ManyVehiclesDeclined))
    else
      var dates := ValidateDateRange(from, to, confirmLongRange);
      if dates == DatesAccepted then None else Some(DatesRefused(dates))
  }

  class Session {
    var dataCache: map<string, seq<seq<Entity>>>
    /** The keys of `dataCache` in insertion order (what `Object.keys` lists). */
    var cacheOrder: seq<string>
    var lastHeatmapPoints: seq<Point>
    var processingStats: Stats

    ghost predicate Valid()
      reads this`dataCache, this`cacheOrder
    {
      Distinct(cacheOrder) && forall k :: k in dataCache <==> k in cacheOrder
    }

    constructor()
      ensures Valid()
      ensures dataCache == map[] && cacheOrder == [] && lastHeatmapPoints == []
      ensures processingStats == Stats(0, 0, 0)
    {
      dataCache := map[];
      cacheOrder := [];
      lastHeatmapPoints := [];
      processingStats := Stats(0, 0, 0);
    }

    /** `delete dataCache[key]`. */
    method Delete(key: string)
      requires Valid()
      modifies this
      ensures Valid()
      ensures dataCache == old(dataCache) - {key}
      ensures cacheOrder == RemoveKey(old(cacheOrder), key)
      ensures lastHeatmapPoints == old(lastHeatmapPoints) && processingStats == old(processingStats)
    {
      dataCache := dataCache - {key};
      cacheOrder := RemoveKey(cacheOrder, key);
      DistinctRemove(old(cacheOrder), key);
    }

    /** `dataCache[key] = results`: a new key goes last in the order, an existing one keeps
        its place. */
    method Store(key: string, results: seq<seq<Entity>>)
      requires Valid()
      modifies this
      ensures Valid()
      ensures dataCache == old(dataCache)[key := results]
      ensures cacheOrder == if key in old(dataCache) then old(cacheOrder) else old(cacheOrder) + [key]
      ensures lastHeatmapPoints == old(lastHeatmapPoints) && processingStats == old(processingStats)
    {
      if key !in dataCache {
        cacheOrder := cacheOrder + [key];
      }
      dataCache := dataCache[key := results];
    }

    /** `clearPreviousData`: forget the last points and counters and keep only the five
        newest cache entries. */
    method ClearPreviousData()
      requires Valid()
      modifies this
      ensures Valid()
      ensures lastHeatmapPoints == [] && processingStats == Stats(0, 0, 0)
      ensures cacheOrder == Newest(old(cacheOrder), MAX_CACHED)
      ensures |cacheOrder| <= MAX_CACHED
      ensures dataCache == Trimmed(old(dataCache), old(cacheOrder))
    {
      lastHeatmapPoints := [];
      processingStats := Stats(0, 0, 0);
      var cacheKeys := cacheOrder;
      if |cacheKeys| > MAX_CACHED {
        var i := 0;
        while i < |cacheKeys| - MAX_CACHED
          invariant 0 <= i <= |cacheKeys| - MAX_CACHED
          invariant Valid()
          invariant cacheOrder == cacheKeys[i..]
          invariant forall k :: k in dataCache ==> k in old(dataCache) && dataCache[k] == old(dataCache)[k]
          invariant lastHeatmapPoints == [] && processingStats == Stats(0, 0, 0)
        {
          RemoveFirst(cacheOrder);
          assert cacheOrder[1..] == cacheKeys[i + 1..];
          Delete(cacheKeys[i]);
          i := i + 1;
        }
      }
      assert cacheOrder == Newest(cacheKeys, MAX_CACHED);
      assert dataCache.Keys == Trimmed(old(dataCache), old(cacheOrder)).Keys;
    }

    /** `processVehiclesInChunks`: the cache key sorts the caller's vehicle array; a hit
        answers from the cache without a request, a miss runs the chunks over the sorted
        vehicles and stores the results only when every chunk succeeded. */
    method ProcessVehiclesInChunks(vehicles: array<string>, config: Query,
                                   apiAvailable: bool, fetch: seq<Call> -> Fetch)
      returns (outcome: Outcome, sent: seq<seq<Call>>)
      requires Valid()
      modifies this, vehicles
      ensures Valid()
      ensures vehicles[..] == SortStrings(old(vehicles[..]))
      ensures outcome == CachedOutcome(old(dataCache), old(vehicles[..]), config, apiAvailable, fetch)
      ensures SearchKey(old(vehicles[..]), config) in old(dataCache) ==> sent == []
      ensures SearchKey(old(vehicles[..]), config) !in old(dataCache) ==>
                Run(outcome, sent) == ChunkedRun(vehicles[..], config, apiAvailable, fetch)
      ensures dataCache == CacheAfter(old(dataCache), old(vehicles[..]), config, outcome)
      ensures cacheOrder == OrderAfter(old(dataCache), old(cacheOrder), old(vehicles[..]), config, outcome)
      ensures lastHeatmapPoints == old(lastHeatmapPoints) && processingStats == old(processingStats)
    {
      var cacheKey := GetCacheKey(vehicles, config.search.fromDate, config.search.toDate, config.search.ruleId);
      if cacheKey in dataCache {
        outcome := Delivered(dataCache[cacheKey]);
        sent := [];
        return;
      }
      outcome, sent := RunVehicleChunks(vehicles[..], config, apiAvailable, fetch);
      if outcome.Delivered? {
        Store(cacheKey, outcome.results);
      }
    }

    /** `optimizedLocationSearch`. */
    method OptimizedLocationSearch(options: seq<SelectOption>, from: DateField, to: DateField,
                                   apiAvailable: bool, fetch: seq<Call> -> Fetch)
      returns (report: Report)
      requires Valid()
      modifies this
      ensures Valid()
      ensures var vehicles := SelectedIdsOrText(options);
              var config := LocationConfig(from, to);
              var outcome := CachedOutcome(old(dataCache), vehicles, config, apiAvailable, fetch);
              && report == LocationReport(outcome)
              && dataCache == CacheAfter(old(dataCache), vehicles, config, outcome)
              && cacheOrder == OrderAfter(old(dataCache), old(cacheOrder), vehicles, config, outcome)
              && lastHeatmapPoints
                   == (if HasResults(outcome) then LocationPoints(outcome.results) else old(lastHeatmapPoints))
              && processingStats
                   == old(processingStats).(totalVehicles := |vehicles|,
                                            totalRecords := if HasResults(outcome)
                                                            then |LocationPoints(outcome.results)|
                                                            else old(processingStats).totalRecords)
    {
      var selected := SelectedVehicles(options);
      var config := LocationConfig(from, to);
      processingStats := processingStats.(totalVehicles := |selected|);
      var selectedVehicles := new string[|selected|](i requires 0 <= i < |selected| => selected[i]);
      assert selectedVehicles[..] == selected;
      var outcome, _ := ProcessVehiclesInChunks(selectedVehicles, config, apiAvailable, fetch);
      if !outcome.Delivered? {
        return SearchFailed(outcome);
      }
      assert outcome == Delivered(outcome.results);
      var points;
      report, points := LocationResultsArrived(outcome.results);
      if points.Some? {
        lastHeatmapPoints := points.value;
        processingStats := processingStats.(totalRecords := |points.value|);
      }
    }

    /** `optimizedExceptionSearch`: the exceptions of the chosen rule, one `LogRecord`
        follow-up per exception with a device (at most 1000, in batches of ten), and the
        points of the records those return. */
    method OptimizedExceptionSearch(options: seq<SelectOption>, rule: Option<SelectOption>,
                                    from: DateField, to: DateField,
                                    apiAvailable: bool, fetch: seq<Call> -> Fetch)
      returns (report: Report)
      requires Valid()
      modifies this
      ensures Valid()
      ensures processingStats == old(processingStats)
      ensures rule.None? ==>
                report == NoExceptionType && dataCache == old(dataCache) && cacheOrder == old(cacheOrder)
                && lastHeatmapPoints == old(lastHeatmapPoints)
      ensures rule.Some? ==>
                var vehicles := SelectedIdsOrText(options);
                var config := ExceptionConfig(rule.value.value, from, to);
                var outcome := CachedOutcome(old(dataCache), vehicles, config, apiAvailable, fetch);
                && report == ExceptionReport(outcome, fetch)
                && dataCache == CacheAfter(old(dataCache), vehicles, config, outcome)
                && cacheOrder == OrderAfter(old(dataCache), old(cacheOrder), vehicles, config, outcome)
                && lastHeatmapPoints
                     == (if ReachesLogResults(outcome, fetch) then ExceptionPoints(outcome, fetch)
                         else old(lastHeatmapPoints))
    {
      var selected := SelectedVehicles(options);
      if rule.None? {
        return NoExceptionType;
      }
      var ruleId := rule.value.value;
      var exceptionSearchConfig := ExceptionConfig(ruleId, from, to);
      var selectedVehicles := new string[|selected|](i requires 0 <= i < |selected| => selected[i]);
      assert selectedVehicles[..] == selected;
      var outcome, _ := ProcessVehiclesInChunks(selectedVehicles, exceptionSearchConfig, apiAvailable, fetch);
      if !outcome.Delivered? {
        return SearchFailed(outcome);
      }
      assert outcome == Delivered(outcome.results);
      var points;
      report, points := ExceptionResultsArrived(outcome.results, fetch);
      if points.Some? {
        lastHeatmapPoints := points.value;
      }
    }

    /** `d`: trim the cache, run the gates, then the location search when the exception list
        is absent or disabled and the exception search otherwise. */
    method GenerateHeatmap(options: seq<SelectOption>, rules: RuleList, confirmManyVehicles: bool,
                           from: DateField, to: DateField, confirmLongRange: bool,
                           apiAvailable: bool, fetch: seq<Call> -> Fetch)
      returns (report: Report)
      requires Valid()
      modifies this
      ensures Valid()
      ensures var gate := Gate(options, confirmManyVehicles, from, to, confirmLongRange);
              gate.Some? ==>
                && report == gate.value
                && dataCache == Trimmed(old(dataCache), old(cacheOrder))
                && cacheOrder == Newest(old(cacheOrder), MAX_CACHED)
                && lastHeatmapPoints == [] && processingStats == Stats(0, 0, 0)
      ensures var gate := Gate(options, confirmManyVehicles, from, to, confirmLongRange);
              var cache := Trimmed(old(dataCache), old(cacheOrder));
              var order := Newest(old(cacheOrder), MAX_CACHED);
              var vehicles := SelectedIdsOrText(options);
              var config := LocationConfig(from, to);
              var outcome := CachedOutcome(cache, vehicles, config, apiAvailable, fetch);
              gate.None? && (rules.NoRuleList? || rules.disabled) ==>
                && report == LocationReport(outcome)
                && dataCache == CacheAfter(cache, vehicles, config, outcome)
                && cacheOrder == OrderAfter(cache, order, vehicles, config, outcome)
                && lastHeatmapPoints == (if HasResults(outcome) then LocationPoints(outcome.results) else [])
                && processingStats
                     == Stats(|vehicles|, 0, if HasResults(outcome) then |LocationPoints(outcome.results)| else 0)
      ensures var gate := Gate(options, confirmManyVehicles, from, to, confirmLongRange);
              gate.None? && rules.RuleList? && !rules.disabled && rules.chosen.None? ==>
                && report == NoExceptionType
                && dataCache == Trimmed(old(dataCache), old(cacheOrder))
                && cacheOrder == Newest(old(cacheOrder), MAX_CACHED)
                && lastHeatmapPoints == [] && processingStats == Stats(0, 0, 0)
      ensures var gate := Gate(options, confirmManyVehicles, from, to, confirmLongRange);
              var cache := Trimmed(old(dataCache), old(cacheOrder));
              var order := Newest(old(cacheOrder), MAX_CACHED);
              var vehicles := SelectedIdsOrText(options);
              gate.None? && rules.RuleList? && !rules.disabled && rules.chosen.Some? ==>
                var config := ExceptionConfig(rules.chosen.value.value, from, to);
                var outcome := CachedOutcome(cache, vehicles, config, apiAvailable, fetch);
                && report == ExceptionReport(outcome, fetch)
                && dataCache == CacheAfter(cache, vehicles, config, outcome)
                && cacheOrder == OrderAfter(cache, order, vehicles, config, outcome)
                && lastHeatmapPoints == (if ReachesLogResults(outcome, fetch) then ExceptionPoints(outcome, fetch) else [])
                && processingStats == Stats(0, 0, 0)
    {
      ClearPreviousData();
      var selection := ValidateVehicleSelection(options, confirmManyVehicles);
      if !selection.Selected? {
        return SelectionRefused(selection);
      }
      var dates := ValidateDateRange(from, to, confirmLongRange);
      if dates != DatesAccepted {
        return DatesRefused(dates);
      }
      if rules.NoRuleList? || rules.disabled {
        report := OptimizedLocationSearch(options, from, to, apiAvailable, fetch);
      } else {
        report := OptimizedExceptionSearch(options, rules.chosen, from, to, apiAvailable, fetch);
      }
    }
  }

  lemma {:induction false} DistinctRemove(order: seq<string>, key: string)
    requires Distinct(order)
    ensures Distinct(RemoveKey(order, key))
    decreases |order|
  {
    if order != [] {
      var init := order[..|order| - 1];
      var last := order[|order| - 1];
      DistinctRemove(init, key);
      assert forall i :: 0 <= i < |init| ==> init[i] == order[i];
      assert last !in init;
      var kept := RemoveKey(init, key);
      assert last !in kept;
      assert forall i :: 0 <= i < |kept| ==> kept[i] in kept;
    }
  }
}
