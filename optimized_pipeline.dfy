/** The request and data-shaping rules of the optimized add-in (dist/heatmap_optimized.js)
    that do not touch its module state: the cache key, display sampling, the chunk and
    batch runs over the API, exception follow-up calls, record aggregation, the
    validation gates and the CSV export. */
module OptimizedPipeline {
  import opened Common
  import opened Text

  const RECORDS_PER_VEHICLE: nat := 5000      // `I`
  const MAX_VEHICLES_WARNING: nat := 10
  const MAX_DISPLAY_POINTS: nat := 3000
  const CHUNK_SIZE: nat := 3
  const MAX_TOTAL_RECORDS: nat := 15000
  const EXCEPTION_RESULTS_LIMIT: nat := 2000  // `Math.min(I, 2000)`
  const MAX_EXCEPTIONS: nat := 1000
  const LOG_RESULTS_LIMIT: nat := 50
  const BATCH_SIZE: nat := 10
  const HOUR_MS: nat := 3600000
  const LONG_RANGE_HOURS: nat := 168

  // ---- getCacheKey ----

  /** `ruleId || 'location'`: a missing or empty rule id reads as `location`. */
  function RuleKey(ruleId: Option<string>): string
  {
    if ruleId.Some? && ruleId.value != "" then ruleId.value else "location"
  }

  /** The key `getCacheKey` builds: the sorted vehicle ids joined by commas, the date range
      and the rule. */
  function CacheKey(vehicles: seq<string>, fromDate: string, toDate: string, ruleId: Option<string>): (key: string)
    ensures Join(SortStrings(vehicles), ",") + "_" + fromDate + "|" + toDate + "_" <= key
    ensures ruleId.None? || ruleId.value == "" ==> |key| >= 9 && key[|key| - 9..] == "_location"
    ensures ruleId.Some? && ruleId.value != "" ==>
              |key| > |ruleId.value| && key[|key| - |ruleId.value| - 1..] == "_" + ruleId.value
  {
    var ids := Join(SortStrings(vehicles), ",") + "_" + (fromDate + "|" + toDate);
    var rule := "_" + RuleKey(ruleId);
    Concat(ids + "_", RuleKey(ruleId));
    Concat(ids, rule);
    ids + rule
  }

  /** The key does not depend on the order in which the vehicles were selected. */
  lemma CacheKeyOrderIndependent(a: seq<string>, b: seq<string>, fromDate: string, toDate: string, ruleId: Option<string>)
    requires multiset(a) == multiset(b)
    ensures CacheKey(a, fromDate, toDate, ruleId) == CacheKey(b, fromDate, toDate, ruleId)
  {
    SortStringsOrderIndependent(a, b);
  }

  /** `getCacheKey(vehicles, fromDate, toDate, ruleId)`: `vehicles.sort()` reorders the
      caller's array in place before it is joined into the key. */
  method GetCacheKey(vehicles: array<string>, fromDate: string, toDate: string, ruleId: Option<string>)
    returns (key: string)
    modifies vehicles
    ensures vehicles[..] == SortStrings(old(vehicles[..]))
    ensures multiset(vehicles[..]) == multiset(old(vehicles[..])) && Sorted(vehicles[..])
    ensures key == CacheKey(old(vehicles[..]), fromDate, toDate, ruleId)
  {
    var sorted := SortStrings(vehicles[..]);
    SortStringsSorts(vehicles[..]);
    forall i | 0 <= i < vehicles.Length {
      vehicles[i] := sorted[i];
    }
    assert vehicles[..] == sorted;
    var vehicleKey := Join(vehicles[..], ",");
    var dateKey := fromDate + "|" + toDate;
    var ruleKey := RuleKey(ruleId);
    key := vehicleKey + "_" + dateKey + "_" + ruleKey;
  }

  // ---- optimizeDataForDisplay ----

  /** Every `stride`-th point, starting with the first. */
  function Sampled<T>(points: seq<T>, stride: nat): seq<T>
    requires stride > 0
    decreases |points|
  {
    if points == [] then [] else [points[0]] + Sampled(points[Min(stride, |points|)..], stride)
  }

  lemma {:induction false} SampledLength<T>(points: seq<T>, stride: nat)
    requires stride > 0
    ensures |Sampled(points, stride)| == CeilDiv(|points|, stride)
    decreases |points|
  {
    if points != [] {
      SampledLength(points[Min(stride, |points|)..], stride);
    }
  }

  /** Sampled point `k` is input point `k * stride`. */
  lemma {:induction false} SampledAt<T>(points: seq<T>, stride: nat, k: nat)
    requires stride > 0 && k < |Sampled(points, stride)|
    ensures k * stride < |points| && Sampled(points, stride)[k] == points[k * stride]
    decreases k
  {
    if k > 0 {
      var rest := points[Min(stride, |points|)..];
      assert Sampled(points, stride)[k] == Sampled(rest, stride)[k - 1];
      SampledAt(rest, stride, k - 1);
      assert (k - 1) * stride + stride == k * stride;
    }
  }

  lemma SampledIndices<T>(points: seq<T>, stride: nat)
    requires stride > 0
    ensures forall k :: 0 <= k < |Sampled(points, stride)| ==>
              k * stride < |points| && Sampled(points, stride)[k] == points[k * stride]
  {
    forall k | 0 <= k < |Sampled(points, stride)|
      ensures k * stride < |points| && Sampled(points, stride)[k] == points[k * stride]
    {
      SampledAt(points, stride, k);
    }
  }

  lemma MulMonotone(a: nat, b: nat, k: nat)
    requires a >= b
    ensures a * k >= b * k
  {
  }

  /** With stride `ceil(n / 3000)` at most 3000 points are kept. */
  lemma SampledFits(n: nat)
    requires n > MAX_DISPLAY_POINTS
    ensures CeilDiv(n, MAX_DISPLAY_POINTS) > 0
    ensures CeilDiv(n, CeilDiv(n, MAX_DISPLAY_POINTS)) <= MAX_DISPLAY_POINTS
  {
    var s := CeilDiv(n, MAX_DISPLAY_POINTS);
    var c := CeilDiv(n, s);
    if c > MAX_DISPLAY_POINTS {
      MulMonotone(c - 1, MAX_DISPLAY_POINTS, s);
    }
  }

  /** How many points `optimizeDataForDisplay` keeps out of `n`. */
  function DisplayedCount(n: nat): (d: nat)
    ensures d <= n && d <= MAX_DISPLAY_POINTS && (n > 0 ==> d > 0)
  {
    if n <= MAX_DISPLAY_POINTS then n
    else
      SampledFits(n);
      CeilDiv(n, CeilDiv(n, MAX_DISPLAY_POINTS))
  }

  /** One round of the sampling loop keeps the point at `i` and moves on by `stride`. */
  lemma SampledStep<T>(points: seq<T>, stride: nat, i: nat, sampled: seq<T>)
    requires stride > 0 && i < |points|
    requires Sampled(points, stride) == sampled + Sampled(points[Min(i, |points|)..], stride)
    ensures Sampled(points, stride) == sampled + [points[i]] + Sampled(points[Min(i + stride, |points|)..], stride)
  {
    var rest := Sampled(points[Min(i + stride, |points|)..], stride);
    assert points[Min(i, |points|)..] == points[i..];
    assert points[i..][Min(stride, |points| - i)..] == points[Min(i + stride, |points|)..];
    assert Sampled(points[i..], stride) == [points[i]] + rest;
    assert sampled + ([points[i]] + rest) == sampled + [points[i]] + rest;
  }

  /** `optimizeDataForDisplay(points)`: at most 3000 points come back unchanged; more are
      thinned to every `ceil(n / 3000)`-th point. */
  method OptimizeDataForDisplay<T>(points: seq<T>) returns (displayPoints: seq<T>)
    ensures |points| <= MAX_DISPLAY_POINTS ==> displayPoints == points
    ensures |displayPoints| == DisplayedCount(|points|) <= MAX_DISPLAY_POINTS
    ensures |points| > 0 ==> displayPoints[0] == points[0]
    ensures |points| > MAX_DISPLAY_POINTS ==>
      var stride := CeilDiv(|points|, MAX_DISPLAY_POINTS);
      forall k :: 0 <= k < |displayPoints| ==> k * stride < |points| && displayPoints[k] == points[k * stride]
  {
    displayPoints := points;
    if |points| > MAX_DISPLAY_POINTS {
      SampledFits(|points|);
      var sampleRate := CeilDiv(|points|, MAX_DISPLAY_POINTS);
      displayPoints := SampleEvery(points, sampleRate);
      SampledLength(points, sampleRate);
      SampledIndices(points, sampleRate);
    }
  }

  /** The sampling loop `for (i = 0; i < points.length; i += sampleRate)`. */
  method SampleEvery<T>(points: seq<T>, sampleRate: nat) returns (sampled: seq<T>)
    requires sampleRate > 0
    ensures sampled == Sampled(points, sampleRate)
  {
    sampled := [];
    var i := 0;
    assert points[Min(i, |points|)..] == points;
    while i < |points|
      invariant Sampled(points, sampleRate) == sampled + Sampled(points[Min(i, |points|)..], sampleRate)
      decreases |points| - i
    {
      SampledStep(points, sampleRate, i, sampled);
      sampled := sampled + [points[i]];
      i := i + sampleRate;
    }
    assert points[Min(i, |points|)..] == [];
  }

  // ---- processVehiclesInChunks / processLogBatch: sequential runs of multiCall batches ----

  /** How a run of batches ends: all results, the API missing, or the 1-based batch that failed. */
  datatype Outcome =
    | Delivered(results: seq<seq<Entity>>)
    | ApiUnavailable
    | BatchFailed(batch: nat, error: string)

  /** The outcome together with the batches actually sent. */
  datatype Run = Run(outcome: Outcome, sent: seq<seq<Call>>)

  /** A run that follows `done` batches that already delivered `acc` and sent `before`. */
  function After(acc: seq<seq<Entity>>, before: seq<seq<Call>>, done: nat, run: Run): Run
  {
    Run(match run.outcome
          case Delivered(more) => Delivered(acc + more)
          case BatchFailed(k, e) => BatchFailed(done + k, e)
          case ApiUnavailable => ApiUnavailable,
        before + run.sent)
  }

  /** Send the batches one after the other, concatenating their results, and stop at the
      first error. */
  function RunBatches(batches: seq<seq<Call>>, fetch: seq<Call> -> Fetch): Run
    decreases |batches|
  {
    if batches == [] then Run(Delivered([]), [])
    else match fetch(batches[0])
      case FetchFailed(e) => Run(BatchFailed(1, e), [batches[0]])
      case Fetched(lists) => After(lists, [batches[0]], 1, RunBatches(batches[1..], fetch))
  }

  /** The result lists each batch delivers (none for a failed batch), in batch order. */
  function FetchedLists(batches: seq<seq<Call>>, fetch: seq<Call> -> Fetch): (all: seq<seq<seq<Entity>>>)
    ensures |all| == |batches|
  {
    if batches == [] then []
    else [match fetch(batches[0]) case Fetched(l) => l case FetchFailed(_) => []] + FetchedLists(batches[1..], fetch)
  }

  /** When every batch succeeds, all batches are sent and the result is their results
      concatenated in batch order. */
  lemma {:induction false} RunBatchesAllDelivered(batches: seq<seq<Call>>, fetch: seq<Call> -> Fetch)
    requires forall i :: 0 <= i < |batches| ==> fetch(batches[i]).Fetched?
    ensures RunBatches(batches, fetch) == Run(Delivered(Flatten(FetchedLists(batches, fetch))), batches)
    decreases |batches|
  {
    if batches != [] {
      RunBatchesAllDelivered(batches[1..], fetch);
      FlattenCons(fetch(batches[0]).lists, FetchedLists(batches[1..], fetch));
      assert [batches[0]] + batches[1..] == batches;
    }
  }

  /** When batch `k` (0-based) is the first to fail, exactly batches `0..k` were sent and the
      run reports batch `k + 1` with its error. */
  lemma {:induction false} RunBatchesFirstFailure(batches: seq<seq<Call>>, fetch: seq<Call> -> Fetch, k: nat)
    requires k < |batches| && fetch(batches[k]).FetchFailed?
    requires forall i :: 0 <= i < k ==> fetch(batches[i]).Fetched?
    ensures RunBatches(batches, fetch) == Run(BatchFailed(k + 1, fetch(batches[k]).error), batches[..k + 1])
    decreases k
  {
    if k > 0 {
      RunBatchesFirstFailure(batches[1..], fetch, k - 1);
      assert [batches[0]] + batches[1..][..k] == batches[..k + 1];
    }
  }

  lemma AfterAfter(acc: seq<seq<Entity>>, before: seq<seq<Call>>, done: nat,
                   lists: seq<seq<Entity>>, batch: seq<Call>, run: Run)
    ensures After(acc, before, done, After(lists, [batch], 1, run))
         == After(acc + lists, before + [batch], done + 1, run)
  {
    assert before + ([batch] + run.sent) == before + [batch] + run.sent;
    match run.outcome
    case Delivered(more) =>
      assert acc + (lists + more) == acc + lists + more;
    case _ =>
  }

  /** The `multiCall` batches `processVehiclesInChunks` sends: one per chunk of three vehicles. */
  function VehicleBatches(vehicles: seq<string>, config: Query): seq<seq<Call>>
    decreases |vehicles|
  {
    if vehicles == [] then []
    else
      var k := Min(CHUNK_SIZE, |vehicles|);
      [CallsFor(vehicles[..k], config)] + VehicleBatches(vehicles[k..], config)
  }

  /** Batch `c` holds one call per vehicle of chunk `c`; together the batches hold one call
      per vehicle, in order; there are `ceil(n / 3)` of them. */
  lemma {:induction false} VehicleBatchesShape(vehicles: seq<string>, config: Query)
    ensures |VehicleBatches(vehicles, config)| == |Chunks(vehicles, CHUNK_SIZE)| == CeilDiv(|vehicles|, CHUNK_SIZE)
    ensures forall c :: 0 <= c < |VehicleBatches(vehicles, config)| ==>
              VehicleBatches(vehicles, config)[c] == CallsFor(Chunks(vehicles, CHUNK_SIZE)[c], config)
    ensures Flatten(VehicleBatches(vehicles, config)) == CallsFor(vehicles, config)
    decreases |vehicles|
  {
    ChunksCount(vehicles, CHUNK_SIZE);
    if vehicles != [] {
      var k := Min(CHUNK_SIZE, |vehicles|);
      VehicleBatchesShape(vehicles[k..], config);
      FlattenCons(CallsFor(vehicles[..k], config), VehicleBatches(vehicles[k..], config));
      assert CallsFor(vehicles, config) == CallsFor(vehicles[..k], config) + CallsFor(vehicles[k..], config);
    }
  }

  /** What `processVehiclesInChunks` does on a cache miss: nothing to send for no vehicles,
      an error when the API object is missing, and otherwise the chunk batches in turn. */
  function ChunkedRun(vehicles: seq<string>, config: Query, apiAvailable: bool, fetch: seq<Call> -> Fetch): Run
  {
    if vehicles == [] then Run(Delivered([]), [])
    else if !apiAvailable then Run(ApiUnavailable, [])
    else RunBatches(VehicleBatches(vehicles, config), fetch)
  }

  /** One chunk step: the first three vehicles' batch is sent, then the rest follows. */
  lemma ChunkedRunStep(vehicles: seq<string>, config: Query, fetch: seq<Call> -> Fetch, endIndex: nat)
    requires vehicles != [] && endIndex == Min(CHUNK_SIZE, |vehicles|)
    ensures ChunkedRun(vehicles, config, true, fetch)
         == match fetch(CallsFor(vehicles[..endIndex], config))
            case FetchFailed(e) => Run(BatchFailed(1, e), [CallsFor(vehicles[..endIndex], config)])
            case Fetched(l) => After(l, [CallsFor(vehicles[..endIndex], config)], 1,
                                     ChunkedRun(vehicles[endIndex..], config, true, fetch))
  {
    var batches := VehicleBatches(vehicles, config);
    assert batches[0] == CallsFor(vehicles[..endIndex], config);
    assert batches[1..] == VehicleBatches(vehicles[endIndex..], config);
  }

  /** The calls built for one chunk: a deep copy of the config per vehicle with its device. */
  method ChunkCalls(chunkVehicles: seq<string>, config: Query) returns (calls: seq<Call>)
    ensures calls == CallsFor(chunkVehicles, config)
  {
    calls := [];
    var i := 0;
    while i < |chunkVehicles|
      invariant 0 <= i <= |chunkVehicles|
      invariant calls == CallsFor(chunkVehicles[..i], config)
    {
      calls := calls + [Get(WithDevice(config, chunkVehicles[i]))];
      i := i + 1;
    }
  }

  /** `processNextChunk`: send the chunk of up to three vehicles starting at `currentIndex`;
      on success the function schedules itself for the next chunk, past the last vehicle it
      hands the results on, and on an error or a missing API it stops. `done` counts the
      chunks already delivered. */
  method ProcessNextChunk(vehicles: seq<string>, config: Query, apiAvailable: bool, fetch: seq<Call> -> Fetch,
                          currentIndex: nat, allResults: seq<seq<Entity>>, sent0: seq<seq<Call>>, ghost done: nat)
    returns (outcome: Outcome, sent: seq<seq<Call>>)
    requires currentIndex <= |vehicles|
    requires currentIndex < |vehicles| ==> currentIndex == CHUNK_SIZE * done
    requires currentIndex > 0 ==> apiAvailable
    ensures Run(outcome, sent)
         == After(allResults, sent0, done, ChunkedRun(vehicles[currentIndex..], config, apiAvailable, fetch))
    decreases |vehicles| - currentIndex
  {
    if currentIndex >= |vehicles| {
      assert vehicles[currentIndex..] == [];
      assert allResults + [] == allResults && sent0 + [] == sent0;
      return Delivered(allResults), sent0;
    }
    var endIndex := Min(currentIndex + CHUNK_SIZE, |vehicles|);
    var chunkVehicles := vehicles[currentIndex..endIndex];
    var chunkNumber := currentIndex / CHUNK_SIZE + 1;
    assert chunkNumber == done + 1;
    var calls := ChunkCalls(chunkVehicles, config);
    if !apiAvailable {
      assert sent0 + [] == sent0;
      return ApiUnavailable, sent0;
    }
    ghost var rest := vehicles[currentIndex..];
    assert rest[..Min(CHUNK_SIZE, |rest|)] == chunkVehicles;
    assert rest[Min(CHUNK_SIZE, |rest|)..] == vehicles[endIndex..];
    ChunkedRunStep(rest, config, fetch, Min(CHUNK_SIZE, |rest|));
    match fetch(calls)
    case FetchFailed(e) =>
      return BatchFailed(chunkNumber, e), sent0 + [calls];
    case Fetched(chunkResults) =>
      AfterAfter(allResults, sent0, done, chunkResults, calls,
                 ChunkedRun(vehicles[endIndex..], config, apiAvailable, fetch));
      outcome, sent := ProcessNextChunk(vehicles, config, apiAvailable, fetch,
                                        endIndex, allResults + chunkResults, sent0 + [calls], done + 1);
  }

  /** The chunk run of `processVehiclesInChunks` over vehicles already sorted by `getCacheKey`,
      starting from the first vehicle. */
  method RunVehicleChunks(vehicles: seq<string>, config: Query, apiAvailable: bool, fetch: seq<Call> -> Fetch)
    returns (outcome: Outcome, sent: seq<seq<Call>>)
    ensures Run(outcome, sent) == ChunkedRun(vehicles, config, apiAvailable, fetch)
  {
    outcome, sent := ProcessNextChunk(vehicles, config, apiAvailable, fetch, 0, [], [], 0);
    assert vehicles[0..] == vehicles;
    AfterNothing(ChunkedRun(vehicles, config, apiAvailable, fetch));
  }

  lemma ChunksFrom<T>(s: seq<T>, size: nat, start: nat)
    requires size > 0 && start < |s|
    ensures Chunks(s[start..], size)
         == [s[start..Min(start + size, |s|)]] + Chunks(s[Min(start + size, |s|)..], size)
  {
    var rest := s[start..];
    assert rest[..Min(size, |rest|)] == s[start..Min(start + size, |s|)];
    assert rest[Min(size, |rest|)..] == s[Min(start + size, |s|)..];
  }

  /** The follow-up batch `done` of `calls` (possibly empty, once past the end). */
  function BatchAt(calls: seq<Call>, done: nat): seq<Call>
    requires done * BATCH_SIZE <= |calls|
  {
    calls[done * BATCH_SIZE..Min(done * BATCH_SIZE + BATCH_SIZE, |calls|)]
  }

  /** What the whole run amounts to once `done` batches delivered `acc` after sending `sent`. */
  function Resume(calls: seq<Call>, fetch: seq<Call> -> Fetch, acc: seq<seq<Entity>>,
                  sent: seq<seq<Call>>, done: nat): Run
    requires done * BATCH_SIZE <= |calls|
  {
    After(acc, sent, done, RunBatches(Chunks(calls[done * BATCH_SIZE..], BATCH_SIZE), fetch))
  }

  /** Nothing left to send: the run so far is the whole run. */
  lemma NothingLeftStep(calls: seq<Call>, fetch: seq<Call> -> Fetch,
                        acc: seq<seq<Entity>>, sent: seq<seq<Call>>, done: nat)
    requires done * BATCH_SIZE <= |calls| && BatchAt(calls, done) == []
    ensures Resume(calls, fetch, acc, sent, done) == Run(Delivered(acc), sent)
  {
    assert calls[done * BATCH_SIZE..] == [];
    assert acc + [] == acc && sent + [] == sent;
  }

  /** The next batch fails: the run ends there, reporting that batch. */
  lemma FailedStep(calls: seq<Call>, fetch: seq<Call> -> Fetch,
                   acc: seq<seq<Entity>>, sent: seq<seq<Call>>, done: nat, e: string)
    requires done * BATCH_SIZE <= |calls| && BatchAt(calls, done) != []
    requires fetch(BatchAt(calls, done)) == FetchFailed(e)
    ensures Resume(calls, fetch, acc, sent, done) == Run(BatchFailed(done + 1, e), sent + [BatchAt(calls, done)])
  {
    ChunksFrom(calls, BATCH_SIZE, done * BATCH_SIZE);
  }

  /** The next batch delivers: its results and calls join the run so far. */
  lemma DeliveredStep(calls: seq<Call>, fetch: seq<Call> -> Fetch,
                      acc: seq<seq<Entity>>, sent: seq<seq<Call>>, done: nat, lists: seq<seq<Entity>>)
    requires done * BATCH_SIZE <= |calls| && BatchAt(calls, done) != []
    requires fetch(BatchAt(calls, done)) == Fetched(lists)
    ensures (done + 1) * BATCH_SIZE <= |calls| ==>
              Resume(calls, fetch, acc, sent, done)
              == Resume(calls, fetch, acc + lists, sent + [BatchAt(calls, done)], done + 1)
    ensures (done + 1) * BATCH_SIZE > |calls| ==>
              Resume(calls, fetch, acc, sent, done) == Run(Delivered(acc + lists), sent + [BatchAt(calls, done)])
  {
    var start := done * BATCH_SIZE;
    var end := Min(start + BATCH_SIZE, |calls|);
    ChunksFrom(calls, BATCH_SIZE, start);
    AfterAfter(acc, sent, done, lists, calls[start..end], RunBatches(Chunks(calls[end..], BATCH_SIZE), fetch));
    if (done + 1) * BATCH_SIZE > |calls| {
      assert end == |calls| && calls[end..] == [];
      assert acc + lists + [] == acc + lists;
      assert sent + [calls[start..end]] + [] == sent + [calls[start..end]];
    }
  }

  /** Nothing delivered or sent before: the run is unchanged. */
  lemma AfterNothing(run: Run)
    ensures After([], [], 0, run) == run
  {
    assert [] + run.sent == run.sent;
    match run.outcome
    case Delivered(more) => assert [] + more == more;
    case _ =>
  }

  lemma NextBatchStart(done: nat)
    ensures (done + 1) * BATCH_SIZE == done * BATCH_SIZE + BATCH_SIZE
  {
  }

  /** `processLogBatch`: send batch `currentBatch` of ten follow-up calls; on success the
      function schedules itself for the next batch, on an empty batch it hands the results
      on, and on an error it stops. */
  method ProcessLogBatch(logRecordCalls: seq<Call>, fetch: seq<Call> -> Fetch, currentBatch: nat,
                         allLogResults: seq<seq<Entity>>, sent0: seq<seq<Call>>)
    returns (outcome: Outcome, sent: seq<seq<Call>>)
    requires currentBatch * BATCH_SIZE <= |logRecordCalls|
    ensures Run(outcome, sent) == Resume(logRecordCalls, fetch, allLogResults, sent0, currentBatch)
    decreases |logRecordCalls| - currentBatch * BATCH_SIZE
  {
    var start := currentBatch * BATCH_SIZE;
    var end := Min(start + BATCH_SIZE, |logRecordCalls|);
    var batchCalls := logRecordCalls[start..end];
    assert batchCalls == BatchAt(logRecordCalls, currentBatch);
    if |batchCalls| == 0 {
      NothingLeftStep(logRecordCalls, fetch, allLogResults, sent0, currentBatch);
      return Delivered(allLogResults), sent0;
    }
    match fetch(batchCalls)
    case FetchFailed(e) =>
      FailedStep(logRecordCalls, fetch, allLogResults, sent0, currentBatch, e);
      return BatchFailed(currentBatch + 1, e), sent0 + [batchCalls];
    case Fetched(batchResults) =>
      DeliveredStep(logRecordCalls, fetch, allLogResults, sent0, currentBatch, batchResults);
      if (currentBatch + 1) * BATCH_SIZE > |logRecordCalls| {
        // the next slice starts past the end, so the next round finds it empty
        return Delivered(allLogResults + batchResults), sent0 + [batchCalls];
      }
      NextBatchStart(currentBatch);
      outcome, sent := ProcessLogBatch(logRecordCalls, fetch, currentBatch + 1,
                                       allLogResults + batchResults, sent0 + [batchCalls]);
  }

  /** The follow-up calls go out in consecutive batches of ten, starting from batch 0. */
  method ProcessLogBatches(logRecordCalls: seq<Call>, fetch: seq<Call> -> Fetch)
    returns (outcome: Outcome, sent: seq<seq<Call>>)
    ensures Run(outcome, sent) == RunBatches(Chunks(logRecordCalls, BATCH_SIZE), fetch)
  {
    outcome, sent := ProcessLogBatch(logRecordCalls, fetch, 0, [], []);
    assert logRecordCalls[0..] == logRecordCalls;
    AfterNothing(RunBatches(Chunks(logRecordCalls, BATCH_SIZE), fetch));
  }

  /** At most 1000 follow-up calls make at most 100 batches. */
  lemma LogBatchCount(logRecordCalls: seq<Call>)
    requires |logRecordCalls| <= MAX_EXCEPTIONS
    ensures |Chunks(logRecordCalls, BATCH_SIZE)| == CeilDiv(|logRecordCalls|, BATCH_SIZE) <= 100
    ensures forall c :: c in Chunks(logRecordCalls, BATCH_SIZE) ==> 0 < |c| <= BATCH_SIZE
    ensures Flatten(Chunks(logRecordCalls, BATCH_SIZE)) == logRecordCalls
  {
    ChunksCount(logRecordCalls, BATCH_SIZE);
    ChunksBounded(logRecordCalls, BATCH_SIZE);
    ChunksConcatenate(logRecordCalls, BATCH_SIZE);
  }

  // ---- exception follow-up calls ----

  /** The `LogRecord` query sent for one exception: its device over its active interval. */
  function FollowUp(exc: Entity): Call
  {
    Get(Query("LogRecord", LOG_RESULTS_LIMIT,
              Search(Some(exc.deviceId), None, None, exc.activeFrom, exc.activeTo)))
  }

  /** The follow-up calls for the exceptions that carry a device id, in order. */
  function FollowUps(exceptions: seq<Entity>): (calls: seq<Call>)
    ensures |calls| <= |exceptions|
    ensures forall c :: c in calls ==>
              c.query.search.deviceId.Some? && c.query.search.deviceId.value != ""
  {
    if exceptions == [] then []
    else
      var exc := exceptions[|exceptions| - 1];
      FollowUps(exceptions[..|exceptions| - 1]) + (if exc.deviceId != "" then [FollowUp(exc)] else [])
  }

  lemma {:induction false} FollowUpsConcat(a: seq<Entity>, b: seq<Entity>)
    ensures FollowUps(a + b) == FollowUps(a) + FollowUps(b)
    decreases |b|
  {
    if b == [] {
      assert a + b == a;
    } else {
      assert (a + b)[..|a + b| - 1] == a + b[..|b| - 1];
      FollowUpsConcat(a, b[..|b| - 1]);
    }
  }

  lemma FollowUpsSnoc(a: seq<Entity>, exc: Entity)
    ensures FollowUps(a + [exc]) == FollowUps(a) + (if exc.deviceId != "" then [FollowUp(exc)] else [])
  {
    assert (a + [exc])[..|a|] == a;
  }

  /** One more exception appends its call, if it has a device. */
  lemma FollowUpsStep(before: seq<Entity>, exceptions: seq<Entity>, j: nat)
    requires j < |exceptions|
    ensures FollowUps(before + exceptions[..j + 1])
         == FollowUps(before + exceptions[..j]) + (if exceptions[j].deviceId != "" then [FollowUp(exceptions[j])] else [])
  {
    assert before + exceptions[..j + 1] == before + exceptions[..j] + [exceptions[j]];
    FollowUpsSnoc(before + exceptions[..j], exceptions[j]);
  }

  /** Below the cap, one more exception appends its call, if it has a device. */
  lemma FollowUpsRowStep(before: seq<Entity>, exceptions: seq<Entity>, j: nat, cap: nat)
    requires j < |exceptions|
    requires |Take(FollowUps(before + exceptions[..j]), cap)| < cap
    ensures Take(FollowUps(before + exceptions[..j + 1]), cap)
         == Take(FollowUps(before + exceptions[..j]), cap)
            + (if exceptions[j].deviceId != "" then [FollowUp(exceptions[j])] else [])
  {
    var exc := exceptions[j];
    FollowUpsStep(before, exceptions, j);
    TakeAppend(FollowUps(before + exceptions[..j]), if exc.deviceId != "" then [FollowUp(exc)] else [], cap);
  }

  /** The inner loop stopped either at the end of the list or with the cap reached; either
      way the capped calls are those of the whole list. */
  lemma FollowUpsRowDone(before: seq<Entity>, exceptions: seq<Entity>, j: nat, cap: nat)
    requires j <= |exceptions|
    requires j < |exceptions| ==> |FollowUps(before + exceptions[..j])| >= cap
    ensures Take(FollowUps(before + exceptions[..j]), cap) == Take(FollowUps(before + exceptions), cap)
  {
    if j < |exceptions| {
      assert before + exceptions[..j] + exceptions[j..] == before + exceptions;
      FollowUpsConcat(before + exceptions[..j], exceptions[j..]);
      TakeOfLonger(FollowUps(before + exceptions[..j]), FollowUps(before + exceptions), cap);
    } else {
      assert exceptions[..j] == exceptions;
    }
  }

  /** The inner loop over one vehicle's exceptions: a call per exception with a device id,
      until 1000 calls have been collected in all. */
  method CollectExceptionCalls(ghost before: seq<Entity>, exceptions: seq<Entity>,
                               calls0: seq<Call>, total0: nat)
    returns (logRecordCalls: seq<Call>, totalExceptions: nat)
    requires calls0 == Take(FollowUps(before), MAX_EXCEPTIONS) && total0 == |calls0|
    ensures logRecordCalls == Take(FollowUps(before + exceptions), MAX_EXCEPTIONS)
    ensures totalExceptions == |logRecordCalls|
  {
    logRecordCalls, totalExceptions := calls0, total0;
    var j := 0;
    assert before + exceptions[..j] == before;
    while j < |exceptions| && totalExceptions < MAX_EXCEPTIONS
      invariant 0 <= j <= |exceptions|
      invariant logRecordCalls == Take(FollowUps(before + exceptions[..j]), MAX_EXCEPTIONS)
      invariant totalExceptions == |logRecordCalls|
    {
      var exc := exceptions[j];
      FollowUpsRowStep(before, exceptions, j, MAX_EXCEPTIONS);
      if exc.deviceId != "" {
        totalExceptions := totalExceptions + 1;
        logRecordCalls := logRecordCalls + [FollowUp(exc)];
      }
      j := j + 1;
    }
    FollowUpsRowDone(before, exceptions, j, MAX_EXCEPTIONS);
  }

  /** The collection loop of `optimizedExceptionSearch`: one call per exception with a device
      id, stopping at 1000; the per-vehicle limit counter looks at every list. */
  method CollectLogRecordCalls(exceptionResults: seq<seq<Entity>>)
    returns (logRecordCalls: seq<Call>, totalExceptions: nat, exceededExceptionLimit: nat)
    ensures logRecordCalls == Take(FollowUps(Flatten(exceptionResults)), MAX_EXCEPTIONS)
    ensures totalExceptions == |logRecordCalls| <= MAX_EXCEPTIONS
    ensures exceededExceptionLimit == CountAtLeast(exceptionResults, EXCEPTION_RESULTS_LIMIT)
  {
    logRecordCalls, totalExceptions, exceededExceptionLimit := [], 0, 0;
    var i := 0;
    while i < |exceptionResults|
      invariant 0 <= i <= |exceptionResults|
      invariant logRecordCalls == Take(FollowUps(Flatten(exceptionResults[..i])), MAX_EXCEPTIONS)
      invariant totalExceptions == |logRecordCalls|
      invariant exceededExceptionLimit == CountAtLeast(exceptionResults[..i], EXCEPTION_RESULTS_LIMIT)
    {
      var exceptions := exceptionResults[i];
      ghost var before := Flatten(exceptionResults[..i]);
      logRecordCalls, totalExceptions := CollectExceptionCalls(before, exceptions, logRecordCalls, totalExceptions);
      FlattenStep(exceptionResults, i);
      CountAtLeastStep(exceptionResults, i, EXCEPTION_RESULTS_LIMIT);
      if |exceptions| >= EXCEPTION_RESULTS_LIMIT {
        exceededExceptionLimit := exceededExceptionLimit + 1;
      }
      i := i + 1;
    }
    assert exceptionResults[..i] == exceptionResults;
  }

  // ---- record aggregation ----

  /** The optimized add-in keeps a record only when both coordinates are non-zero. */
  predicate HasFix(r: Entity) { r.latitude != 0 && r.longitude != 0 }


  /** One more record appends its point, if it has a fix. */
  lemma PlottedStep(before: seq<Entity>, records: seq<Entity>, j: nat)
    requires j < |records|
    ensures Plotted(before + records[..j + 1])
         == Plotted(before + records[..j]) + (if HasFix(records[j]) then [ToPoint(records[j])] else [])
  {
    assert before + records[..j + 1] == before + records[..j] + [records[j]];
    PlottedSnoc(before + records[..j], records[j]);
  }

  /** Below the cap, one more record appends its point, if it has a fix. */
  lemma PlottedRowStep(before: seq<Entity>, records: seq<Entity>, j: nat, cap: nat)
    requires j < |records|
    requires |Take(Plotted(before + records[..j]), cap)| < cap
    ensures Take(Plotted(before + records[..j + 1]), cap)
         == Take(Plotted(before + records[..j]), cap)
            + (if HasFix(records[j]) then [ToPoint(records[j])] else [])
  {
    var record := records[j];
    PlottedStep(before, records, j);
    TakeAppend(Plotted(before + records[..j]), if HasFix(record) then [ToPoint(record)] else [], cap);
  }

  /** The points of the records with both coordinates non-zero, in input order. */
  function Plotted(records: seq<Entity>): (points: seq<Point>)
    ensures |points| <= |records|
    ensures forall p :: p in points ==> p.lat != 0 && p.lon != 0
  {
    if records == [] then []
    else
      var r := records[|records| - 1];
      Plotted(records[..|records| - 1]) + (if HasFix(r) then [ToPoint(r)] else [])
  }

  lemma {:induction false} PlottedConcat(a: seq<Entity>, b: seq<Entity>)
    ensures Plotted(a + b) == Plotted(a) + Plotted(b)
    decreases |b|
  {
    if b == [] {
      assert a + b == a;
    } else {
      assert (a + b)[..|a + b| - 1] == a + b[..|b| - 1];
      PlottedConcat(a, b[..|b| - 1]);
    }
  }

  lemma PlottedSnoc(a: seq<Entity>, r: Entity)
    ensures Plotted(a + [r]) == Plotted(a) + (if HasFix(r) then [ToPoint(r)] else [])
  {
    assert (a + [r])[..|a|] == a;
  }

  lemma PlottedRowDone(before: seq<Entity>, records: seq<Entity>, j: nat, cap: nat)
    requires j <= |records|
    requires j < |records| ==> |Plotted(before + records[..j])| >= cap
    ensures Take(Plotted(before + records[..j]), cap) == Take(Plotted(before + records), cap)
  {
    if j < |records| {
      assert before + records[..j] + records[j..] == before + records;
      PlottedConcat(before + records[..j], records[j..]);
      TakeOfLonger(Plotted(before + records[..j]), Plotted(before + records), cap);
    } else {
      assert records[..j] == records;
    }
  }

  /** The location loop of `optimizedLocationSearch`: keep records with a fix, in order,
      until 15000 are taken; count the vehicles whose list reached the per-vehicle limit. */
  method AggregateLocations(allResults: seq<seq<Entity>>)
    returns (allPoints: seq<Point>, totalRecords: nat, exceededLimit: nat)
    ensures allPoints == Take(Plotted(Flatten(allResults)), MAX_TOTAL_RECORDS)
    ensures totalRecords == |allPoints| <= MAX_TOTAL_RECORDS
    ensures exceededLimit == CountAtLeast(allResults, RECORDS_PER_VEHICLE)
  {
    allPoints, totalRecords, exceededLimit := [], 0, 0;
    var i := 0;
    while i < |allResults|
      invariant 0 <= i <= |allResults|
      invariant allPoints == Take(Plotted(Flatten(allResults[..i])), MAX_TOTAL_RECORDS)
      invariant totalRecords == |allPoints|
      invariant exceededLimit == CountAtLeast(allResults[..i], RECORDS_PER_VEHICLE)
    {
      var records := allResults[i];
      ghost var before := Flatten(allResults[..i]);
      var j := 0;
      assert before + records[..j] == before;
      while j < |records| && totalRecords < MAX_TOTAL_RECORDS
        invariant 0 <= j <= |records|
        invariant allPoints == Take(Plotted(before + records[..j]), MAX_TOTAL_RECORDS)
        invariant totalRecords == |allPoints|
      {
        var record := records[j];
        PlottedRowStep(before, records, j, MAX_TOTAL_RECORDS);
        if record.latitude != 0 && record.longitude != 0 {
          allPoints := allPoints + [Point(record.latitude, record.longitude, record.dateTime)];
          totalRecords := totalRecords + 1;
        }
        j := j + 1;
      }
      FlattenStep(allResults, i);
      PlottedRowDone(before, records, j, MAX_TOTAL_RECORDS);
      CountAtLeastStep(allResults, i, RECORDS_PER_VEHICLE);
      if |records| >= RECORDS_PER_VEHICLE {
        exceededLimit := exceededLimit + 1;
      }
      i := i + 1;
    }
    assert allResults[..i] == allResults;
  }

  /** The loop of `processLogResults`: the same filter with no global cap; lists of 50 or
      more records count as having hit the per-exception limit. */
  method AggregateExceptionLogs(logResults: seq<seq<Entity>>)
    returns (allPoints: seq<Point>, totalRecords: nat, exceededLogLimit: nat)
    ensures allPoints == Plotted(Flatten(logResults))
    ensures totalRecords == |allPoints|
    ensures exceededLogLimit == CountAtLeast(logResults, LOG_RESULTS_LIMIT)
  {
    allPoints, totalRecords, exceededLogLimit := [], 0, 0;
    var i := 0;
    while i < |logResults|
      invariant 0 <= i <= |logResults|
      invariant allPoints == Plotted(Flatten(logResults[..i]))
      invariant totalRecords == |allPoints|
      invariant exceededLogLimit == CountAtLeast(logResults[..i], LOG_RESULTS_LIMIT)
    {
      var records := logResults[i];
      ghost var before := Flatten(logResults[..i]);
      var j := 0;
      assert before + records[..j] == before;
      while j < |records|
        invariant 0 <= j <= |records|
        invariant allPoints == Plotted(before + records[..j])
        invariant totalRecords == |allPoints|
      {
        var record := records[j];
        PlottedStep(before, records, j);
        if record.latitude != 0 && record.longitude != 0 {
          allPoints := allPoints + [Point(record.latitude, record.longitude, record.dateTime)];
          totalRecords := totalRecords + 1;
        }
        j := j + 1;
      }
      FlattenStep(logResults, i);
      assert records[..j] == records;
      CountAtLeastStep(logResults, i, LOG_RESULTS_LIMIT);
      if |records| >= LOG_RESULTS_LIMIT {
        exceededLogLimit := exceededLogLimit + 1;
      }
      i := i + 1;
    }
    assert logResults[..i] == logResults;
  }

  // ---- validation gates ----

  datatype Selection = NoVehicleSelected | ManyVehiclesDeclined | Selected(count: nat)

  /** `validateVehicleSelection`: nothing selected is an error; more than ten asks the user,
      whose answer is `confirmed`; otherwise the count goes on. */
  method ValidateVehicleSelection(options: seq<SelectOption>, confirmed: bool) returns (r: Selection)
    ensures r.Selected? <==> 0 < NumSelected(options) && (NumSelected(options) > MAX_VEHICLES_WARNING ==> confirmed)
    ensures r.Selected? ==> r.count == NumSelected(options) > 0
    ensures r == NoVehicleSelected <==> NumSelected(options) == 0
  {
    var selectedCount := CountSelected(options);
    if selectedCount == 0 {
      return NoVehicleSelected;
    }
    if selectedCount > MAX_VEHICLES_WARNING && !confirmed {
      return ManyVehiclesDeclined;
    }
    return Selected(selectedCount);
  }

  datatype DateCheck = DatesMissing | EndNotAfterStart | LongRangeDeclined | DatesAccepted

  /** `validateDateRange`: both dates needed, the end strictly after the start, and a range
      over a week (168 hours) only with the user's confirmation. */
  function ValidateDateRange(from: DateField, to: DateField, confirmed: bool): (r: DateCheck)
    ensures r == DatesAccepted <==>
      from.text != "" && to.text != "" && from.instant < to.instant
      && (to.instant - from.instant > LONG_RANGE_HOURS * HOUR_MS ==> confirmed)
    ensures r == DatesMissing <==> from.text == "" || to.text == ""
  {
    if from.text == "" || to.text == "" then DatesMissing
    else if to.instant - from.instant <= 0 then EndNotAfterStart
    else if to.instant - from.instant > LONG_RANGE_HOURS * HOUR_MS && !confirmed then LongRangeDeclined
    else DatesAccepted
  }

  // ---- CSV export ----

  const CSV_HEADER: string := "Latitude,Longitude,Timestamp,Vehicle_Info"

  /** One CSV line: `(lat || '') , (lon || '') , (timestamp || '') , Point_<index + 1>`. */
  function CsvRow(p: Point, index: nat): (row: string)
    ensures '\n' !in p.timestamp ==> '\n' !in row
    ensures ',' !in p.timestamp ==>
              Split(row, ',') == [NumberOrEmpty(p.lat), NumberOrEmpty(p.lon), p.timestamp, "Point_" + NatDigits(index + 1)]
  {
    var fields := [NumberOrEmpty(p.lat), NumberOrEmpty(p.lon), p.timestamp, "Point_" + NatDigits(index + 1)];
    IntToStringPlain(index + 1);
    assert Join(fields, ",") == fields[0] + "," + fields[1] + "," + fields[2] + "," + fields[3] by {
      assert Join(fields[3..], ",") == fields[3];
      assert Join(fields[2..], ",") == fields[2] + "," + fields[3];
      assert Join(fields[1..], ",") == fields[1] + "," + (fields[2] + "," + fields[3]);
    }
    var row := fields[0] + "," + fields[1] + "," + fields[2] + "," + fields[3];
    if ',' in p.timestamp then row
    else
      SplitJoin(fields, ',');
      row
  }

  function CsvRows(points: seq<Point>): (rows: seq<string>)
    ensures |rows| == |points|
  {
    seq(|points|, i requires 0 <= i < |points| => CsvRow(points[i], i))
  }

  /** The download handler: no file without points, else the header and one row per point. */
  function DownloadCsv(points: seq<Point>): (csv: Option<string>)
    ensures csv.None? <==> points == []
    ensures csv.Some? ==> CSV_HEADER + "\n" <= csv.value
  {
    if points == [] then None else Some(CSV_HEADER + "\n" + Join(CsvRows(points), "\n"))
  }

  /** The file has one line for the header and one per point, in order. */
  lemma DownloadCsvLines(points: seq<Point>)
    requires points != []
    requires forall i :: 0 <= i < |points| ==> '\n' !in points[i].timestamp
    ensures DownloadCsv(points).Some?
    ensures Split(DownloadCsv(points).value, '\n') == [CSV_HEADER] + CsvRows(points)
  {
    var rows := CsvRows(points);
    assert forall i :: 0 <= i < |rows| ==> rows[i] == CsvRow(points[i], i);
    SplitJoin(rows, '\n');
    CsvHeaderPlain();
    SplitAfterField(CSV_HEADER, Join(rows, "\n"), '\n');
  }

  lemma CsvHeaderPlain()
    ensures '\n' !in CSV_HEADER
  {
  }
}
