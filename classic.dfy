/** The classic add-in (dist/heatmap.js): the dispatcher `d`, the location search `n`, the
    exception search `o` with its follow-up log-record calls, the limit notes, the default
    date range, the raw-data CSV download and the raw-data table. */
module Classic {
  import opened Common
  import opened Text

  /** `I`, the `resultsLimit` of every `Get`. */
  const RESULTS_LIMIT: nat := 5000
  /** `maxRows` of the raw-data table. */
  const MAX_ROWS: nat := 1000

  // ---- the calls ----

  function LocationQuery(fromIso: string, toIso: string): Query
  {
    Query("LogRecord", RESULTS_LIMIT, Search(None, None, None, fromIso, toIso))
  }

  function ExceptionQuery(ruleId: string, fromIso: string, toIso: string): Query
  {
    Query("ExceptionEvent", RESULTS_LIMIT, Search(None, Some(ruleId), None, fromIso, toIso))
  }

  /** The log records of one exception: its device over its active window. */
  function LogRecordCall(e: Entity): Call
  {
    Get(Query("LogRecord", RESULTS_LIMIT, Search(Some(e.deviceId), None, None, e.activeFrom, e.activeTo)))
  }

  /** One follow-up call per exception, in order; there is no cap on their number. */
  function FollowUpCalls(exceptions: seq<Entity>): (calls: seq<Call>)
    ensures |calls| == |exceptions|
    ensures forall i :: 0 <= i < |exceptions| ==> calls[i] == LogRecordCall(exceptions[i])
  {
    seq(|exceptions|, i requires 0 <= i < |exceptions| => LogRecordCall(exceptions[i]))
  }

  lemma FollowUpCallsSnoc(exceptions: seq<Entity>, e: Entity)
    ensures FollowUpCalls(exceptions + [e]) == FollowUpCalls(exceptions) + [LogRecordCall(e)]
  {
  }

  /** The first answer's loop in `o`: a follow-up call and `u++` per exception, `s++` per
      list that reached the limit. */
  method CollectFollowUps(results: seq<seq<Entity>>)
    returns (calls: seq<Call>, exceptionCount: nat, rulesAtLimit: nat)
    ensures calls == FollowUpCalls(Flatten(results))
    ensures exceptionCount == |Flatten(results)|
    ensures rulesAtLimit == CountAtLeast(results, RESULTS_LIMIT)
  {
    calls, exceptionCount, rulesAtLimit := [], 0, 0;
    var n := 0;
    while n < |results|
      invariant 0 <= n <= |results|
      invariant calls == FollowUpCalls(Flatten(results[..n]))
      invariant exceptionCount == |calls|
      invariant rulesAtLimit == CountAtLeast(results[..n], RESULTS_LIMIT)
    {
      var a := results[n];
      ghost var before := Flatten(results[..n]);
      var i := 0;
      assert before + a[..i] == before;
      while i < |a|
        invariant 0 <= i <= |a|
        invariant calls == FollowUpCalls(before + a[..i])
        invariant exceptionCount == |calls|
      {
        assert before + a[..i + 1] == before + a[..i] + [a[i]];
        FollowUpCallsSnoc(before + a[..i], a[i]);
        exceptionCount := exceptionCount + 1;
        calls := calls + [LogRecordCall(a[i])];
        i := i + 1;
      }
      assert a[..i] == a;
      FlattenStep(results, n);
      CountAtLeastStep(results, n, RESULTS_LIMIT);
      if |a| >= RESULTS_LIMIT {
        rulesAtLimit := rulesAtLimit + 1;
      }
      n := n + 1;
    }
    assert results[..n] == results;
  }

  // ---- aggregation ----

  /** A record is drawn unless both coordinates are 0; one zero coordinate is kept. */
  predicate OffOrigin(r: Entity) { r.latitude != 0 || r.longitude != 0 }
  predicate AtOrigin(r: Entity) { r.latitude == 0 && r.longitude == 0 }

  /** The points drawn for a list of records, in order. */
  function Drawn(records: seq<Entity>): (points: seq<Point>)
    ensures forall p :: p in points ==> p.lat != 0 || p.lon != 0
  {
    CollectMembers(records, OffOrigin, ToPoint);
    Collect(records, OffOrigin, ToPoint)
  }

  /** Only the records at (0, 0) are dropped. */
  lemma DrawnDropsOnlyOrigin(records: seq<Entity>)
    ensures |Drawn(records)| + CountWhere(records, AtOrigin) == |records|
  {
    CountWhereCollect(records, OffOrigin, ToPoint, (p: Point) => true, OffOrigin);
    CountWhereAll(Drawn(records));
    CountWhereComplement(records, OffOrigin, AtOrigin);
  }

  /** The answer loop shared by `n` and the second answer of `o`: a point and `o++` per
      record off the origin, `a++` per list that reached the limit. */
  method AggregateLogRecords(results: seq<seq<Entity>>)
    returns (points: seq<Point>, recordCount: nat, vehiclesAtLimit: nat)
    ensures points == Drawn(Flatten(results))
    ensures recordCount == |points|
    ensures vehiclesAtLimit == CountAtLeast(results, RESULTS_LIMIT)
  {
    points, recordCount, vehiclesAtLimit := [], 0, 0;
    var l := 0;
    while l < |results|
      invariant 0 <= l <= |results|
      invariant points == Collect(Flatten(results[..l]), OffOrigin, ToPoint)
      invariant recordCount == |points|
      invariant vehiclesAtLimit == CountAtLeast(results[..l], RESULTS_LIMIT)
    {
      var i := results[l];
      ghost var before := Flatten(results[..l]);
      var c := 0;
      assert before + i[..c] == before;
      while c < |i|
        invariant 0 <= c <= |i|
        invariant points == Collect(before + i[..c], OffOrigin, ToPoint)
        invariant recordCount == |points|
      {
        CollectRowStep(before, i, c, OffOrigin, ToPoint);
        if !(i[c].latitude == 0 && i[c].longitude == 0) {
          points := points + [Point(i[c].latitude, i[c].longitude, i[c].dateTime)];
          recordCount := recordCount + 1;
        }
        c := c + 1;
      }
      assert i[..c] == i;
      FlattenStep(results, l);
      CountAtLeastStep(results, l, RESULTS_LIMIT);
      if |i| >= RESULTS_LIMIT {
        vehiclesAtLimit := vehiclesAtLimit + 1;
      }
      l := l + 1;
    }
    assert results[..l] == results;
  }

  // ---- the notes under the map ----

  const NOTE_PREFIX: string := "Note: Not all results are displayed because"

  /** `S(I)`: the limit as the notes write it. */
  const LIMIT_TEXT: string := "5,000"

  lemma LimitText()
    ensures FormatNumber(RESULTS_LIMIT) == LIMIT_TEXT
  {
  }

  /** The location search's note: only when some vehicle's list reached the limit. */
  function LocationLimitNote(vehiclesAtLimit: nat): (note: Option<string>)
    ensures note.Some? <==> vehiclesAtLimit > 0
    ensures note.Some? ==> NOTE_PREFIX <= note.value
  {
    if 0 < vehiclesAtLimit then
      Some(NOTE_PREFIX + " the result limit of \n          " + LIMIT_TEXT
           + " was exceeded for \n          " + FormatNumber(vehiclesAtLimit) + " of the selected vehicles.")
    else None
  }

  function RuleLimitClause(rule: string): (clause: string)
    ensures |clause| > 0 && clause[|clause| - 1] == 's'
  {
    var head := " the result limit of \n              " + LIMIT_TEXT + " was exceeded for '" + rule;
    assert (head + "' rule exceptions")[|head + "' rule exceptions"| - 1] == 's';
    head + "' rule exceptions"
  }

  /** The vehicle clause of the exception note, without the full stop it carries as written. */
  function VehicleLimitClause(vehiclesAtLimit: nat): (clause: string)
    ensures |clause| > 0 && clause[|clause| - 1] == 's'
  {
    var head := " the result limit of \n              " + LIMIT_TEXT + " was exceeded for \n              "
      + FormatNumber(vehiclesAtLimit);
    assert (head + " of the selected vehicles")[|head + " of the selected vehicles"| - 1] == 's';
    head + " of the selected vehicles"
  }

  /** The text the exception note's function builds as written: its vehicle clause ends in a
      full stop and one more is appended after it. */
  function ExceptionNoteTextAsWritten(rulesAtLimit: nat, vehiclesAtLimit: nat, rule: string): (text: string)
    ensures NOTE_PREFIX <= text && text[|text| - 1] == '.'
  {
    NOTE_PREFIX
      + (if rulesAtLimit > 0 then RuleLimitClause(rule) else "")
      + (if rulesAtLimit > 0 && vehiclesAtLimit > 0 then " and" else "")
      + (if vehiclesAtLimit > 0 then VehicleLimitClause(vehiclesAtLimit) + "." else "")
      + "."
  }

  /** `0 < s || 0 < a && (function () {...})()`: `&&` binds tighter than `||`, so the note is
      built only when no rule list reached the limit and some vehicle list did. */
  function ExceptionLimitNoteAsWritten(rulesAtLimit: nat, vehiclesAtLimit: nat, rule: string): (note: Option<string>)
    ensures note.Some? <==> rulesAtLimit == 0 && vehiclesAtLimit > 0
    ensures note.Some? ==> NOTE_PREFIX <= note.value && |note.value| >= 2 && note.value[|note.value| - 2..] == ".."
  {
    if 0 < rulesAtLimit then None
    else if 0 < vehiclesAtLimit then
      ExceptionNoteDoubleStop(vehiclesAtLimit, rule);
      Some(ExceptionNoteTextAsWritten(rulesAtLimit, vehiclesAtLimit, rule))
    else None
  }

  /** As written, the rule-limit case shows no note at all, and the clauses for it inside the
      note's function can never run. */
  lemma ExceptionNoteSuppressed(rulesAtLimit: nat, vehiclesAtLimit: nat, rule: string)
    requires rulesAtLimit > 0
    ensures ExceptionLimitNoteAsWritten(rulesAtLimit, vehiclesAtLimit, rule).None?
    ensures ExceptionLimitNote(rulesAtLimit, vehiclesAtLimit, rule).Some?
  {
  }

  /** As written, every note the exception search shows ends in two full stops. */
  lemma ExceptionNoteDoubleStop(vehiclesAtLimit: nat, rule: string)
    requires vehiclesAtLimit > 0
    ensures var text := ExceptionNoteTextAsWritten(0, vehiclesAtLimit, rule);
            |text| >= 2 && text[|text| - 2..] == ".."
  {
    TwoStops(NOTE_PREFIX, VehicleLimitClause(vehiclesAtLimit));
  }

  lemma TwoStops(p: string, v: string)
    ensures p + "" + "" + (v + ".") + "." == (p + v) + ".."
    ensures p + "" + "" + (v + ".") + "." == p + v + "." + "."
    ensures |(p + v) + ".."| >= 2 && ((p + v) + "..")[|(p + v) + ".."| - 2..] == ".."
  {
  }

  /** The clauses of the exception note, each once, joined by " and" when both apply. */
  function NoteClauses(rulesAtLimit: nat, vehiclesAtLimit: nat, rule: string): (body: string)
    ensures rulesAtLimit == 0 ==> body == (if vehiclesAtLimit > 0 then VehicleLimitClause(vehiclesAtLimit) else "")
  {
    (if rulesAtLimit > 0 then RuleLimitClause(rule) else "")
      + (if rulesAtLimit > 0 && vehiclesAtLimit > 0 then " and" else "")
      + (if vehiclesAtLimit > 0 then VehicleLimitClause(vehiclesAtLimit) else "")
  }

  /** Both clauses end in a letter, so neither is followed by a second stop. */
  lemma ClausesEndInLetter(rulesAtLimit: nat, vehiclesAtLimit: nat, rule: string)
    requires rulesAtLimit > 0 || vehiclesAtLimit > 0
    ensures |NoteClauses(rulesAtLimit, vehiclesAtLimit, rule)| > 0
    ensures NoteClauses(rulesAtLimit, vehiclesAtLimit, rule)[|NoteClauses(rulesAtLimit, vehiclesAtLimit, rule)| - 1] == 's'
  {
    var r := if rulesAtLimit > 0 then RuleLimitClause(rule) else "";
    var a := if rulesAtLimit > 0 && vehiclesAtLimit > 0 then " and" else "";
    var v := if vehiclesAtLimit > 0 then VehicleLimitClause(vehiclesAtLimit) else "";
    if vehiclesAtLimit > 0 {
      assert (r + a + v)[|r + a + v| - 1] == v[|v| - 1];
    } else {
      assert r + a + v == r;
    }
  }

  /** The note the exception search evidently means to build: each clause once, one full stop. */
  function ExceptionNoteText(rulesAtLimit: nat, vehiclesAtLimit: nat, rule: string): string
  {
    NOTE_PREFIX + NoteClauses(rulesAtLimit, vehiclesAtLimit, rule) + "."
  }

  /** The text ends in a full stop that does not follow another one. */
  predicate EndsInOneStop(text: string)
  {
    |text| >= 2 && text[|text| - 1] == '.' && text[|text| - 2] != '.'
  }

  lemma OneStop(p: string, body: string)
    requires |body| > 0 && body[|body| - 1] == 's'
    ensures EndsInOneStop(p + body + ".")
  {
    assert (p + body + ".")[|p + body + "."| - 2] == body[|body| - 1];
  }

  /** The corrected note ends in exactly one full stop. */
  lemma ExceptionNoteSingleStop(rulesAtLimit: nat, vehiclesAtLimit: nat, rule: string)
    requires rulesAtLimit > 0 || vehiclesAtLimit > 0
    ensures EndsInOneStop(ExceptionNoteText(rulesAtLimit, vehiclesAtLimit, rule))
  {
    var body := NoteClauses(rulesAtLimit, vehiclesAtLimit, rule);
    ClausesEndInLetter(rulesAtLimit, vehiclesAtLimit, rule);
    OneStop(NOTE_PREFIX, body);
  }

  /** The note shows whenever a rule list or a vehicle list reached the limit. */
  function ExceptionLimitNote(rulesAtLimit: nat, vehiclesAtLimit: nat, rule: string): (note: Option<string>)
    ensures note.Some? <==> rulesAtLimit > 0 || vehiclesAtLimit > 0
    ensures rulesAtLimit == 0 && vehiclesAtLimit > 0 ==>
              note == Some(NOTE_PREFIX + VehicleLimitClause(vehiclesAtLimit) + ".")
  {
    if 0 < rulesAtLimit || 0 < vehiclesAtLimit then Some(ExceptionNoteText(rulesAtLimit, vehiclesAtLimit, rule))
    else None
  }

  /** Where the source does show a note, the corrected one differs only by the extra stop. */
  lemma ExceptionNoteAgreesWhereShown(vehiclesAtLimit: nat, rule: string)
    requires vehiclesAtLimit > 0
    ensures ExceptionLimitNoteAsWritten(0, vehiclesAtLimit, rule)
         == Some(ExceptionLimitNote(0, vehiclesAtLimit, rule).value + ".")
  {
    ClausesEndInLetter(0, vehiclesAtLimit, rule);
    TwoStops(NOTE_PREFIX, VehicleLimitClause(vehiclesAtLimit));
  }

  // ---- one click of "show heat map" ----

  /** The message the add-in ends with. */
  datatype Outcome =
    | NoVehicleSelected
    | NotSearched
    | NoRuleSelected
    | NoDataToDisplay
    | Alerted(error: string)
    | LocationsDisplayed(records: nat, vehicles: nat, note: Option<string>)
    | ExceptionsDisplayed(records: nat, exceptions: nat, rule: string, vehicles: nat, note: Option<string>)

  /** The outcome, the `multiCall` batches sent, and the points stored as the last heat map
      (`None` where `lastHeatmapPoints` is left as it was). */
  datatype SearchRun = SearchRun(outcome: Outcome, sent: seq<seq<Call>>, points: Option<seq<Point>>)

  /** `n`: nothing is sent without both dates; an empty answer leaves the last points alone. */
  function LocationHistory(options: seq<SelectOption>, selected: nat, from: DateField, to: DateField,
                           fetch: seq<Call> -> Fetch): (r: SearchRun)
    ensures r.sent == [] <==> from.text == "" || to.text == ""
    ensures r.sent != [] ==> r.sent == [CallsFor(SelectedIdsOrText(options), LocationQuery(from.iso, to.iso))]
    ensures r.outcome.LocationsDisplayed? ==>
              r.points.Some? && r.outcome.records == |r.points.value| > 0 && r.outcome.vehicles == selected
    ensures r.points.Some? ==> forall p :: p in r.points.value ==> p.lat != 0 || p.lon != 0
  {
    if from.text == "" || to.text == "" then SearchRun(NotSearched, [], None)
    else
      var calls := CallsFor(SelectedIdsOrText(options), LocationQuery(from.iso, to.iso));
      match fetch(calls)
      case FetchFailed(e) => SearchRun(Alerted(e), [calls], None)
      case Fetched(results) =>
        if |results| == 0 || NoRecords(results) then SearchRun(NoDataToDisplay, [calls], None)
        else
          var points := Drawn(Flatten(results));
          SearchRun(
            if points == [] then NoDataToDisplay
            else LocationsDisplayed(|points|, selected, LocationLimitNote(CountAtLeast(results, RESULTS_LIMIT))),
            [calls], Some(points))
  }

  /** `o`: the rule is read first (a missing selection throws); then the exceptions are
      fetched, and then the log records of every exception in one more `multiCall`. */
  function ExceptionHistory(options: seq<SelectOption>, selected: nat, rule: Option<SelectOption>,
                            from: DateField, to: DateField, fetch: seq<Call> -> Fetch): (r: SearchRun)
    ensures rule.None? ==> r.outcome == NoRuleSelected && r.sent == []
    ensures |r.sent| <= 2
    ensures |r.sent| >= 1 ==> r.sent[0] == CallsFor(SelectedIdsOrText(options), ExceptionQuery(rule.value.value, from.iso, to.iso))
    ensures |r.sent| == 2 ==> fetch(r.sent[0]).Fetched? && r.sent[1] == FollowUpCalls(Flatten(fetch(r.sent[0]).lists))
    ensures r.outcome.ExceptionsDisplayed? ==>
              |r.sent| == 2 && r.outcome.exceptions == |r.sent[1]| && r.outcome.rule == rule.value.text
              && r.points.Some? && r.outcome.records == |r.points.value| > 0
    ensures r.points.Some? ==> |r.sent| == 2 && forall p :: p in r.points.value ==> p.lat != 0 || p.lon != 0
    ensures r.outcome.ExceptionsDisplayed? && CountAtLeast(fetch(r.sent[0]).lists, RESULTS_LIMIT) > 0 ==>
              r.outcome.note.None?
    ensures r.outcome.ExceptionsDisplayed? && r.outcome.note.Some? ==>
              var text := r.outcome.note.value;
              |text| >= 2 && text[|text| - 2..] == ".."
  {
    if rule.None? then SearchRun(NoRuleSelected, [], None)
    else if from.text == "" || to.text == "" then SearchRun(NotSearched, [], None)
    else
      var calls := CallsFor(SelectedIdsOrText(options), ExceptionQuery(rule.value.value, from.iso, to.iso));
      match fetch(calls)
      case FetchFailed(e) => SearchRun(Alerted(e), [calls], None)
      case Fetched(exceptions) =>
        if |exceptions| == 0 || NoRecords(exceptions) then SearchRun(NoDataToDisplay, [calls], None)
        else
          var followUps := FollowUpCalls(Flatten(exceptions));
          var rulesAtLimit := CountAtLeast(exceptions, RESULTS_LIMIT);
          match fetch(followUps)
          case FetchFailed(e) => SearchRun(Alerted(e), [calls, followUps], None)
          case Fetched(logs) =>
            if |logs| == 0 || NoRecords(logs) then SearchRun(NoDataToDisplay, [calls, followUps], None)
            else
              var points := Drawn(Flatten(logs));
              SearchRun(
                if points == [] then NoDataToDisplay
                else ExceptionsDisplayed(|points|, |followUps|, rule.value.text, selected,
                       ExceptionLimitNoteAsWritten(rulesAtLimit, CountAtLeast(logs, RESULTS_LIMIT), rule.value.text)),
                [calls, followUps], Some(points))
  }

  /** `d`: no selected vehicle is an error; otherwise the disabled exception list means a
      location search and an enabled one an exception search. */
  function HeatMap(options: seq<SelectOption>, exceptionListDisabled: bool, rule: Option<SelectOption>,
                   from: DateField, to: DateField, fetch: seq<Call> -> Fetch): (r: SearchRun)
    ensures r.outcome == NoVehicleSelected <==> NumSelected(options) == 0
    ensures NumSelected(options) == 0 ==> r.sent == [] && r.points.None?
    ensures r.outcome.LocationsDisplayed? ==> exceptionListDisabled
    ensures r.outcome.ExceptionsDisplayed? ==> !exceptionListDisabled
  {
    var selected := NumSelected(options);
    if selected == 0 then SearchRun(NoVehicleSelected, [], None)
    else if exceptionListDisabled then LocationHistory(options, selected, from, to, fetch)
    else ExceptionHistory(options, selected, rule, from, to, fetch)
  }

  /** Every call of a location search asks for one selected vehicle's log records, in the
      order of the list. */
  lemma LocationCallsPerVehicle(options: seq<SelectOption>, from: DateField, to: DateField,
                                fetch: seq<Call> -> Fetch, i: nat)
    requires NumSelected(options) > 0 && from.text != "" && to.text != ""
    requires i < NumSelected(options)
    ensures var r := HeatMap(options, true, None, from, to, fetch);
            |r.sent| == 1 && |r.sent[0]| == NumSelected(options)
            && r.sent[0][i].query.typeName == "LogRecord"
            && r.sent[0][i].query.resultsLimit == RESULTS_LIMIT
            && r.sent[0][i].query.search.deviceId == Some(SelectedIdsOrText(options)[i])
  {
  }

  // ---- raw data: CSV and table ----

  /** `[lat || latitude || '', lon || lng || longitude || '', timestamp || dateTime || '']`. */
  function RawCells(p: Point): seq<string>
  {
    [NumberOrEmpty(p.lat), NumberOrEmpty(p.lon), p.timestamp]
  }

  const RAW_HEADER: seq<string> := ["Latitude", "Longitude", "Timestamp"]

  function RawLines(points: seq<Point>): (lines: seq<string>)
    ensures |lines| == |points| + 1
    ensures lines[0] == Join(RAW_HEADER, ",")
    ensures forall i :: 0 <= i < |points| ==> lines[i + 1] == Join(RawCells(points[i]), ",")
  {
    [Join(RAW_HEADER, ",")] + seq(|points|, i requires 0 <= i < |points| => Join(RawCells(points[i]), ","))
  }

  /** The download button: nothing without points, else the header and one line per point. */
  function RawCsv(points: seq<Point>): (csv: Option<string>)
    ensures csv.None? <==> points == []
    ensures csv.Some? ==> Join(RAW_HEADER, ",") + "\n" <= csv.value
  {
    JoinStartsWith(RawLines(points), "\n");
    if points == [] then None else Some(Join(RawLines(points), "\n"))
  }

  /** One point's line splits back into its cells. */
  lemma RawLineRoundTrip(p: Point)
    requires ',' !in p.timestamp && '\n' !in p.timestamp
    ensures Split(Join(RawCells(p), ","), ',') == RawCells(p)
    ensures '\n' !in Join(RawCells(p), ",")
  {
    SplitJoin(RawCells(p), ',');
    JoinHasNo(RawCells(p), ",", '\n');
  }

  lemma RawHeaderRoundTrip()
    ensures Split(Join(RAW_HEADER, ","), ',') == RAW_HEADER
    ensures '\n' !in Join(RAW_HEADER, ",")
  {
    forall i | 0 <= i < |RAW_HEADER| ensures ',' !in RAW_HEADER[i] && '\n' !in RAW_HEADER[i] {
    }
    SplitJoin(RAW_HEADER, ',');
    JoinHasNo(RAW_HEADER, ",", '\n');
  }

  /** Reading the file back gives the header and, field by field, every point's cells. */
  lemma RawCsvRoundTrip(points: seq<Point>)
    requires points != []
    requires forall i :: 0 <= i < |points| ==> ',' !in points[i].timestamp && '\n' !in points[i].timestamp
    ensures RawCsv(points).Some?
    ensures Split(RawCsv(points).value, '\n') == RawLines(points)
    ensures Split(RawLines(points)[0], ',') == RAW_HEADER
    ensures forall i :: 0 <= i < |points| ==> Split(RawLines(points)[i + 1], ',') == RawCells(points[i])
  {
    var lines := RawLines(points);
    RawHeaderRoundTrip();
    forall i | 0 <= i < |points|
      ensures Split(lines[i + 1], ',') == RawCells(points[i]) && '\n' !in lines[i + 1]
    {
      RawLineRoundTrip(points[i]);
    }
    forall k | 0 <= k < |lines| ensures '\n' !in lines[k] {
      if k > 0 {
        assert '\n' !in lines[(k - 1) + 1];
      }
    }
    SplitJoin(lines, '\n');
  }

  datatype RawTable = NoDataAvailable | RawTable(summary: string, rows: seq<seq<string>>)

  /** The line above the table: `maxRows` is written without grouping, the total with it. */
  function RawSummary(total: nat): (s: string)
    ensures |s| > 0 && (s[0] == 'S' <==> total > MAX_ROWS)
  {
    if total > MAX_ROWS then "Showing first " + NatDigits(MAX_ROWS) + " of " + FormatNumber(total) + " total records"
    else "Total records: " + FormatNumber(total)
  }

  /** `renderRawDataTable`: at most the first 1000 points, one row of cells each. */
  method RenderRawDataTable(data: seq<Point>) returns (table: RawTable)
    ensures table.NoDataAvailable? <==> data == []
    ensures table.RawTable? ==> table.summary == RawSummary(|data|)
    ensures table.RawTable? ==> |table.rows| == Min(|data|, MAX_ROWS)
    ensures table.RawTable? ==> forall i :: 0 <= i < |table.rows| ==> table.rows[i] == RawCells(data[i])
  {
    if |data| == 0 {
      return NoDataAvailable;
    }
    var displayData := if |data| > MAX_ROWS then data[..MAX_ROWS] else data;
    var rows: seq<seq<string>> := [];
    var i := 0;
    while i < |displayData|
      invariant 0 <= i <= |displayData|
      invariant |rows| == i
      invariant forall k :: 0 <= k < i ==> rows[k] == RawCells(data[k])
    {
      var pt := displayData[i];
      rows := rows + [[NumberOrEmpty(pt.lat), NumberOrEmpty(pt.lon), pt.timestamp]];
      i := i + 1;
    }
    table := RawTable(RawSummary(|data|), rows);
  }

  // ---- default dates ----

  predicate LeapYear(year: nat) { year % 4 == 0 && (year % 100 != 0 || year % 400 == 0) }

  function DaysIn(year: nat, month: nat): (days: nat)
    requires 1 <= month <= 12
    ensures 28 <= days <= 31
  {
    if month == 2 then (if LeapYear(year) then 29 else 28)
    else if month == 4 || month == 6 || month == 9 || month == 11 then 30
    else 31
  }

  /** A calendar day of the local time zone. */
  datatype Day = Day(year: nat, month: nat, day: nat)

  predicate ValidDay(d: Day) { 1 <= d.month <= 12 && 1 <= d.day <= DaysIn(d.year, d.month) }

  function PreviousDay(d: Day): (p: Day)
    requires ValidDay(d) && d.year > 0
    ensures ValidDay(p)
  {
    if d.day > 1 then Day(d.year, d.month, d.day - 1)
    else if d.month > 1 then Day(d.year, d.month - 1, DaysIn(d.year, d.month - 1))
    else Day(d.year - 1, 12, 31)
  }

  function NextDay(d: Day): (n: Day)
    requires ValidDay(d)
    ensures ValidDay(n)
  {
    if d.day < DaysIn(d.year, d.month) then Day(d.year, d.month, d.day + 1)
    else if d.month < 12 then Day(d.year, d.month + 1, 1)
    else Day(d.year + 1, 1, 1)
  }

  /** The day before, and the day after that, is the day itself. */
  lemma NextOfPrevious(d: Day)
    requires ValidDay(d) && d.year > 0
    ensures NextDay(PreviousDay(d)) == d
  {
  }

  /** The `datetime-local` text of a day at a whole hour. */
  function AtHour(d: Day, hour: nat): string
  {
    DateTimeText(d.year, d.month, d.day, Pad2(hour) + ":00")
  }

  /** The initialisation as written: the date of now with the hour of four hours ago
      (`(hour + 20) % 24`, daylight-saving changes aside) for the start. */
  function DefaultRangeAsWritten(now: Day, hour: nat): (range: (string, string))
    requires ValidDay(now) && hour < 24
    ensures range.1 == AtHour(now, hour)
    ensures hour >= 4 ==> range.0 == AtHour(now, hour - 4)
    ensures hour < 4 ==> range.0 == AtHour(now, hour + 20)
  {
    var start := (hour + 20) % 24;
    FourHoursBack(hour);
    (AtHour(now, start), AtHour(now, hour))
  }

  lemma FourHoursBack(hour: nat)
    requires hour < 24
    ensures hour >= 4 ==> (hour + 20) % 24 == hour - 4
    ensures hour < 4 ==> (hour + 20) % 24 == hour + 20
  {
  }

  /** Before 04:00 the start lies after the end. */
  lemma DefaultRangeInvertedBeforeFour(now: Day, hour: nat)
    requires ValidDay(now) && hour < 4
    ensures Less(DefaultRangeAsWritten(now, hour).1, DefaultRangeAsWritten(now, hour).0)
  {
    assert (hour + 20) % 24 == hour + 20;
    Pad2Less(hour, hour + 20, ":00", ":00");
    EarlierTime(now, Pad2(hour) + ":00", Pad2(hour + 20) + ":00");
  }

  /** The range evidently meant: four hours back, on the previous day before 04:00. */
  function DefaultRange(now: Day, hour: nat): (range: (string, string))
    requires ValidDay(now) && now.year > 0 && hour < 24
    ensures hour >= 4 ==> range == DefaultRangeAsWritten(now, hour)
    ensures hour < 4 ==> range.0 == AtHour(PreviousDay(now), hour + 20)
    ensures range.1 == AtHour(now, hour)
  {
    assert hour >= 4 ==> (hour + 20) % 24 == hour - 4;
    if hour >= 4 then (AtHour(now, hour - 4), AtHour(now, hour))
    else (AtHour(PreviousDay(now), hour + 20), AtHour(now, hour))
  }

  lemma FourDigits(n: nat)
    requires 1000 <= n <= 9999
    ensures |NatDigits(n)| == 4
  {
    NatDigitsLength(n);
    NatDigitsLength(n / 10);
    NatDigitsLength(n / 100);
    NatDigitsLength(n / 1000);
  }

  /** Texts of the same day compare as their times do. */
  lemma EarlierTime(d: Day, t1: string, t2: string)
    requires Less(t1, t2)
    ensures Less(DateTimeText(d.year, d.month, d.day, t1), DateTimeText(d.year, d.month, d.day, t2))
  {
    LessCommonPrefix(NatDigits(d.year) + "-" + Pad2(d.month) + "-" + Pad2(d.day) + "T", t1, t2);
  }

  /** Regrouping the seven pieces of a date-time text. */
  lemma Regroup(a: string, b: string, c: string, d: string, e: string, f: string, g: string)
    ensures a + b + c + d + e + f + g == (a + b + c + d) + (e + (f + g))
    ensures a + b + c + d + e + f + g == (a + b) + (c + (d + e + f + g))
    ensures a + b + c + d + e + f + g == a + (b + c + d + e + f + g)
  {
  }

  lemma SplitAtDay(y: nat, m: nat, d: nat, t: string)
    ensures DateTimeText(y, m, d, t) == (NatDigits(y) + "-" + Pad2(m) + "-") + (Pad2(d) + ("T" + t))
  {
    Regroup(NatDigits(y), "-", Pad2(m), "-", Pad2(d), "T", t);
  }

  lemma SplitAtMonth(y: nat, m: nat, d: nat, t: string)
    ensures DateTimeText(y, m, d, t) == (NatDigits(y) + "-") + (Pad2(m) + ("-" + Pad2(d) + "T" + t))
  {
    Regroup(NatDigits(y), "-", Pad2(m), "-", Pad2(d), "T", t);
  }

  lemma SplitAtYear(y: nat, m: nat, d: nat, t: string)
    ensures DateTimeText(y, m, d, t) == NatDigits(y) + ("-" + Pad2(m) + "-" + Pad2(d) + "T" + t)
  {
    Regroup(NatDigits(y), "-", Pad2(m), "-", Pad2(d), "T", t);
  }

  /** Texts of the same month compare as their days do. */
  lemma EarlierDay(y: nat, m: nat, d1: nat, d2: nat, t1: string, t2: string)
    requires d1 < d2 < 100
    ensures Less(DateTimeText(y, m, d1, t1), DateTimeText(y, m, d2, t2))
  {
    SplitAtDay(y, m, d1, t1);
    SplitAtDay(y, m, d2, t2);
    Pad2Less(d1, d2, "T" + t1, "T" + t2);
    LessCommonPrefix(NatDigits(y) + "-" + Pad2(m) + "-", Pad2(d1) + ("T" + t1), Pad2(d2) + ("T" + t2));
  }

  /** Texts of the same year compare as their months do. */
  lemma EarlierMonth(y: nat, m1: nat, m2: nat, d1: nat, d2: nat, t1: string, t2: string)
    requires m1 < m2 < 100
    ensures Less(DateTimeText(y, m1, d1, t1), DateTimeText(y, m2, d2, t2))
  {
    var x := "-" + Pad2(d1) + "T" + t1;
    var z := "-" + Pad2(d2) + "T" + t2;
    SplitAtMonth(y, m1, d1, t1);
    SplitAtMonth(y, m2, d2, t2);
    Pad2Less(m1, m2, x, z);
    LessCommonPrefix(NatDigits(y) + "-", Pad2(m1) + x, Pad2(m2) + z);
  }

  /** Texts of four-digit years compare as their years do. */
  lemma EarlierYear(y1: nat, y2: nat, m1: nat, m2: nat, d1: nat, d2: nat, t1: string, t2: string)
    requires 1000 <= y1 < y2 <= 9999
    ensures Less(DateTimeText(y1, m1, d1, t1), DateTimeText(y2, m2, d2, t2))
  {
    SplitAtYear(y1, m1, d1, t1);
    SplitAtYear(y2, m2, d2, t2);
    FourDigits(y1);
    FourDigits(y2);
    NatDigitsLess(y1, y2, "-" + Pad2(m1) + "-" + Pad2(d1) + "T" + t1, "-" + Pad2(m2) + "-" + Pad2(d2) + "T" + t2);
  }

  /** For four-digit years the corrected start always comes before the end. */
  lemma DefaultRangeOrdered(now: Day, hour: nat)
    requires ValidDay(now) && 1001 <= now.year <= 9999 && hour < 24
    ensures Less(DefaultRange(now, hour).0, DefaultRange(now, hour).1)
  {
    if hour >= 4 {
      Pad2Less(hour - 4, hour, ":00", ":00");
      EarlierTime(now, Pad2(hour - 4) + ":00", Pad2(hour) + ":00");
    } else {
      var prev := PreviousDay(now);
      var t1, t2 := Pad2(hour + 20) + ":00", Pad2(hour) + ":00";
      if now.day > 1 {
        EarlierDay(now.year, now.month, now.day - 1, now.day, t1, t2);
      } else if now.month > 1 {
        EarlierMonth(now.year, now.month - 1, now.month, prev.day, now.day, t1, t2);
      } else {
        EarlierYear(now.year - 1, now.year, 12, now.month, 31, now.day, t1, t2);
      }
    }
  }

  // ---- the add-in's state ----

  /** The closure's `lastHeatmapPoints`, the one variable the searches and the raw-data
      buttons share. */
  class HeatmapAddin {
    var lastHeatmapPoints: seq<Point>

    constructor()
      ensures lastHeatmapPoints == []
    {
      lastHeatmapPoints := [];
    }

    /** `n`, with the dates read from the inputs and `multiCall` given as `fetch`. */
    method LocationSearch(options: seq<SelectOption>, selected: nat, from: DateField, to: DateField,
                          fetch: seq<Call> -> Fetch)
      returns (outcome: Outcome, sent: seq<seq<Call>>)
      modifies this
      ensures var r := LocationHistory(options, selected, from, to, fetch);
              outcome == r.outcome && sent == r.sent
              && lastHeatmapPoints == (if r.points.Some? then r.points.value else old(lastHeatmapPoints))
    {
      var ids := SelectedVehicles(options);
      if from.text == "" || to.text == "" {
        return NotSearched, [];
      }
      var calls := CallsFor(ids, LocationQuery(from.iso, to.iso));
      sent := [calls];
      match fetch(calls)
      case FetchFailed(e) =>
        outcome := Alerted(e);
      case Fetched(results) =>
        var empty := ResultsEmpty(Some(results));
        if empty {
          outcome := NoDataToDisplay;
        } else {
          var points, recordCount, vehiclesAtLimit := AggregateLogRecords(results);
          lastHeatmapPoints := points;
          outcome := if 0 < |points| then LocationsDisplayed(recordCount, selected, LocationLimitNote(vehiclesAtLimit))
                     else NoDataToDisplay;
        }
    }

    /** `o`: `rule` is `p.options[p.selectedIndex]`, `None` when nothing is selected. */
    method ExceptionSearch(options: seq<SelectOption>, selected: nat, rule: Option<SelectOption>,
                           from: DateField, to: DateField, fetch: seq<Call> -> Fetch)
      returns (outcome: Outcome, sent: seq<seq<Call>>)
      modifies this
      ensures var r := ExceptionHistory(options, selected, rule, from, to, fetch);
              outcome == r.outcome && sent == r.sent
              && lastHeatmapPoints == (if r.points.Some? then r.points.value else old(lastHeatmapPoints))
    {
      if rule.None? {
        return NoRuleSelected, [];
      }
      var ruleId, ruleName := rule.value.value, rule.value.text;
      var ids := SelectedVehicles(options);
      if from.text == "" || to.text == "" {
        return NotSearched, [];
      }
      var calls := CallsFor(ids, ExceptionQuery(ruleId, from.iso, to.iso));
      sent := [calls];
      match fetch(calls)
      case FetchFailed(e) =>
        outcome := Alerted(e);
      case Fetched(exceptions) =>
        var empty := ResultsEmpty(Some(exceptions));
        if empty {
          outcome := NoDataToDisplay;
        } else {
          var followUps, exceptionCount, rulesAtLimit := CollectFollowUps(exceptions);
          sent := [calls, followUps];
          match fetch(followUps)
          case FetchFailed(e) =>
            outcome := Alerted(e);
          case Fetched(logs) =>
            var noLogs := ResultsEmpty(Some(logs));
            if noLogs {
              outcome := NoDataToDisplay;
            } else {
              var points, recordCount, vehiclesAtLimit := AggregateLogRecords(logs);
              lastHeatmapPoints := points;
              outcome := if 0 < |points|
                then ExceptionsDisplayed(recordCount, exceptionCount, ruleName, selected,
                                         ExceptionLimitNoteAsWritten(rulesAtLimit, vehiclesAtLimit, ruleName))
                else NoDataToDisplay;
            }
        }
    }

    /** `d`, the "show heat map" button. */
    method ShowHeatMap(options: seq<SelectOption>, exceptionListDisabled: bool, rule: Option<SelectOption>,
                       from: DateField, to: DateField, fetch: seq<Call> -> Fetch)
      returns (outcome: Outcome, sent: seq<seq<Call>>)
      modifies this
      ensures var r := HeatMap(options, exceptionListDisabled, rule, from, to, fetch);
              outcome == r.outcome && sent == r.sent
              && lastHeatmapPoints == (if r.points.Some? then r.points.value else old(lastHeatmapPoints))
    {
      var count := CountSelected(options);
      if count == 0 {
        return NoVehicleSelected, [];
      }
      if exceptionListDisabled {
        outcome, sent := LocationSearch(options, count, from, to, fetch);
      } else {
        outcome, sent := ExceptionSearch(options, count, rule, from, to, fetch);
      }
    }

    /** The download button: `None` is the "no data available" error. */
    method DownloadRawData() returns (csv: Option<string>)
      ensures csv.None? <==> lastHeatmapPoints == []
      ensures csv == RawCsv(lastHeatmapPoints)
    {
      csv := RawCsv(lastHeatmapPoints);
    }

    /** The show-raw-data button: `None` is the "no data available" error. */
    method ShowRawData() returns (table: Option<RawTable>)
      ensures table.None? <==> lastHeatmapPoints == []
      ensures table.Some? ==> table.value.RawTable? && |table.value.rows| == Min(|lastHeatmapPoints|, MAX_ROWS)
      ensures table.Some? ==> table.value.summary == RawSummary(|lastHeatmapPoints|)
      ensures table.Some? ==>
                forall i :: 0 <= i < |table.value.rows| ==> table.value.rows[i] == RawCells(lastHeatmapPoints[i])
    {
      if |lastHeatmapPoints| == 0 {
        return None;
      }
      var t := RenderRawDataTable(lastHeatmapPoints);
      table := Some(t);
    }
  }
}
