/** The enhanced add-in (dist/scripts/main.js): one `multiCall` of per-vehicle `Get`s for
    the chosen data type, and the loops that turn its results into location, battery,
    charging or fault points with their counters; plus the CSV export and the default dates. */
module Enhanced {
  import opened Common
  import opened Text

  /** `myGeotabGetResultsLimit`. */
  const RESULTS_LIMIT: nat := 50000
  /** A battery level below this is low. */
  const LOW_BATTERY_LEVEL: int := 20

  /** A `LogRecord`, `StatusData` or `FaultData` record: only the fields the handlers read.
      `data` is `parseFloat(event.data)`, `None` standing for `NaN`; `severity == ""` is a
      missing severity; `code` and `description` are those of `fault.diagnostic`. */
  datatype Telemetry = Telemetry(
    latitude: int, longitude: int, data: Option<int>,
    severity: string, code: string, description: string)

  datatype Coordinate = Coordinate(lat: int, lon: int)
  datatype BatteryPoint = BatteryPoint(lat: int, lon: int, battery: Option<int>, low: bool)
  datatype FaultPoint = FaultPoint(lat: int, lon: int, code: string, desc: string, severity: string)

  // ---- getSelectedDeviceIds ----

  /** `options.filter(opt => opt.selected).map(opt => opt.value)`. */
  function SelectedValues(options: seq<SelectOption>): (ids: seq<string>)
    ensures |ids| == NumSelected(options)
  {
    if options == [] then []
    else
      var o := options[|options| - 1];
      SelectedValues(options[..|options| - 1]) + (if o.selected then [o.value] else [])
  }

  lemma {:induction false} SelectedValuesConcat(a: seq<SelectOption>, b: seq<SelectOption>)
    ensures SelectedValues(a + b) == SelectedValues(a) + SelectedValues(b)
    decreases |b|
  {
    if b == [] {
      assert a + b == a;
    } else {
      assert (a + b)[..|a + b| - 1] == a + b[..|b| - 1];
      SelectedValuesConcat(a, b[..|b| - 1]);
    }
  }

  /** A value is returned exactly when some selected option carries it. */
  lemma {:induction false} SelectedValuesMembers(options: seq<SelectOption>, v: string)
    ensures v in SelectedValues(options) <==>
            exists i :: 0 <= i < |options| && options[i].selected && options[i].value == v
    decreases |options|
  {
    if options != [] {
      var init := options[..|options| - 1];
      SelectedValuesMembers(init, v);
      if v in SelectedValues(options) && v !in SelectedValues(init) {
        assert options[|options| - 1].selected && options[|options| - 1].value == v;
      }
      if exists i :: 0 <= i < |options| && options[i].selected && options[i].value == v {
        var i :| 0 <= i < |options| && options[i].selected && options[i].value == v;
        if i < |init| {
          assert init[i] == options[i];
        }
      }
    }
  }

  // ---- displayHeatMap ----

  datatype Handler = LocationHistory | BatteryEvents | ChargingEvents | FaultEvents

  /** The `switch` on the event-type list: anything but the three named types, including
      `"location"`, goes to the location history. */
  function Route(dataType: string): (h: Handler)
    ensures h == BatteryEvents <==> dataType == "battery"
    ensures h == ChargingEvents <==> dataType == "charging"
    ensures h == FaultEvents <==> dataType == "faults"
  {
    if dataType == "battery" then BatteryEvents
    else if dataType == "charging" then ChargingEvents
    else if dataType == "faults" then FaultEvents
    else LocationHistory
  }

  /** The query each handler sends for every device. */
  function HandlerQuery(handler: Handler, fromIso: string, toIso: string): Query
  {
    match handler
    case LocationHistory => Query("LogRecord", RESULTS_LIMIT, Search(None, None, None, fromIso, toIso))
    case BatteryEvents => Query("StatusData", RESULTS_LIMIT, Search(None, None, Some("BatteryLevel"), fromIso, toIso))
    case ChargingEvents => Query("StatusData", RESULTS_LIMIT, Search(None, None, Some("ChargingEvent"), fromIso, toIso))
    case FaultEvents => Query("FaultData", RESULTS_LIMIT, Search(None, None, None, fromIso, toIso))
  }

  // ---- the record filters ----

  /** The location handler drops a record only when both coordinates are 0. */
  predicate NotOrigin(r: Telemetry) { r.latitude != 0 || r.longitude != 0 }
  predicate AtOrigin(r: Telemetry) { r.latitude == 0 && r.longitude == 0 }

  /** The battery, charging and fault handlers need both coordinates truthy (non-zero). */
  predicate Located(r: Telemetry) { r.latitude != 0 && r.longitude != 0 }

  function ToCoordinate(r: Telemetry): Coordinate { Coordinate(r.latitude, r.longitude) }

  /** `level < 20`; `NaN < 20` is false. */
  predicate IsLow(level: Option<int>) { level.Some? && level.value < LOW_BATTERY_LEVEL }

  function ToBattery(r: Telemetry): BatteryPoint
  {
    BatteryPoint(r.latitude, r.longitude, r.data, IsLow(r.data))
  }

  predicate LowPoint(p: BatteryPoint) { p.low }
  predicate LowRecord(r: Telemetry) { Located(r) && IsLow(r.data) }

  /** `fault.severity || "info"`. */
  function SeverityOf(r: Telemetry): string
  {
    if r.severity != "" then r.severity else "info"
  }

  function ToFault(r: Telemetry): FaultPoint
  {
    FaultPoint(r.latitude, r.longitude, r.code, r.description, SeverityOf(r))
  }

  predicate Critical(p: FaultPoint) { p.severity == "critical" }
  predicate Warning(p: FaultPoint) { p.severity == "warning" }
  predicate Info(p: FaultPoint) { p.severity != "critical" && p.severity != "warning" }

  /** The location handler keeps every record except those at (0, 0). */
  lemma LocationHistoryDropsOnlyOrigin(records: seq<Telemetry>)
    ensures |Collect(records, NotOrigin, ToCoordinate)| + CountWhere(records, AtOrigin) == |records|
  {
    CountWhereCollect(records, NotOrigin, ToCoordinate, (c: Coordinate) => true, NotOrigin);
    assert CountWhere(Collect(records, NotOrigin, ToCoordinate), (c: Coordinate) => true)
        == |Collect(records, NotOrigin, ToCoordinate)| by {
      CountWhereAll(Collect(records, NotOrigin, ToCoordinate));
    }
    CountWhereComplement(records, NotOrigin, AtOrigin);
  }

  /** A battery point is marked low exactly when its level is a number below 20, and the
      low points are the located records with such a level. */
  lemma BatteryLowExactly(records: seq<Telemetry>)
    ensures forall p :: p in Collect(records, Located, ToBattery) ==>
              (p.low <==> p.battery.Some? && p.battery.value < LOW_BATTERY_LEVEL)
    ensures CountWhere(Collect(records, Located, ToBattery), LowPoint) == CountWhere(records, LowRecord)
  {
    CollectMembers(records, Located, ToBattery);
    CountWhereCollect(records, Located, ToBattery, LowPoint, LowRecord);
  }

  /** No fault point has an empty severity; every one is counted as critical, warning or
      info, exactly once. */
  lemma {:induction false} SeverityPartition(points: seq<FaultPoint>)
    ensures CountWhere(points, Critical) + CountWhere(points, Warning) + CountWhere(points, Info) == |points|
    decreases |points|
  {
    if points != [] {
      SeverityPartition(points[..|points| - 1]);
    }
  }

  lemma FaultSeverityNeverEmpty(records: seq<Telemetry>)
    ensures forall p :: p in Collect(records, Located, ToFault) ==> p.severity != ""
  {
    CollectMembers(records, Located, ToFault);
  }

  // ---- the handlers' loops ----

  /** `displayHeatMapForLocationHistory`'s loop over the results. */
  method AggregateLocationHistory(results: seq<seq<Telemetry>>)
    returns (coordinates: seq<Coordinate>, logRecordCount: nat, exceededResultsLimitCount: nat)
    ensures coordinates == Collect(Flatten(results), NotOrigin, ToCoordinate)
    ensures logRecordCount == |coordinates|
    ensures exceededResultsLimitCount == CountAtLeast(results, RESULTS_LIMIT)
  {
    coordinates, logRecordCount, exceededResultsLimitCount := [], 0, 0;
    var i := 0;
    while i < |results|
      invariant 0 <= i <= |results|
      invariant coordinates == Collect(Flatten(results[..i]), NotOrigin, ToCoordinate)
      invariant logRecordCount == |coordinates|
      invariant exceededResultsLimitCount == CountAtLeast(results[..i], RESULTS_LIMIT)
    {
      var records := results[i];
      ghost var before := Flatten(results[..i]);
      var j := 0;
      assert before + records[..j] == before;
      while j < |records|
        invariant 0 <= j <= |records|
        invariant coordinates == Collect(before + records[..j], NotOrigin, ToCoordinate)
        invariant logRecordCount == |coordinates|
      {
        var rec := records[j];
        CollectRowStep(before, records, j, NotOrigin, ToCoordinate);
        if rec.latitude != 0 || rec.longitude != 0 {
          coordinates := coordinates + [Coordinate(rec.latitude, rec.longitude)];
          logRecordCount := logRecordCount + 1;
        }
        j := j + 1;
      }
      assert records[..j] == records;
      FlattenStep(results, i);
      CountAtLeastStep(results, i, RESULTS_LIMIT);
      if |records| >= RESULTS_LIMIT {
        exceededResultsLimitCount := exceededResultsLimitCount + 1;
      }
      i := i + 1;
    }
    assert results[..i] == results;
  }

  /** `displayEVBatteryEvents`'s loop: located events become points marked low below 20. */
  method AggregateBatteryEvents(results: seq<seq<Telemetry>>)
    returns (points: seq<BatteryPoint>, lowBatteryCount: nat)
    ensures points == Collect(Flatten(results), Located, ToBattery)
    ensures lowBatteryCount == CountWhere(points, LowPoint) <= |points|
  {
    points, lowBatteryCount := [], 0;
    var devIdx := 0;
    while devIdx < |results|
      invariant 0 <= devIdx <= |results|
      invariant points == Collect(Flatten(results[..devIdx]), Located, ToBattery)
      invariant lowBatteryCount == CountWhere(points, LowPoint)
    {
      var events := results[devIdx];
      ghost var before := Flatten(results[..devIdx]);
      var j := 0;
      assert before + events[..j] == before;
      while j < |events|
        invariant 0 <= j <= |events|
        invariant points == Collect(before + events[..j], Located, ToBattery)
        invariant lowBatteryCount == CountWhere(points, LowPoint)
      {
        var event := events[j];
        CollectRowStep(before, events, j, Located, ToBattery);
        if event.latitude != 0 && event.longitude != 0 {
          var level := event.data;
          var isLow := level.Some? && level.value < LOW_BATTERY_LEVEL;
          var point := BatteryPoint(event.latitude, event.longitude, level, isLow);
          CountWhereSnoc(points, point, LowPoint);
          points := points + [point];
          if isLow {
            lowBatteryCount := lowBatteryCount + 1;
          }
        }
        j := j + 1;
      }
      assert events[..j] == events;
      FlattenStep(results, devIdx);
      devIdx := devIdx + 1;
    }
    assert results[..devIdx] == results;
  }

  /** `displayChargingEvents`'s loop. */
  method AggregateChargingEvents(results: seq<seq<Telemetry>>) returns (points: seq<Coordinate>)
    ensures points == Collect(Flatten(results), Located, ToCoordinate)
  {
    points := [];
    var devIdx := 0;
    while devIdx < |results|
      invariant 0 <= devIdx <= |results|
      invariant points == Collect(Flatten(results[..devIdx]), Located, ToCoordinate)
    {
      var events := results[devIdx];
      ghost var before := Flatten(results[..devIdx]);
      var j := 0;
      assert before + events[..j] == before;
      while j < |events|
        invariant 0 <= j <= |events|
        invariant points == Collect(before + events[..j], Located, ToCoordinate)
      {
        var event := events[j];
        CollectRowStep(before, events, j, Located, ToCoordinate);
        if event.latitude != 0 && event.longitude != 0 {
          points := points + [Coordinate(event.latitude, event.longitude)];
        }
        j := j + 1;
      }
      assert events[..j] == events;
      FlattenStep(results, devIdx);
      devIdx := devIdx + 1;
    }
    assert results[..devIdx] == results;
  }

  /** The counters after one more fault point. */
  lemma TallyStep(points: seq<FaultPoint>, point: FaultPoint)
    ensures CountWhere(points + [point], Critical) == CountWhere(points, Critical) + (if point.severity == "critical" then 1 else 0)
    ensures CountWhere(points + [point], Warning) == CountWhere(points, Warning) + (if point.severity == "warning" then 1 else 0)
    ensures CountWhere(points + [point], Info) == CountWhere(points, Info)
              + (if point.severity != "critical" && point.severity != "warning" then 1 else 0)
  {
    CountWhereSnoc(points, point, Critical);
    CountWhereSnoc(points, point, Warning);
    CountWhereSnoc(points, point, Info);
  }

  /** One located fault: its severity counter goes up by one and its point is appended. */
  method TallyFault(points0: seq<FaultPoint>, critical0: nat, warning0: nat, info0: nat, point: FaultPoint)
    returns (points: seq<FaultPoint>, criticalCount: nat, warningCount: nat, infoCount: nat)
    requires critical0 == CountWhere(points0, Critical)
    requires warning0 == CountWhere(points0, Warning)
    requires info0 == CountWhere(points0, Info)
    ensures points == points0 + [point]
    ensures criticalCount == CountWhere(points, Critical)
    ensures warningCount == CountWhere(points, Warning)
    ensures infoCount == CountWhere(points, Info)
  {
    criticalCount, warningCount, infoCount := critical0, warning0, info0;
    var severity := point.severity;
    if severity == "critical" {
      criticalCount := criticalCount + 1;
    } else if severity == "warning" {
      warningCount := warningCount + 1;
    } else {
      infoCount := infoCount + 1;
    }
    TallyStep(points0, point);
    points := points0 + [point];
  }

  /** The inner loop of `displayFaultEvents`, over the faults of one device. */
  method TallyDeviceFaults(ghost before: seq<Telemetry>, faults: seq<Telemetry>,
                           points0: seq<FaultPoint>, critical0: nat, warning0: nat, info0: nat)
    returns (points: seq<FaultPoint>, criticalCount: nat, warningCount: nat, infoCount: nat)
    requires points0 == Collect(before, Located, ToFault)
    requires critical0 == CountWhere(points0, Critical)
    requires warning0 == CountWhere(points0, Warning)
    requires info0 == CountWhere(points0, Info)
    ensures points == Collect(before + faults, Located, ToFault)
    ensures criticalCount == CountWhere(points, Critical)
    ensures warningCount == CountWhere(points, Warning)
    ensures infoCount == CountWhere(points, Info)
  {
    points, criticalCount, warningCount, infoCount := points0, critical0, warning0, info0;
    var j := 0;
    assert before + faults[..j] == before;
    while j < |faults|
      invariant 0 <= j <= |faults|
      invariant points == Collect(before + faults[..j], Located, ToFault)
      invariant criticalCount == CountWhere(points, Critical)
      invariant warningCount == CountWhere(points, Warning)
      invariant infoCount == CountWhere(points, Info)
    {
      var fault := faults[j];
      CollectRowStep(before, faults, j, Located, ToFault);
      if fault.latitude != 0 && fault.longitude != 0 {
        points, criticalCount, warningCount, infoCount :=
          TallyFault(points, criticalCount, warningCount, infoCount, ToFault(fault));
      }
      j := j + 1;
    }
    assert faults[..j] == faults;
  }

  /** `displayFaultEvents`'s loop: located faults become points, tallied by severity. */
  method TallyFaults(results: seq<seq<Telemetry>>)
    returns (points: seq<FaultPoint>, criticalCount: nat, warningCount: nat, infoCount: nat)
    ensures points == Collect(Flatten(results), Located, ToFault)
    ensures criticalCount == CountWhere(points, Critical)
    ensures warningCount == CountWhere(points, Warning)
    ensures infoCount == CountWhere(points, Info)
    ensures criticalCount + warningCount + infoCount == |points|
  {
    points, criticalCount, warningCount, infoCount := [], 0, 0, 0;
    var devIdx := 0;
    while devIdx < |results|
      invariant 0 <= devIdx <= |results|
      invariant points == Collect(Flatten(results[..devIdx]), Located, ToFault)
      invariant criticalCount == CountWhere(points, Critical)
      invariant warningCount == CountWhere(points, Warning)
      invariant infoCount == CountWhere(points, Info)
    {
      points, criticalCount, warningCount, infoCount :=
        TallyDeviceFaults(Flatten(results[..devIdx]), results[devIdx], points, criticalCount, warningCount, infoCount);
      FlattenStep(results, devIdx);
      devIdx := devIdx + 1;
    }
    assert results[..devIdx] == results;
    SeverityPartition(points);
  }

  // ---- one click of "show heat map" ----

  /** What `api.multiCall` hands back: one list per call, or an error string. */
  datatype Answer = Answered(lists: seq<seq<Telemetry>>) | Failed(error: string)

  /** The message a handler ends with. */
  datatype Display =
    | NoVehicleSelected
    | NoRequest
    | CallFailed(error: string)
    | NoLocationData
    | LocationDisplayed(records: nat, vehiclesAtLimit: nat)
    | NoBatteryEvents
    | BatteryDisplayed(points: nat, lowBattery: nat)
    | NoChargingEvents
    | ChargingDisplayed(points: nat)
    | NoFaults
    | FaultsDisplayed(points: nat, critical: nat, warning: nat, info: nat)

  /** What a handler shows for the answer to its `multiCall`. */
  function Shown(handler: Handler, answer: Answer): (d: Display)
    ensures d.BatteryDisplayed? ==> d.lowBattery <= d.points
    ensures d.FaultsDisplayed? ==> d.critical + d.warning + d.info == d.points
  {
    match answer
    case Failed(e) => CallFailed(e)
    case Answered(results) =>
      match handler
      case LocationHistory =>
        var coordinates := Collect(Flatten(results), NotOrigin, ToCoordinate);
        if |results| == 0 || NoRecords(results) || coordinates == [] then NoLocationData
        else LocationDisplayed(|coordinates|, CountAtLeast(results, RESULTS_LIMIT))
      case BatteryEvents =>
        var points := Collect(Flatten(results), Located, ToBattery);
        if points == [] then NoBatteryEvents else BatteryDisplayed(|points|, CountWhere(points, LowPoint))
      case ChargingEvents =>
        var points := Collect(Flatten(results), Located, ToCoordinate);
        if points == [] then NoChargingEvents else ChargingDisplayed(|points|)
      case FaultEvents =>
        var points := Collect(Flatten(results), Located, ToFault);
        SeverityPartition(points);
        if points == [] then NoFaults
        else FaultsDisplayed(|points|, CountWhere(points, Critical), CountWhere(points, Warning), CountWhere(points, Info))
  }

  /** One of the four `display*` handlers: the selected ids and both dates are needed; then
      one `Get` per device goes out in a single `multiCall`. */
  method RunHandler(handler: Handler, options: seq<SelectOption>, from: DateField, to: DateField,
                    api: seq<Call> -> Answer)
    returns (display: Display, requested: seq<Call>)
    ensures NumSelected(options) == 0 || from.text == "" || to.text == "" ==>
              display == NoRequest && requested == []
    ensures NumSelected(options) > 0 && from.text != "" && to.text != "" ==>
              requested == CallsFor(SelectedValues(options), HandlerQuery(handler, from.iso, to.iso))
              && display == Shown(handler, api(requested))
  {
    var deviceIds := SelectedValues(options);
    if |deviceIds| == 0 || from.text == "" || to.text == "" {
      return NoRequest, [];
    }
    requested := CallsFor(deviceIds, HandlerQuery(handler, from.iso, to.iso));
    match api(requested)
    case Failed(e) =>
      display := CallFailed(e);
    case Answered(results) =>
      match handler
      case LocationHistory =>
        var empty := ResultsEmpty(Some(results));
        if empty {
          display := NoLocationData;
        } else {
          var coordinates, logRecordCount, exceeded := AggregateLocationHistory(results);
          display := if |coordinates| > 0 then LocationDisplayed(logRecordCount, exceeded) else NoLocationData;
        }
      case BatteryEvents =>
        var points, lowBatteryCount := AggregateBatteryEvents(results);
        display := if |points| > 0 then BatteryDisplayed(|points|, lowBatteryCount) else NoBatteryEvents;
      case ChargingEvents =>
        var points := AggregateChargingEvents(results);
        display := if |points| > 0 then ChargingDisplayed(|points|) else NoChargingEvents;
      case FaultEvents =>
        var points, critical, warning, info := TallyFaults(results);
        display := if |points| > 0 then FaultsDisplayed(|points|, critical, warning, info) else NoFaults;
  }

  /** `displayHeatMap`: no selected vehicle is an error and sends nothing; otherwise the
      event type picks the handler. */
  method DisplayHeatMap(options: seq<SelectOption>, dataType: string, from: DateField, to: DateField,
                        api: seq<Call> -> Answer)
    returns (display: Display, requested: seq<Call>)
    ensures NumSelected(options) == 0 ==> display == NoVehicleSelected && requested == []
    ensures NumSelected(options) > 0 && (from.text == "" || to.text == "") ==>
              display == NoRequest && requested == []
    ensures NumSelected(options) > 0 && from.text != "" && to.text != "" ==>
              requested == CallsFor(SelectedValues(options), HandlerQuery(Route(dataType), from.iso, to.iso))
              && display == Shown(Route(dataType), api(requested))
  {
    var selectedVehicleCount := CountSelected(options);
    if selectedVehicleCount == 0 {
      return NoVehicleSelected, [];
    }
    display, requested := RunHandler(Route(dataType), options, from, to, api);
  }

  // ---- exportDataAsCSV ----

  const EXPORT_HEADER: seq<string> := ["Type", "Lat", "Lon", "Value", "Details"]

  /** `${e.battery}` of a parsed level. */
  function LevelText(level: Option<int>): string
  {
    if level.Some? then IntToString(level.value) else "NaN"
  }

  function BatteryRow(e: BatteryPoint): seq<string>
  {
    ["Battery", IntToString(e.lat), IntToString(e.lon), "1", "Level: " + LevelText(e.battery)]
  }

  function ChargingRow(e: Coordinate): seq<string>
  {
    ["Charging", IntToString(e.lat), IntToString(e.lon), "1", "Charging Event"]
  }

  function FaultRow(e: FaultPoint): seq<string>
  {
    ["Fault", IntToString(e.lat), IntToString(e.lon), "1", "Code: " + e.code + ", Severity: " + e.severity]
  }

  function BatteryRows(battery: seq<BatteryPoint>): (rows: seq<seq<string>>)
    ensures |rows| == |battery|
    ensures forall i :: 0 <= i < |battery| ==> rows[i] == BatteryRow(battery[i])
  {
    seq(|battery|, i requires 0 <= i < |battery| => BatteryRow(battery[i]))
  }

  function ChargingRows(charging: seq<Coordinate>): (rows: seq<seq<string>>)
    ensures |rows| == |charging|
    ensures forall i :: 0 <= i < |charging| ==> rows[i] == ChargingRow(charging[i])
  {
    seq(|charging|, i requires 0 <= i < |charging| => ChargingRow(charging[i]))
  }

  function FaultRows(faults: seq<FaultPoint>): (rows: seq<seq<string>>)
    ensures |rows| == |faults|
    ensures forall i :: 0 <= i < |faults| ==> rows[i] == FaultRow(faults[i])
  {
    seq(|faults|, i requires 0 <= i < |faults| => FaultRow(faults[i]))
  }

  /** The header row, then the battery, charging and fault rows, in that order. */
  function ExportRows(battery: seq<BatteryPoint>, charging: seq<Coordinate>, faults: seq<FaultPoint>)
    : (rows: seq<seq<string>>)
    ensures |rows| == 1 + |battery| + |charging| + |faults|
    ensures rows[0] == EXPORT_HEADER
  {
    [EXPORT_HEADER] + BatteryRows(battery) + ChargingRows(charging) + FaultRows(faults)
  }

  function Lines(rows: seq<seq<string>>): (lines: seq<string>)
    ensures |lines| == |rows|
  {
    seq(|rows|, i requires 0 <= i < |rows| => Join(rows[i], ","))
  }

  /** `rows.map(r => r.join(",")).join("\n")`. */
  function ExportCsv(battery: seq<BatteryPoint>, charging: seq<Coordinate>, faults: seq<FaultPoint>): (csv: string)
    ensures "Type,Lat,Lon,Value,Details" <= csv
    ensures |battery| + |charging| + |faults| > 0 ==> "Type,Lat,Lon,Value,Details\n" <= csv
  {
    HeaderLine();
    JoinStartsWith(Lines(ExportRows(battery, charging, faults)), "\n");
    Join(Lines(ExportRows(battery, charging, faults)), "\n")
  }

  lemma JoinFive(a: string, b: string, c: string, d: string, e: string, sep: string)
    ensures Join([a, b, c, d, e], sep) == a + sep + (b + sep + (c + sep + (d + sep + e)))
  {
    assert [d, e][1..] == [e];
    assert Join([d, e], sep) == d + sep + e;
    assert [c, d, e][1..] == [d, e];
    assert Join([c, d, e], sep) == c + sep + Join([d, e], sep);
    assert [b, c, d, e][1..] == [c, d, e];
    assert Join([b, c, d, e], sep) == b + sep + Join([c, d, e], sep);
    assert [a, b, c, d, e][1..] == [b, c, d, e];
  }

  lemma HeaderLine()
    ensures Join(EXPORT_HEADER, ",") == "Type,Lat,Lon,Value,Details"
  {
    JoinFive("Type", "Lat", "Lon", "Value", "Details", ",");
  }

  /** The event lists the export reads are never filled, so the file is the header alone. */
  lemma ExportCsvHeaderOnly()
    ensures ExportCsv([], [], []) == "Type,Lat,Lon,Value,Details"
  {
    var rows := ExportRows([], [], []);
    assert rows == [EXPORT_HEADER];
    assert Lines(rows) == [Join(EXPORT_HEADER, ",")];
    HeaderLine();
  }

  lemma BatteryLineClean(e: BatteryPoint)
    ensures '\n' !in Join(BatteryRow(e), ",")
  {
    IntToStringPlain(e.lat);
    IntToStringPlain(e.lon);
    if e.battery.Some? {
      IntToStringPlain(e.battery.value);
    }
    JoinHasNo(BatteryRow(e), ",", '\n');
  }

  lemma ChargingLineClean(e: Coordinate)
    ensures '\n' !in Join(ChargingRow(e), ",")
  {
    IntToStringPlain(e.lat);
    IntToStringPlain(e.lon);
    JoinHasNo(ChargingRow(e), ",", '\n');
  }

  lemma FaultLineClean(e: FaultPoint)
    requires '\n' !in e.code && '\n' !in e.severity
    ensures '\n' !in Join(FaultRow(e), ",")
  {
    IntToStringPlain(e.lat);
    IntToStringPlain(e.lon);
    JoinHasNo(FaultRow(e), ",", '\n');
  }

  /** No line of the file holds a line break. */
  lemma ExportLineClean(battery: seq<BatteryPoint>, charging: seq<Coordinate>, faults: seq<FaultPoint>, i: nat)
    requires forall e :: e in faults ==> '\n' !in e.code && '\n' !in e.severity
    requires i < 1 + |battery| + |charging| + |faults|
    ensures '\n' !in Lines(ExportRows(battery, charging, faults))[i]
  {
    var r1 := [EXPORT_HEADER] + BatteryRows(battery);
    var r2 := r1 + ChargingRows(charging);
    var rows := r2 + FaultRows(faults);
    assert rows == ExportRows(battery, charging, faults);
    if i == 0 {
      assert rows[i] == r1[0];
      JoinHasNo(EXPORT_HEADER, ",", '\n');
    } else if i < 1 + |battery| {
      assert rows[i] == r2[i] == r1[i];
      BatteryLineClean(battery[i - 1]);
    } else if i < 1 + |battery| + |charging| {
      assert rows[i] == r2[i];
      ChargingLineClean(charging[i - 1 - |battery|]);
    } else {
      var k := i - 1 - |battery| - |charging|;
      assert rows[i] == FaultRows(faults)[k];
      assert faults[k] in faults;
      FaultLineClean(faults[k]);
    }
  }

  /** Reading the file back line by line gives one line per row, as long as no code or
      severity holds a line break. */
  lemma ExportCsvLines(battery: seq<BatteryPoint>, charging: seq<Coordinate>, faults: seq<FaultPoint>)
    requires forall e :: e in faults ==> '\n' !in e.code && '\n' !in e.severity
    ensures Split(ExportCsv(battery, charging, faults), '\n') == Lines(ExportRows(battery, charging, faults))
    ensures |Split(ExportCsv(battery, charging, faults), '\n')| == 1 + |battery| + |charging| + |faults|
  {
    var lines := Lines(ExportRows(battery, charging, faults));
    forall i | 0 <= i < |lines| ensures '\n' !in lines[i] {
      ExportLineClean(battery, charging, faults, i);
    }
    SplitJoin(lines, '\n');
  }

  /** Joining two last pieces with the separator between them is the same as joining them apart. */
  lemma {:induction false} JoinMergeLast(xs: seq<string>, a: string, b: string, sep: string)
    ensures Join(xs + [a + sep + b], sep) == Join(xs + [a, b], sep)
    decreases |xs|
  {
    if xs != [] {
      JoinMergeLast(xs[1..], a, b, sep);
      assert (xs + [a + sep + b])[1..] == xs[1..] + [a + sep + b];
      assert (xs + [a, b])[1..] == xs[1..] + [a, b];
    }
  }

  /** A fault line has one field more than the header: the details carry a comma of their own. */
  lemma FaultLineFields(e: FaultPoint)
    requires ',' !in e.code && ',' !in e.severity
    ensures Split(Join(FaultRow(e), ","), ',')
         == ["Fault", IntToString(e.lat), IntToString(e.lon), "1", "Code: " + e.code, " Severity: " + e.severity]
    ensures |Split(Join(FaultRow(e), ","), ',')| == |EXPORT_HEADER| + 1
  {
    var lat, lon := IntToString(e.lat), IntToString(e.lon);
    var code, sev := "Code: " + e.code, " Severity: " + e.severity;
    var fields := ["Fault", lat, lon, "1", code, sev];
    IntToStringPlain(e.lat);
    IntToStringPlain(e.lon);
    var head := ["Fault", lat, lon, "1"];
    assert ", Severity: " == "," + " Severity: ";
    assert "Code: " + e.code + ", Severity: " + e.severity == code + "," + sev by {
      assert "Code: " + e.code + ", Severity: " + e.severity == code + (", Severity: " + e.severity);
      assert ", Severity: " + e.severity == "," + sev;
    }
    assert FaultRow(e) == head + [code + "," + sev];
    assert fields == head + [code, sev];
    JoinMergeLast(head, code, sev, ",");
    SplitJoin(fields, ',');
  }

  // ---- default dates ----

  /** The inputs' initial values: today from midnight to 23:59. */
  function DefaultRange(year: nat, month: nat, day: nat): (range: (string, string))
    requires 1 <= month <= 12 && 1 <= day <= 31
    ensures range.0 == DateTimeText(year, month, day, "00:00")
    ensures range.1 == DateTimeText(year, month, day, "23:59")
    ensures Less(range.0, range.1)
  {
    var prefix := NatDigits(year) + "-" + Pad2(month) + "-" + Pad2(day) + "T";
    LessFirstChar("00:00", "23:59");
    LessCommonPrefix(prefix, "00:00", "23:59");
    (prefix + "00:00", prefix + "23:59")
  }
}
