/**
  clean_etl.py: clear events, metrics and activities; load the inventory
  reading every cell with a default, so that no row can raise; at most 50
  logged events and three fixed critical threats; 24 hourly metrics; a
  report of what was loaded.
*/
module CleanEtl {
  import opened Text
  import opened Domain
  import opened Rules
  import opened Store
  import opened Lists
  import opened Loaders

  // ---------------------------------------------------------------------
  // Devices

  /**
    One inventory row. Every cell is read with `row.get(..., '')`, so a
    missing column gives the empty string; hostname and address are
    stripped, the role and notes are matched lowercased, the notes are
    stored as read.
  */
  function CleanDevice(row: InventoryRow): Device
  {
    var notes := CellOr(row.notes, "");
    Device(Strip(CellOr(row.device, "")), Strip(CellOr(row.ipAddress, "")),
           RoleType(Lower(CellOr(row.role, ""))), RiskStatus(notes), CellOr(row.os, ""), notes)
  }

  /** The loop entry of a row: never a missing column. */
  function CleanRow(row: InventoryRow): Option<Device>
  {
    Some(CleanDevice(row))
  }

  /**
    The hostname and address carry no surrounding whitespace, a missing
    `Device` column gives the empty hostname, the type and status follow
    their keyword tables and the notes are kept unchanged.
  */
  lemma CleanDeviceFacts(row: InventoryRow)
    ensures var d := CleanDevice(row);
      && Trimmed(d.hostname) && Trimmed(d.ipAddress)
      && (row.device.None? ==> d.hostname == "")
      && d.deviceType == FirstMatch(RoleTypeRules, Lower(CellOr(row.role, "")), Workstation)
      && d.status == FirstMatch(RiskRules, Lower(CellOr(row.notes, "")), DeviceStatus.Active)
      && d.status != DeviceStatus.Warning
      && d.notes == CellOr(row.notes, "")
  {
    RoleTypeTable(Lower(CellOr(row.role, "")));
    RiskStatusTable(CellOr(row.notes, ""));
  }

  /**
    On a table whose hostnames are unique the device loop never stops
    early: `devices_loaded` counts every row, and every row's hostname is
    in the table afterwards.
  */
  lemma CleanInventoryCompletes(ds: seq<Device>, rows: seq<InventoryRow>)
    requires UniqueHostnames(ds)
    ensures var r := InventoryLoad(ds, Table(rows), CleanRow);
      && r.halt == None && r.returned == |rows| && UniqueHostnames(r.devices)
      && forall k | 0 <= k < |rows| :: HasHost(r.devices, CleanDevice(rows[k]).hostname)
  {
    var list := seq(|rows|, k requires 0 <= k < |rows| => CleanDevice(rows[k]));
    assert MapRows(CleanRow, rows) == Present(list);
    LoadPresentCompletes(ds, list);
  }

  // ---------------------------------------------------------------------
  // Security events

  /** One logged event: its lowercased label decides the class; `x` is the address draw. */
  function CleanEvent(row: EventRow, x: nat): EventDraft
  {
    var eventType := Lower(CellOr(row.eventType, "unknown"));
    var c := LoginClass(eventType);
    EventDraft(c.category, c.severity, LocalAddress(x), "CSV Event: " + eventType, c.isThreat)
  }

  /** A logged event is a threat exactly when it is critical, and its details name its label. */
  lemma CleanEventFacts(row: EventRow, x: nat)
    ensures var e := CleanEvent(row, x);
      && (e.isThreat <==> e.severity == Severity.Critical)
      && (e.isThreat <==> Contains(Lower(CellOr(row.eventType, "unknown")), "login"))
      && Contains(e.details, Lower(CellOr(row.eventType, "unknown")))
  {
    var eventType := Lower(CellOr(row.eventType, "unknown"));
    LoginClassFacts(eventType);
    ContainsAt("CSV Event: " + eventType, eventType, 11);
  }

  /** The three fixed events. */
  const DemoEvents: seq<EventDraft> := [
    EventDraft(LoginFailure, Severity.Critical, "203.0.113.1", "Multiple failed login attempts detected", true),
    EventDraft(MalwareDetected, Severity.Critical, "10.0.0.102", "Malware detected on PC-Client-02", true),
    EventDraft(DdosAttack, Severity.Critical, "198.51.100.1", "DDoS attack in progress", true)
  ]

  /** Every fixed event is a critical threat from a distinct source. */
  lemma DemoEventsFacts()
    ensures |DemoEvents| == 3
    ensures forall k | 0 <= k < 3 :: DemoEvents[k].isThreat && DemoEvents[k].severity == Severity.Critical
    ensures forall j, k | 0 <= j < k < 3 :: DemoEvents[j].sourceIp != DemoEvents[k].sourceIp
  {
  }

  // ---------------------------------------------------------------------
  // The run

  /** `etl_report.json`: the status and the three counters. */
  datatype EtlReport = EtlReport(status: string, devices: nat, events: nat, metrics: nat)

  /** What the script reads and draws, and the clock. */
  datatype CleanInputs = CleanInputs(
    inventory: ReadOutcome<InventoryRow>,
    eventAttempts: seq<ReadOutcome<EventRow>>,
    addressDraws: seq<nat>,
    metricDraws: seq<MetricDraw>,
    now: int)

  predicate WellFormedInputs(in_: CleanInputs)
  {
    && |in_.addressDraws| >= 50 && ValidDraws(in_.addressDraws, 1, 254)
    && |in_.metricDraws| == 24
    && forall h | 0 <= h < 24 :: Drawn(in_.metricDraws[h], DemoRanges)
  }

  /** Phases 1 and 2: devices, then logged and fixed events. */
  method LoadDevicesAndEvents(db: Database, in_: CleanInputs) returns (devicesLoaded: nat, eventsLoaded: nat)
    requires |in_.addressDraws| >= 50
    modifies db`devices, db`events
    ensures var load := InventoryLoad(old(db.devices), in_.inventory, CleanRow);
      db.devices == load.devices && devicesLoaded == load.returned
    ensures var rows := Head(CsvRows(in_.eventAttempts), 50);
      && eventsLoaded == |rows| + 3
      && db.events == old(db.events) + SavedAll(MapPairs(CleanEvent, rows, in_.addressDraws[..|rows|]), in_.now)
                      + SavedAll(DemoEvents, in_.now)
  {
    var load := LoadInventory(db, in_.inventory, CleanRow);
    devicesLoaded := load.returned;
    eventsLoaded := CsvEventsThenFixed(db, in_.eventAttempts, 50, CleanEvent, in_.addressDraws, DemoEvents, in_.now);
  }

  /**
    The whole script after the admin user: the report's counters are the
    rows the device loop got through, the events created and the 24
    metrics; activities are cleared and none are added.
  */
  method Run(db: Database, in_: CleanInputs) returns (report: EtlReport)
    requires WellFormedInputs(in_)
    modifies db
    ensures var load := InventoryLoad(old(db.devices), in_.inventory, CleanRow);
      db.devices == load.devices && report.devices == load.returned
    ensures var rows := Head(CsvRows(in_.eventAttempts), 50);
      && report.events == |rows| + 3
      && db.events == SavedAll(MapPairs(CleanEvent, rows, in_.addressDraws[..|rows|]), in_.now) + SavedAll(DemoEvents, in_.now)
    ensures |db.metrics| == 24 && report.metrics == 24
    ensures forall h | 0 <= h < 24 :: db.metrics[h] == DrawnMetric(in_.now, h, in_.metricDraws[h])
    ensures forall k | 0 <= k < 24 :: InRanges(db.metrics[k], DemoRanges)
    ensures db.activities == []
    ensures report.status == "SUCCESS"
  {
    db.DeleteEvents();
    db.DeleteMetrics();
    db.DeleteActivities();
    var devicesLoaded, eventsLoaded := LoadDevicesAndEvents(db, in_);
    ghost var devices, events := db.devices, db.events;
    var metricsLoaded := HourlyMetrics(db, in_.now, in_.metricDraws, DemoRanges);
    assert db.devices == devices && db.events == events;
    report := EtlReport("SUCCESS", devicesLoaded, eventsLoaded, metricsLoaded);
  }
}
