/**
  clean_load.py: clear events, metrics and activities; get-or-create the
  inventory (an exception ends the step); at most 50 logged events and two
  fixed critical threats; 24 hourly metrics; 50 activities.
*/
module CleanLoad {
  import opened Text
  import opened Domain
  import opened Rules
  import opened Store
  import opened Lists
  import opened Loaders

  /** One inventory row; `None` when `Device` or `IP_Address` is missing. */
  function CleanLoadDevice(row: InventoryRow): Option<Device>
  {
    match (row.device, row.ipAddress)
    case (Some(hostname), Some(ip)) =>
      var notes := CellOr(row.notes, "");
      Some(Device(hostname, ip, ServerUnlessNamed(Lower(CellOr(row.role, ""))), RiskStatus(notes), CellOr(row.os, ""), notes))
    case _ => None
  }

  /**
    A row raises exactly when a key column is missing; otherwise a server
    unless the role names a router or a printer, and critical exactly for
    the risk keywords.
  */
  lemma CleanLoadDeviceFacts(row: InventoryRow)
    ensures CleanLoadDevice(row).None? <==> row.device.None? || row.ipAddress.None?
    ensures CleanLoadDevice(row).Some? ==>
      var d := CleanLoadDevice(row).value;
      var role := Lower(CellOr(row.role, ""));
      && d.hostname == row.device.value && d.ipAddress == row.ipAddress.value
      && (d.deviceType == Server <==> !Contains(role, "router") && !Contains(role, "printer"))
      && d.status == FirstMatch(RiskRules, Lower(CellOr(row.notes, "")), DeviceStatus.Active)
  {
    ServerUnlessNamedTable(Lower(CellOr(row.role, "")));
    RiskStatusTable(CellOr(row.notes, ""));
  }

  /** One logged event; `x` is the address draw. */
  function CleanLoadEvent(row: EventRow, x: nat): EventDraft
  {
    var eventType := Lower(CellOr(row.eventType, "unknown"));
    var c := LoginClass(eventType);
    EventDraft(c.category, c.severity, LocalAddress(x), "CSV: " + eventType, c.isThreat)
  }

  /** A logged event is a threat exactly when it is critical, exactly for login labels. */
  lemma CleanLoadEventFacts(row: EventRow, x: nat)
    ensures var e := CleanLoadEvent(row, x);
      && (e.isThreat <==> e.severity == Severity.Critical)
      && (e.isThreat <==> Contains(Lower(CellOr(row.eventType, "unknown")), "login"))
      && "CSV: " <= e.details
  {
    LoginClassFacts(Lower(CellOr(row.eventType, "unknown")));
  }

  /** The two fixed events. */
  const DemoEvents: seq<EventDraft> := [
    EventDraft(LoginFailure, Severity.Critical, "203.0.113.1", "Multiple failed login attempts", true),
    EventDraft(MalwareDetected, Severity.Critical, "10.0.0.102", "Malware detected on PC-Client-02", true)
  ]

  /** Both fixed events are critical threats. */
  lemma DemoEventsFacts()
    ensures |DemoEvents| == 2
    ensures forall k | 0 <= k < 2 :: DemoEvents[k].isThreat && DemoEvents[k].severity == Severity.Critical
  {
  }

  const ActivityKinds: seq<string> := ["login", "page_view", "checkout"]

  /** What the script reads and draws, and the clock. */
  datatype CleanLoadInputs = CleanLoadInputs(
    inventory: ReadOutcome<InventoryRow>,
    eventAttempts: seq<ReadOutcome<EventRow>>,
    addressDraws: seq<nat>,
    metricDraws: seq<MetricDraw>,
    kindPicks: seq<nat>,
    activityAddresses: seq<nat>,
    now: int)

  predicate WellFormedInputs(in_: CleanLoadInputs)
  {
    && |in_.addressDraws| >= 50
    && |in_.metricDraws| == 24
    && (forall h | 0 <= h < 24 :: Drawn(in_.metricDraws[h], DemoRanges))
    && ValidDraws(in_.addressDraws, 1, 254)
    && |in_.kindPicks| >= 50 && |in_.activityAddresses| >= 50
    && ValidDraws(in_.kindPicks, 0, 2) && ValidDraws(in_.activityAddresses, 1, 254)
  }

  /** The device and event steps. */
  method LoadDevicesAndEvents(db: Database, in_: CleanLoadInputs) returns (eventsCreated: nat)
    requires |in_.addressDraws| >= 50
    modifies db`devices, db`events
    ensures db.devices == InventoryLoad(old(db.devices), in_.inventory, CleanLoadDevice).devices
    ensures var rows := Head(CsvRows(in_.eventAttempts), 50);
      && eventsCreated == |rows| + 2
      && db.events == old(db.events) + SavedAll(MapPairs(CleanLoadEvent, rows, in_.addressDraws[..|rows|]), in_.now)
                      + SavedAll(DemoEvents, in_.now)
  {
    var load := LoadInventory(db, in_.inventory, CleanLoadDevice);
    eventsCreated := CsvEventsThenFixed(db, in_.eventAttempts, 50, CleanLoadEvent, in_.addressDraws, DemoEvents, in_.now);
  }

  /**
    The whole script after the admin user and without the products: the
    events, 24 metrics in the demo ranges and 50 activities.
  */
  method Run(db: Database, in_: CleanLoadInputs) returns (eventsCreated: nat)
    requires WellFormedInputs(in_)
    modifies db
    ensures db.devices == InventoryLoad(old(db.devices), in_.inventory, CleanLoadDevice).devices
    ensures var rows := Head(CsvRows(in_.eventAttempts), 50);
      && eventsCreated == |rows| + 2
      && db.events == SavedAll(MapPairs(CleanLoadEvent, rows, in_.addressDraws[..|rows|]), in_.now) + SavedAll(DemoEvents, in_.now)
    ensures |db.metrics| == 24
    ensures forall h | 0 <= h < 24 :: db.metrics[h] == DrawnMetric(in_.now, h, in_.metricDraws[h])
    ensures forall k | 0 <= k < 24 :: InRanges(db.metrics[k], DemoRanges)
    ensures |db.activities| == 50
    ensures forall k | 0 <= k < 50 ::
      db.activities[k] == Activity(ActivityKinds[in_.kindPicks[k]], LocalAddress(in_.activityAddresses[k]), None, in_.now)
    ensures forall k | 0 <= k < 50 :: db.activities[k].eventType in ActivityKinds
  {
    db.DeleteEvents();
    db.DeleteMetrics();
    db.DeleteActivities();
    eventsCreated := LoadDevicesAndEvents(db, in_);
    ghost var devices, events := db.devices, db.events;
    var metrics := HourlyMetrics(db, in_.now, in_.metricDraws, DemoRanges);
    ghost var metricRows := db.metrics;
    CreateActivities(db, 50, ActivityKinds, in_.kindPicks, in_.activityAddresses, in_.now);
    assert db.devices == devices && db.events == events && db.metrics == metricRows;
  }
}
