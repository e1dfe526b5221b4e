/**
  load_real_data.py: clear events, metrics and activities; get-or-create the
  inventory (a failure is caught and ends only that step); at most 100
  logged events and five fixed threats; 24 hourly metrics per device; 150
  activities.
*/
module LoadRealData {
  import opened Text
  import opened Ipv4
  import opened Domain
  import opened Rules
  import opened Store
  import opened Lists
  import opened Loaders

  // ---------------------------------------------------------------------
  // Devices

  /** One inventory row; `None` when `Device` or `IP_Address` is missing (`KeyError`). */
  function RealDevice(row: InventoryRow): Option<Device>
  {
    match (row.device, row.ipAddress)
    case (Some(hostname), Some(ip)) =>
      var notes := CellOr(row.notes, "");
      Some(Device(hostname, ip, RoleType(Lower(CellOr(row.role, ""))), RiskStatus(notes), CellOr(row.os, ""), notes))
    case _ => None
  }

  /** A row raises exactly when a key column is missing; its notes are stored unchanged. */
  lemma RealDeviceFacts(row: InventoryRow)
    ensures RealDevice(row).None? <==> row.device.None? || row.ipAddress.None?
    ensures RealDevice(row).Some? ==>
      var d := RealDevice(row).value;
      && d.hostname == row.device.value && d.ipAddress == row.ipAddress.value && d.notes == CellOr(row.notes, "")
  {
  }

  // ---------------------------------------------------------------------
  // Security events

  /** The classification of logged events, on the lowercased label. */
  function EventClassOf(eventType: string): EventClass
  {
    if Contains(eventType, "login") then EventClass(LoginFailure, Severity.Critical, true)
    else if Contains(eventType, "checkout") then EventClass(SuspiciousTraffic, Severity.Warning, false)
    else if Contains(eventType, "wishlist") then EventClass(UnauthorizedAccess, Severity.Warning, true)
    else EventClass(SuspiciousTraffic, Info, false)
  }

  const EventRules: seq<Rule<EventClass>> := [
    Rule(["login"], EventClass(LoginFailure, Severity.Critical, true)),
    Rule(["checkout"], EventClass(SuspiciousTraffic, Severity.Warning, false)),
    Rule(["wishlist"], EventClass(UnauthorizedAccess, Severity.Warning, true))
  ]

  /** The classification is the first match of login, checkout, wishlist; informational traffic otherwise. */
  lemma EventTable(eventType: string)
    ensures EventClassOf(eventType) == FirstMatch(EventRules, eventType, EventClass(SuspiciousTraffic, Info, false))
  {
    FirstMatchThree(EventRules[0], EventRules[1], EventRules[2], eventType, EventClass(SuspiciousTraffic, Info, false));
    AnyOfOne(eventType, "login");
    AnyOfOne(eventType, "checkout");
    AnyOfOne(eventType, "wishlist");
  }

  /**
    Critical exactly for login labels; informational exactly when none of
    the three keywords occurs; a checkout label is a warning but not a threat.
  */
  lemma EventClassFacts(eventType: string)
    ensures var c := EventClassOf(eventType);
      && (c.severity == Severity.Critical <==> Contains(eventType, "login"))
      && (c.severity == Info <==> !Contains(eventType, "login") && !Contains(eventType, "checkout") && !Contains(eventType, "wishlist"))
      && (c.isThreat ==> c.severity != Info)
      && (!Contains(eventType, "login") && Contains(eventType, "checkout") ==> c.severity == Severity.Warning && !c.isThreat)
  {
  }

  /** The details of a logged event: its label and the raw `user_id` cell, `unknown` when missing. */
  function RealDetails(eventType: string, userId: Option<string>): string
  {
    "Event from CSV: " + eventType + " - User: " + CellOr(userId, "unknown")
  }

  /** One logged event; `x` is the address draw. */
  function RealEvent(row: EventRow, x: nat): EventDraft
  {
    var eventType := Lower(CellOr(row.eventType, "unknown"));
    var c := EventClassOf(eventType);
    EventDraft(c.category, c.severity, LocalAddress(x), RealDetails(eventType, row.userId), c.isThreat)
  }

  /** The details start with the label and end with the user cell. */
  lemma RealDetailsParts(eventType: string, userId: Option<string>)
    ensures var d := RealDetails(eventType, userId);
      && "Event from CSV: " + eventType <= d
      && d[|d| - |CellOr(userId, "unknown")|..] == CellOr(userId, "unknown")
  {
    var d := RealDetails(eventType, userId);
    assert d == ("Event from CSV: " + eventType) + (" - User: " + CellOr(userId, "unknown"));
  }

  /** The five fixed events, all of them threats. */
  const CriticalEvents: seq<EventDraft> := [
    EventDraft(LoginFailure, Severity.Critical, "203.0.113.1",
      "\U{1F6A8} CRITICAL: Multiple failed login attempts from external IP - Possible brute force attack", true),
    EventDraft(DdosAttack, Severity.Critical, "198.51.100.1",
      "\U{1F6A8} CRITICAL: DDoS attack detected - High volume of requests", true),
    EventDraft(MalwareDetected, Severity.Critical, "10.0.0.102",
      "\U{1F6A8} CRITICAL: Malware detected on PC-Client-02 - Immediate action required", true),
    EventDraft(UnauthorizedAccess, Severity.Warning, "10.0.0.1",
      "\U{26A0}\U{FE0F} WARNING: Unauthorized access attempt to router admin panel", true),
    EventDraft(SuspiciousTraffic, Severity.Warning, "192.168.1.100",
      "\U{26A0}\U{FE0F} WARNING: Unusual traffic pattern detected - Port scanning activity", true)
  ]

  /** Every fixed event is a threat; three are critical. */
  lemma CriticalEventsFacts()
    ensures |CriticalEvents| == 5
    ensures forall k | 0 <= k < 5 :: CriticalEvents[k].isThreat
    ensures forall k | 0 <= k < 5 :: CriticalEvents[k].severity == Severity.Critical <==> k < 3
  {
  }

  // ---------------------------------------------------------------------
  // Metrics, activities and the run

  /** The device created when the table is empty. */
  const DefaultServer := Device("web-server-01", "10.0.0.20", Server, DeviceStatus.Active, "", "")

  const ActivityKinds: seq<string> := ["login", "page_view", "search", "checkout", "wishlist_add"]

  /** What the script reads and draws, and the clock. */
  datatype RealInputs = RealInputs(
    inventory: ReadOutcome<InventoryRow>,
    eventAttempts: seq<ReadOutcome<EventRow>>,
    addressDraws: seq<nat>,
    metricDraw: (nat, nat, DeviceStatus) -> MetricDraw,
    kindPicks: seq<nat>,
    activityAddresses: seq<nat>,
    now: int)

  ghost predicate WellFormedInputs(in_: RealInputs)
  {
    && |in_.addressDraws| >= 100 && ValidDraws(in_.addressDraws, 1, 254)
    && (forall i: nat, h: nat, s: DeviceStatus :: Drawn(in_.metricDraw(i, h, s), DeviceRanges(s)))
    && |in_.kindPicks| >= 150 && |in_.activityAddresses| >= 150
    && ValidDraws(in_.kindPicks, 0, 4) && ValidDraws(in_.activityAddresses, 1, 254)
  }

  /** The device and event steps, on a cleared event table. */
  method LoadDevicesAndEvents(db: Database, in_: RealInputs)
    requires |in_.addressDraws| >= 100
    requires db.events == []
    modifies db`devices, db`events
    ensures db.devices == InventoryLoad(old(db.devices), in_.inventory, RealDevice).devices
    ensures var rows := Head(CsvRows(in_.eventAttempts), 100);
      db.events == SavedAll(MapPairs(RealEvent, rows, in_.addressDraws[..|rows|]), in_.now) + SavedAll(CriticalEvents, in_.now)
  {
    var loaded := LoadInventory(db, in_.inventory, RealDevice);
    var events := CsvEventsThenFixed(db, in_.eventAttempts, 100, RealEvent, in_.addressDraws, CriticalEvents, in_.now);
    assert [] + db.events == db.events;
  }

  /** The metric and activity steps, on cleared metric and activity tables. */
  method LoadMetricsAndActivities(db: Database, in_: RealInputs)
    requires WellFormedInputs(in_)
    requires db.metrics == [] && db.activities == []
    modifies db`devices, db`metrics, db`activities
    ensures db.devices == if old(db.devices) == [] then [DefaultServer] else old(db.devices)
    ensures |db.metrics| == 24 * |db.devices|
    ensures forall i, h | 0 <= i < |db.devices| && 0 <= h < 24 ::
      db.metrics[24 * i + h] == DrawnMetric(in_.now, h, in_.metricDraw(i, h, db.devices[i].status))
    ensures forall k | 0 <= k < |db.metrics| :: InRanges(db.metrics[k], DeviceRanges(db.devices[k / 24].status))
    ensures |db.activities| == 150
    ensures forall k | 0 <= k < 150 ::
      db.activities[k] == Activity(ActivityKinds[in_.kindPicks[k]], LocalAddress(in_.activityAddresses[k]), None, in_.now)
  {
    var metrics := MetricsForDevices(db, DefaultServer, in_.now, in_.metricDraw);
    ghost var devices, hourly := db.devices, db.metrics;
    CreateActivities(db, 150, ActivityKinds, in_.kindPicks, in_.activityAddresses, in_.now);
    assert db.devices == devices && db.metrics == hourly;
  }

  /**
    The whole script after the admin user: nothing escapes, events are the
    logged ones and the five fixed ones, every device gets 24 metrics, and
    150 activities are added.
  */
  method Run(db: Database, in_: RealInputs)
    requires WellFormedInputs(in_)
    modifies db
    ensures var loaded := InventoryLoad(old(db.devices), in_.inventory, RealDevice).devices;
      db.devices == if loaded == [] then [DefaultServer] else loaded
    ensures var rows := Head(CsvRows(in_.eventAttempts), 100);
      db.events == SavedAll(MapPairs(RealEvent, rows, in_.addressDraws[..|rows|]), in_.now) + SavedAll(CriticalEvents, in_.now)
    ensures |db.metrics| == 24 * |db.devices|
    ensures forall i, h | 0 <= i < |db.devices| && 0 <= h < 24 ::
      db.metrics[24 * i + h] == DrawnMetric(in_.now, h, in_.metricDraw(i, h, db.devices[i].status))
    ensures forall k | 0 <= k < |db.metrics| :: InRanges(db.metrics[k], DeviceRanges(db.devices[k / 24].status))
    ensures |db.activities| == 150
    ensures forall k | 0 <= k < 150 ::
      db.activities[k] == Activity(ActivityKinds[in_.kindPicks[k]], LocalAddress(in_.activityAddresses[k]), None, in_.now)
  {
    db.DeleteEvents();
    db.DeleteMetrics();
    db.DeleteActivities();
    ghost var before := db.devices;
    LoadDevicesAndEvents(db, in_);
    ghost var loaded, events := db.devices, db.events;
    assert loaded == InventoryLoad(before, in_.inventory, RealDevice).devices;
    LoadMetricsAndActivities(db, in_);
    assert db.events == events;
    assert db.devices == if loaded == [] then [DefaultServer] else loaded;
  }

  // ---------------------------------------------------------------------
  // The script as written

  /** The keyword names of this script's `SystemMetrics.objects.create` call. */
  const MetricKeywords: seq<string> := ["timestamp", "device", "cpu_usage", "memory_usage", "response_time"]

  /** `SystemMetrics` has no `device` field, so its constructor refuses the call. */
  lemma MetricKeywordsRejected()
    ensures !Accepts(MetricFields, MetricKeywords)
  {
    assert MetricKeywords[1] == "device" && "device" !in MetricFields;
  }

  /**
    The whole script as written: devices and events as in `Run`, then the
    first metric `create` raises `TypeError`, which nothing catches, so no
    metric, product or activity is stored.
  */
  method RunAsWritten(db: Database, in_: RealInputs) returns (raised: bool)
    requires WellFormedInputs(in_)
    modifies db
    ensures raised
    ensures var loaded := InventoryLoad(old(db.devices), in_.inventory, RealDevice).devices;
      db.devices == if loaded == [] then [DefaultServer] else loaded
    ensures var rows := Head(CsvRows(in_.eventAttempts), 100);
      db.events == SavedAll(MapPairs(RealEvent, rows, in_.addressDraws[..|rows|]), in_.now) + SavedAll(CriticalEvents, in_.now)
    ensures db.metrics == [] && db.activities == []
  {
    db.DeleteEvents();
    db.DeleteMetrics();
    db.DeleteActivities();
    LoadDevicesAndEvents(db, in_);
    ghost var events := db.events;
    MetricKeywordsRejected();
    raised := MetricsForDevicesWith(db, MetricKeywords, DefaultServer, in_.now, in_.metricDraw);
    assert db.events == events;
  }
}
