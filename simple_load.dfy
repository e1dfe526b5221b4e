/**
  simple_load.py: clear events, metrics and activities; get-or-create the
  inventory (any exception ends the step and reports no devices); at most
  50 logged events and three fixed critical threats; 24 hourly metrics; 100
  activities.
*/
module SimpleLoad {
  import opened Text
  import opened Domain
  import opened Rules
  import opened Store
  import opened Lists
  import opened Loaders

  // ---------------------------------------------------------------------
  // Devices

  /** Critical when the lowercased notes mention no antivirus, outdated software or no firewall. */
  function StatusOf(notes: string): DeviceStatus
  {
    var notesLower := Lower(notes);
    if Contains(notesLower, "no antivirus") || Contains(notesLower, "outdated") || Contains(notesLower, "no firewall")
    then DeviceStatus.Critical
    else DeviceStatus.Active
  }

  const StatusRules: seq<Rule<DeviceStatus>> := [Rule(["no antivirus", "outdated", "no firewall"], DeviceStatus.Critical)]

  /** One keyword rule with active as the fallback; every note the shared risk rule flags is flagged here too. */
  lemma StatusTable(notes: string)
    ensures StatusOf(notes) == FirstMatch(StatusRules, Lower(notes), DeviceStatus.Active)
    ensures StatusOf(notes) != DeviceStatus.Warning
    ensures RiskStatus(notes) == DeviceStatus.Critical ==> StatusOf(notes) == DeviceStatus.Critical
  {
    FirstMatchOne(StatusRules[0], Lower(notes), DeviceStatus.Active);
    AnyOfThree(Lower(notes), "no antivirus", "outdated", "no firewall");
  }

  /** One inventory row; `None` when `Device` or `IP_Address` is missing (`row['Device']` raises). */
  function SimpleDevice(row: InventoryRow): Option<Device>
  {
    match (row.device, row.ipAddress)
    case (Some(hostname), Some(ip)) =>
      var notes := CellOr(row.notes, "");
      Some(Device(hostname, ip, ServerUnlessNamed(Lower(CellOr(row.role, ""))), StatusOf(notes), CellOr(row.os, ""), notes))
    case _ => None
  }

  /** A row raises exactly when a key column is missing; otherwise it is never a workstation. */
  lemma SimpleDeviceFacts(row: InventoryRow)
    ensures SimpleDevice(row).None? <==> row.device.None? || row.ipAddress.None?
    ensures SimpleDevice(row).Some? ==>
      var d := SimpleDevice(row).value;
      && d.hostname == row.device.value && d.ipAddress == row.ipAddress.value
      && d.deviceType != Workstation && d.status != DeviceStatus.Warning
  {
    ServerUnlessNamedTable(Lower(CellOr(row.role, "")));
    StatusTable(CellOr(row.notes, ""));
  }

  /**
    `device_count`: the size of the device table when the step finished,
    0 when any exception (a failed read, a missing column, several devices
    with one hostname) ended it.
  */
  function DeviceCount(load: PartialLoad, inventory: ReadOutcome<InventoryRow>): (n: nat)
    ensures n > 0 ==> inventory.Table? && load.halt == None
  {
    if inventory.Table? && load.halt == None then |load.devices| else 0
  }

  // ---------------------------------------------------------------------
  // Security events

  /** Login labels are critical threats, checkout labels warnings, the rest informational. */
  function SimpleClass(eventType: string): EventClass
  {
    if Contains(eventType, "login") then EventClass(LoginFailure, Severity.Critical, true)
    else if Contains(eventType, "checkout") then EventClass(SuspiciousTraffic, Severity.Warning, false)
    else EventClass(SuspiciousTraffic, Info, false)
  }

  const EventRules: seq<Rule<EventClass>> := [
    Rule(["login"], EventClass(LoginFailure, Severity.Critical, true)),
    Rule(["checkout"], EventClass(SuspiciousTraffic, Severity.Warning, false))
  ]

  /**
    The first match of login, checkout; the shared login classification
    refined by a warning for checkout labels, and the same threats.
  */
  lemma EventTable(eventType: string)
    ensures SimpleClass(eventType) == FirstMatch(EventRules, eventType, EventClass(SuspiciousTraffic, Info, false))
    ensures SimpleClass(eventType).isThreat == LoginClass(eventType).isThreat
    ensures SimpleClass(eventType).severity == Severity.Warning <==> !Contains(eventType, "login") && Contains(eventType, "checkout")
    ensures SimpleClass(eventType) != LoginClass(eventType) ==> SimpleClass(eventType).severity == Severity.Warning
  {
    FirstMatchTwo(EventRules[0], EventRules[1], eventType, EventClass(SuspiciousTraffic, Info, false));
    AnyOfOne(eventType, "login");
    AnyOfOne(eventType, "checkout");
  }

  /** One logged event; `x` is the address draw. */
  function SimpleEvent(row: EventRow, x: nat): EventDraft
  {
    var eventType := Lower(CellOr(row.eventType, "unknown"));
    var c := SimpleClass(eventType);
    EventDraft(c.category, c.severity, LocalAddress(x), "CSV Event: " + eventType, c.isThreat)
  }

  /** The three fixed events; the leading icon is U+1F6A8. */
  const DemoEvents: seq<EventDraft> := [
    EventDraft(LoginFailure, Severity.Critical, "203.0.113.1",
      "\U{1F6A8} CRITICAL: Brute force attack detected - 50+ failed logins", true),
    EventDraft(MalwareDetected, Severity.Critical, "10.0.0.102",
      "\U{1F6A8} CRITICAL: Malware found on PC-Client-02", true),
    EventDraft(DdosAttack, Severity.Critical, "198.51.100.1",
      "\U{1F6A8} CRITICAL: DDoS attack in progress", true)
  ]

  /** Every fixed event is a critical threat. */
  lemma DemoEventsFacts()
    ensures |DemoEvents| == 3
    ensures forall k | 0 <= k < 3 :: DemoEvents[k].isThreat && DemoEvents[k].severity == Severity.Critical
  {
  }

  // ---------------------------------------------------------------------
  // The run

  const ActivityKinds: seq<string> := ["login", "page_view", "checkout"]

  /** What the script reads and draws, and the clock. */
  datatype SimpleInputs = SimpleInputs(
    inventory: ReadOutcome<InventoryRow>,
    eventAttempts: seq<ReadOutcome<EventRow>>,
    addressDraws: seq<nat>,
    metricDraws: seq<MetricDraw>,
    kindPicks: seq<nat>,
    activityAddresses: seq<nat>,
    now: int)

  predicate WellFormedInputs(in_: SimpleInputs)
  {
    && |in_.addressDraws| >= 50
    && |in_.metricDraws| == 24
    && (forall h | 0 <= h < 24 :: Drawn(in_.metricDraws[h], DemoRanges))
    && ValidDraws(in_.addressDraws, 1, 254)
    && |in_.kindPicks| >= 100 && |in_.activityAddresses| >= 100
    && ValidDraws(in_.kindPicks, 0, 2) && ValidDraws(in_.activityAddresses, 1, 254)
  }

  /** The device and event steps. */
  method LoadDevicesAndEvents(db: Database, in_: SimpleInputs) returns (deviceCount: nat, eventsCreated: nat)
    requires |in_.addressDraws| >= 50
    modifies db`devices, db`events
    ensures var load := InventoryLoad(old(db.devices), in_.inventory, SimpleDevice);
      db.devices == load.devices && deviceCount == DeviceCount(load, in_.inventory)
    ensures var rows := Head(CsvRows(in_.eventAttempts), 50);
      && eventsCreated == |rows| + 3
      && db.events == old(db.events) + SavedAll(MapPairs(SimpleEvent, rows, in_.addressDraws[..|rows|]), in_.now)
                      + SavedAll(DemoEvents, in_.now)
  {
    var load := LoadInventory(db, in_.inventory, SimpleDevice);
    deviceCount := if in_.inventory.Table? && load.halt == None then |db.devices| else 0;
    eventsCreated := CsvEventsThenFixed(db, in_.eventAttempts, 50, SimpleEvent, in_.addressDraws, DemoEvents, in_.now);
  }

  /**
    The whole script after the admin user and without the products: the
    counters it prints, the events, 24 metrics in the demo ranges and 100
    activities of the three kinds.
  */
  method Run(db: Database, in_: SimpleInputs) returns (deviceCount: nat, eventsCreated: nat, metricsCreated: nat)
    requires WellFormedInputs(in_)
    modifies db
    ensures var load := InventoryLoad(old(db.devices), in_.inventory, SimpleDevice);
      db.devices == load.devices && deviceCount == DeviceCount(load, in_.inventory)
    ensures var rows := Head(CsvRows(in_.eventAttempts), 50);
      && eventsCreated == |rows| + 3
      && db.events == SavedAll(MapPairs(SimpleEvent, rows, in_.addressDraws[..|rows|]), in_.now) + SavedAll(DemoEvents, in_.now)
    ensures |db.metrics| == 24 && metricsCreated == 24
    ensures forall h | 0 <= h < 24 :: db.metrics[h] == DrawnMetric(in_.now, h, in_.metricDraws[h])
    ensures forall k | 0 <= k < 24 :: InRanges(db.metrics[k], DemoRanges)
    ensures |db.activities| == 100
    ensures forall k | 0 <= k < 100 ::
      db.activities[k] == Activity(ActivityKinds[in_.kindPicks[k]], LocalAddress(in_.activityAddresses[k]), None, in_.now)
    ensures forall k | 0 <= k < 100 :: db.activities[k].eventType in ActivityKinds
  {
    db.DeleteEvents();
    db.DeleteMetrics();
    db.DeleteActivities();
    deviceCount, eventsCreated := LoadDevicesAndEvents(db, in_);
    ghost var devices, events := db.devices, db.events;
    metricsCreated := HourlyMetrics(db, in_.now, in_.metricDraws, DemoRanges);
    ghost var metrics := db.metrics;
    CreateActivities(db, 100, ActivityKinds, in_.kindPicks, in_.activityAddresses, in_.now);
    assert db.devices == devices && db.events == events && db.metrics == metrics;
  }
}
