/**
  fix_data_loading.py: get-or-create the inventory (or five sample devices),
  load at most 50 logged events plus five sample events, 24 hourly metrics
  per device and 100 activities. Nothing is deleted first. An exception while
  loading the devices is not caught and ends the run.
*/
module FixDataLoading {
  import opened Text
  import opened Ipv4
  import opened Domain
  import opened Rules
  import opened Store
  import opened Lists
  import opened Loaders

  // ---------------------------------------------------------------------
  // Devices

  /** The status: critical exactly when the lowercased notes mention "no antivirus". */
  function StatusOf(notes: string): (s: DeviceStatus)
    ensures s != DeviceStatus.Warning
  {
    if Contains(Lower(notes), "no antivirus") then DeviceStatus.Critical else DeviceStatus.Active
  }

  const StatusRules: seq<Rule<DeviceStatus>> := [Rule(["no antivirus"], DeviceStatus.Critical)]

  /** One keyword rule with active as the fallback; a device flagged here is flagged by the shared risk rule too. */
  lemma StatusTable(notes: string)
    ensures StatusOf(notes) == FirstMatch(StatusRules, Lower(notes), DeviceStatus.Active)
    ensures StatusOf(notes) == DeviceStatus.Critical ==> RiskStatus(notes) == DeviceStatus.Critical
  {
    FirstMatchOne(StatusRules[0], Lower(notes), DeviceStatus.Active);
    AnyOfOne(Lower(notes), "no antivirus");
  }

  /**
    One inventory row: `row['Device']` and `row['IP_Address']` raise
    `KeyError` when the column is missing (`None`); the other cells default
    to empty, and nothing is stripped.
  */
  function FixDevice(row: InventoryRow): Option<Device>
  {
    match (row.device, row.ipAddress)
    case (Some(hostname), Some(ip)) =>
      var notes := CellOr(row.notes, "");
      Some(Device(hostname, ip, RoleType(Lower(CellOr(row.role, ""))), StatusOf(notes), CellOr(row.os, ""), notes))
    case _ => None
  }

  /** A row raises exactly when a key column is missing; otherwise its cells are stored as read. */
  lemma FixDeviceFacts(row: InventoryRow)
    ensures FixDevice(row).None? <==> row.device.None? || row.ipAddress.None?
    ensures FixDevice(row).Some? ==>
      var d := FixDevice(row).value;
      && d.hostname == row.device.value && d.ipAddress == row.ipAddress.value
      && d.notes == CellOr(row.notes, "") && d.os == CellOr(row.os, "")
      && (d.status == DeviceStatus.Critical <==> Contains(Lower(d.notes), "no antivirus"))
  {
  }

  /** The five sample devices of the missing-file branch (empty notes). */
  const SampleDevices: seq<Device> := [
    Device("Router1", "10.0.0.1", Router, DeviceStatus.Active, "Cisco IOS", ""),
    Device("WebServer1", "10.0.0.20", Server, DeviceStatus.Active, "Ubuntu 18.04", ""),
    Device("DBServer1", "10.0.0.30", Server, DeviceStatus.Active, "Windows 2012", ""),
    Device("PC-Client-01", "10.0.0.101", Workstation, DeviceStatus.Active, "Win 10 Pro", ""),
    Device("PC-Client-02", "10.0.0.102", Workstation, DeviceStatus.Critical, "Win 10 Home", "")
  ]

  /** Five distinct hostnames; only PC-Client-02 is critical. */
  lemma SampleDevicesFacts()
    ensures |SampleDevices| == 5 && UniqueHostnames(SampleDevices)
    ensures forall k | 0 <= k < 5 :: SampleDevices[k].status == DeviceStatus.Critical <==> k == 4
  {
  }

  /**
    `load_network_devices`. The encodings are tried in turn
    (`FirstDecoded`); a table is loaded row by row, a missing file loads the
    samples, and anything else escapes (`raised`): a read failure, every
    encoding failing (then `df` is unbound), a missing key column or
    `MultipleObjectsReturned` in the loop.
  */
  method LoadNetworkDevices(db: Database, attempts: seq<ReadOutcome<InventoryRow>>) returns (raised: bool)
    requires |attempts| >= 1
    modifies db`devices
    ensures var o := FirstDecoded(attempts);
      && (o.Table? ==>
            var r := LoadUntilFailure(old(db.devices), MapRows(FixDevice, o.rows));
            db.devices == r.devices && (raised <==> r.halt != None))
      && (o.NotFound? ==>
            var r := LoadUntilFailure(old(db.devices), Present(SampleDevices));
            db.devices == r.devices && (raised <==> r.halt != None))
      && (o.DecodeError? || o.Failed? ==> raised && db.devices == old(db.devices))
  {
    var outcome := TryEncodings(attempts);
    match outcome {
      case Table(rows) =>
        var r := GetOrCreateEach(db, MapRows(FixDevice, rows));
        raised := r.halt != None;
      case NotFound =>
        var r := GetOrCreateEach(db, Present(SampleDevices));
        raised := r.halt != None;
      case DecodeError(_) =>
        raised := true;
      case Failed(_) =>
        raised := true;
    }
  }

  /** On a table with unique hostnames the samples always load, all five of them. */
  lemma SamplesLoad(ds: seq<Device>)
    requires UniqueHostnames(ds)
    ensures var r := LoadUntilFailure(ds, Present(SampleDevices));
      && r.halt == None && UniqueHostnames(r.devices)
      && forall k | 0 <= k < 5 :: HasHost(r.devices, SampleDevices[k].hostname)
  {
    LoadPresentCompletes(ds, SampleDevices);
  }

  // ---------------------------------------------------------------------
  // Security events

  /** The classification of `load_security_events`, on the lowercased label. */
  function EventClassOf(eventType: string): EventClass
  {
    if Contains(eventType, "login") then EventClass(LoginFailure, Severity.Warning, true)
    else if Contains(eventType, "checkout") then EventClass(SuspiciousTraffic, Info, false)
    else if Contains(eventType, "wishlist") then EventClass(UnauthorizedAccess, Severity.Warning, true)
    else EventClass(SuspiciousTraffic, Info, false)
  }

  const EventRules: seq<Rule<EventClass>> := [
    Rule(["login"], EventClass(LoginFailure, Severity.Warning, true)),
    Rule(["checkout"], EventClass(SuspiciousTraffic, Info, false)),
    Rule(["wishlist"], EventClass(UnauthorizedAccess, Severity.Warning, true))
  ]

  /** The classification is the first match of login, checkout, wishlist; suspicious traffic otherwise. */
  lemma EventTable(eventType: string)
    ensures EventClassOf(eventType) == FirstMatch(EventRules, eventType, EventClass(SuspiciousTraffic, Info, false))
  {
    FirstMatchThree(EventRules[0], EventRules[1], EventRules[2], eventType, EventClass(SuspiciousTraffic, Info, false));
    AnyOfOne(eventType, "login");
    AnyOfOne(eventType, "checkout");
    AnyOfOne(eventType, "wishlist");
  }

  /**
    No logged event is critical; an event is a threat exactly when it is
    a warning, which is for login labels and wishlist labels without checkout.
  */
  lemma EventClassFacts(eventType: string)
    ensures var c := EventClassOf(eventType);
      && c.severity != Severity.Critical
      && (c.isThreat <==> c.severity == Severity.Warning)
      && (c.isThreat <==> Contains(eventType, "login") || (!Contains(eventType, "checkout") && Contains(eventType, "wishlist")))
  {
  }

  /** One logged event: a local source address whatever the class, and the label in the details. */
  function FixEvent(row: EventRow, x: nat): EventDraft
  {
    var eventType := Lower(CellOr(row.eventType, "unknown"));
    var c := EventClassOf(eventType);
    EventDraft(c.category, c.severity, LocalAddress(x), "Event from CSV: " + eventType, c.isThreat)
  }

  /** Every logged event comes from a valid 192.168.1.x address, threats included. */
  lemma FixEventAddress(row: EventRow, x: nat)
    requires 1 <= x <= 254
    ensures ValidIpAddress(FixEvent(row, x).sourceIp) && Octets(FixEvent(row, x).sourceIp) == [192, 168, 1, x]
  {
    LocalAddressValid(x);
  }

  /** The five events added whether or not the log was read. */
  const SampleEvents: seq<EventDraft> := [
    EventDraft(LoginFailure, Severity.Critical, "203.0.113.1", "Multiple failed login attempts from external IP", true),
    EventDraft(DdosAttack, Severity.Critical, "198.51.100.1", "DDoS attack detected from botnet", true),
    EventDraft(MalwareDetected, Severity.Critical, "10.0.0.102", "Malware detected on PC-Client-02", true),
    EventDraft(UnauthorizedAccess, Severity.Warning, "10.0.0.1", "Unauthorized access attempt to router", true),
    EventDraft(SuspiciousTraffic, Severity.Warning, "192.168.1.100", "Unusual traffic pattern detected", false)
  ]

  /** Four of the five sample events are threats; the malware event comes from PC-Client-02's address. */
  lemma SampleEventsFacts()
    ensures |SampleEvents| == 5
    ensures forall k | 0 <= k < 5 :: SampleEvents[k].isThreat <==> k < 4
    ensures SampleEvents[2].sourceIp == SampleDevices[4].ipAddress
  {
  }

  /** The logged rows used: those of the file found, none when the search fails or raises. */
  function CsvRows(files: seq<seq<ReadOutcome<EventRow>>>): seq<EventRow>
    requires forall f | 0 <= f < |files| :: |files[f]| >= 1
  {
    match EventLogSearch(files)
    case Some(Rows(rows)) => rows
    case _ => []
  }

  /**
    `load_security_events`: the first 50 logged rows, then the five sample
    events; an exception while reading is caught and only the samples are
    added. Returns the count of logged events created.
  */
  method LoadSecurityEvents(db: Database, files: seq<seq<ReadOutcome<EventRow>>>, draws: seq<nat>, now: int)
    returns (created: nat)
    requires forall f | 0 <= f < |files| :: |files[f]| >= 1
    requires |draws| >= 50
    modifies db`events
    ensures var rows := Head(CsvRows(files), 50);
      && created == |rows|
      && db.events == old(db.events) + SavedAll(MapPairs(FixEvent, rows, draws[..|rows|]), now) + SavedAll(SampleEvents, now)
  {
    var found := SearchEventLogs(files);
    var rows := if found.Some? && found.value.Rows? then Head(found.value.rows, 50) else [];
    assert rows == Head(CsvRows(files), 50);
    created := CreateEventRows(db, rows, FixEvent, draws, now);
    db.CreateEvents(SampleEvents, now);
  }

  // ---------------------------------------------------------------------
  // System metrics

  /** The device created when the table is empty (model defaults for status, os and notes). */
  const DefaultServer := Device("default-server", "10.0.0.1", Server, DeviceStatus.Active, "", "")

  /**
    `generate_system_metrics`: 24 hourly metrics for every device, drawn
    from its status's ranges; `draw(i, h, s)` is the draw for device `i`,
    `h` hours ago, with status `s`. An empty table first gets `DefaultServer`.
  */
  method GenerateSystemMetrics(db: Database, now: int, draw: (nat, nat, DeviceStatus) -> MetricDraw) returns (created: nat)
    requires forall i: nat, h: nat, s: DeviceStatus :: Drawn(draw(i, h, s), DeviceRanges(s))
    modifies db`devices, db`metrics
    ensures db.devices == if old(db.devices) == [] then [DefaultServer] else old(db.devices)
    ensures created == 24 * |db.devices|
    ensures |db.metrics| == |old(db.metrics)| + created && old(db.metrics) <= db.metrics
    ensures forall i, h | 0 <= i < |db.devices| && 0 <= h < 24 ::
      db.metrics[|old(db.metrics)| + 24 * i + h] == DrawnMetric(now, h, draw(i, h, db.devices[i].status))
    ensures forall k | |old(db.metrics)| <= k < |db.metrics| ::
      InRanges(db.metrics[k], DeviceRanges(db.devices[(k - |old(db.metrics)|) / 24].status))
  {
    created := MetricsForDevices(db, DefaultServer, now, draw);
  }

  /** `f"metric_{hostname}_{hours_ago}"`. */
  function MetricId(hostname: string, hoursAgo: nat): string
  {
    "metric_" + hostname + "_" + NatToString(hoursAgo)
  }

  /** Two metric ids are equal only for the same device and hour: the digits after the last `_` decide. */
  lemma MetricIdInjective(h1: string, a1: nat, h2: string, a2: nat)
    requires MetricId(h1, a1) == MetricId(h2, a2)
    ensures h1 == h2 && a1 == a2
  {
    var d1, d2 := NatToString(a1), NatToString(a2);
    var m1, m2 := MetricId(h1, a1), MetricId(h2, a2);
    assert m1 == "metric_" + (h1 + "_" + d1);
    assert m2 == "metric_" + (h2 + "_" + d2);
    assert h1 + "_" + d1 == m1[7..] == m2[7..] == h2 + "_" + d2;
    SplitAtSeparator(h1, d1, h2, d2);
    NatToStringOfValue(d1);
    NatToStringOfValue(d2);
  }

  /** `h + "_" + d` determines `h` and `d` when `d` is all digits. */
  lemma SplitAtSeparator(h1: string, d1: string, h2: string, d2: string)
    requires IsDigits(d1) && IsDigits(d2)
    requires h1 + "_" + d1 == h2 + "_" + d2
    ensures h1 == h2 && d1 == d2
  {
    var s := h1 + "_" + d1;
    assert s[|h1|] == '_' && s[|h2|] == '_';
    if |h1| < |h2| {
      assert false;
    } else if |h2| < |h1| {
      assert false;
    }
    assert h1 == s[..|h1|] && h2 == s[..|h2|];
    assert d1 == s[|h1| + 1..] && d2 == s[|h2| + 1..];
  }

  // ---------------------------------------------------------------------
  // User activities and the run

  const ActivityKinds: seq<string> := ["login", "page_view", "search", "checkout", "wishlist_add"]

  /** What the script reads and draws, and the clock. */
  datatype FixInputs = FixInputs(
    inventory: seq<ReadOutcome<InventoryRow>>,
    eventFiles: seq<seq<ReadOutcome<EventRow>>>,
    addressDraws: seq<nat>,
    metricDraw: (nat, nat, DeviceStatus) -> MetricDraw,
    kindPicks: seq<nat>,
    activityAddresses: seq<nat>,
    now: int)

  ghost predicate WellFormedInputs(in_: FixInputs)
  {
    && |in_.inventory| >= 1
    && (forall f | 0 <= f < |in_.eventFiles| :: |in_.eventFiles[f]| >= 1)
    && |in_.addressDraws| >= 50 && ValidDraws(in_.addressDraws, 1, 254)
    && (forall i: nat, h: nat, s: DeviceStatus :: Drawn(in_.metricDraw(i, h, s), DeviceRanges(s)))
    && |in_.kindPicks| >= 100 && |in_.activityAddresses| >= 100
    && ValidDraws(in_.kindPicks, 0, 4) && ValidDraws(in_.activityAddresses, 1, 254)
  }

  /**
    The steps after the devices: events, metrics and activities, each
    appended in order.
  */
  method LoadAfterDevices(db: Database, in_: FixInputs)
    requires WellFormedInputs(in_)
    modifies db`devices, db`events, db`metrics, db`activities
    ensures db.devices == if old(db.devices) == [] then [DefaultServer] else old(db.devices)
    ensures var rows := Head(CsvRows(in_.eventFiles), 50);
      && |db.events| == |old(db.events)| + Min(50, |CsvRows(in_.eventFiles)|) + 5
      && db.events == old(db.events) + SavedAll(MapPairs(FixEvent, rows, in_.addressDraws[..|rows|]), in_.now)
                      + SavedAll(SampleEvents, in_.now)
    ensures |db.metrics| == |old(db.metrics)| + 24 * |db.devices| && old(db.metrics) <= db.metrics
    ensures forall i, h | 0 <= i < |db.devices| && 0 <= h < 24 ::
      db.metrics[|old(db.metrics)| + 24 * i + h] == DrawnMetric(in_.now, h, in_.metricDraw(i, h, db.devices[i].status))
    ensures |db.activities| == |old(db.activities)| + 100 && old(db.activities) <= db.activities
    ensures forall k | 0 <= k < 100 ::
      db.activities[|old(db.activities)| + k]
        == Activity(ActivityKinds[in_.kindPicks[k]], LocalAddress(in_.activityAddresses[k]), None, in_.now)
  {
    var events := LoadSecurityEvents(db, in_.eventFiles, in_.addressDraws, in_.now);
    ghost var logged := db.events;
    var metrics := GenerateSystemMetrics(db, in_.now, in_.metricDraw);
    ghost var devices, hourly := db.devices, db.metrics;
    CreateActivities(db, 100, ActivityKinds, in_.kindPicks, in_.activityAddresses, in_.now);
    assert db.devices == devices && db.events == logged && db.metrics == hourly;
  }

  /**
    `main` after the admin user: devices, events, metrics and activities in
    that order. When loading the devices raises, nothing after it runs.
  */
  method RunLoading(db: Database, in_: FixInputs) returns (raised: bool)
    requires WellFormedInputs(in_)
    modifies db
    ensures var o := FirstDecoded(in_.inventory);
      && (o.DecodeError? || o.Failed? ==> raised && db.devices == old(db.devices))
      && (o.Table? || o.NotFound? ==>
            var r := LoadUntilFailure(old(db.devices), if o.Table? then MapRows(FixDevice, o.rows) else Present(SampleDevices));
            (raised <==> r.halt != None) && (raised ==> db.devices == r.devices))
    ensures !raised ==>
      var o := FirstDecoded(in_.inventory);
      var loaded := LoadUntilFailure(old(db.devices), if o.Table? then MapRows(FixDevice, o.rows) else Present(SampleDevices));
      db.devices == if loaded.devices == [] then [DefaultServer] else loaded.devices
    ensures !raised ==>
      var rows := Head(CsvRows(in_.eventFiles), 50);
      && |db.events| == |old(db.events)| + Min(50, |CsvRows(in_.eventFiles)|) + 5
      && db.events == old(db.events) + SavedAll(MapPairs(FixEvent, rows, in_.addressDraws[..|rows|]), in_.now)
                      + SavedAll(SampleEvents, in_.now)
    ensures !raised ==>
      && |db.metrics| == |old(db.metrics)| + 24 * |db.devices| && old(db.metrics) <= db.metrics
      && forall i, h | 0 <= i < |db.devices| && 0 <= h < 24 ::
           db.metrics[|old(db.metrics)| + 24 * i + h] == DrawnMetric(in_.now, h, in_.metricDraw(i, h, db.devices[i].status))
    ensures !raised ==>
      && |db.activities| == |old(db.activities)| + 100 && old(db.activities) <= db.activities
      && forall k | 0 <= k < 100 ::
           db.activities[|old(db.activities)| + k]
             == Activity(ActivityKinds[in_.kindPicks[k]], LocalAddress(in_.activityAddresses[k]), None, in_.now)
    ensures raised ==>
      && db.events == old(db.events) && db.metrics == old(db.metrics) && db.activities == old(db.activities)
  {
    raised := LoadNetworkDevices(db, in_.inventory);
    if raised {
      return;
    }
    ghost var o := FirstDecoded(in_.inventory);
    ghost var loaded := LoadUntilFailure(old(db.devices), if o.Table? then MapRows(FixDevice, o.rows) else Present(SampleDevices));
    assert db.devices == loaded.devices;
    LoadAfterDevices(db, in_);
  }

  // ---------------------------------------------------------------------
  // The script as written

  /** The keyword names of this script's `SecurityEvent.objects.create` calls. */
  const EventKeywords: seq<string> := ["event_type", "severity", "source_ip", "protocol", "port", "details", "is_threat"]

  /** The keyword names of its `SystemMetrics.objects.create` call. */
  const MetricKeywords: seq<string> :=
    ["timestamp", "device", "metric_id", "cpu_usage", "memory_usage", "response_time",
     "error_rate", "active_users", "request_count"]

  /**
    `SecurityEvent` has no `protocol` or `port` field and `SystemMetrics` no
    `device`, `metric_id`, `error_rate`, `active_users` or `request_count`:
    both constructors refuse these calls.
  */
  lemma KeywordsRejected()
    ensures !Accepts(SecurityEventFields, EventKeywords)
    ensures !Accepts(MetricFields, MetricKeywords)
  {
    assert EventKeywords[3] == "protocol" && "protocol" !in SecurityEventFields;
    assert MetricKeywords[1] == "device" && "device" !in MetricFields;
  }

  /**
    `load_security_events` as written: the first logged row's `create`
    raises `TypeError`, which the surrounding `except Exception` swallows;
    the first sample's `create` raises too, and nothing catches it. No event
    is stored.
  */
  method LoadSecurityEventsAsWritten(db: Database, files: seq<seq<ReadOutcome<EventRow>>>, draws: seq<nat>, now: int)
    returns (raised: bool)
    requires forall f | 0 <= f < |files| :: |files[f]| >= 1
    requires |draws| >= 50
    modifies db`events
    ensures raised && db.events == old(db.events)
  {
    var found := SearchEventLogs(files);
    var rows := if found.Some? && found.value.Rows? then Head(found.value.rows, 50) else [];
    var caught := db.CreateEventsWith(EventKeywords, MapPairs(FixEvent, rows, draws[..|rows|]), now);
    KeywordsRejected();
    raised := db.CreateEventsWith(EventKeywords, SampleEvents, now);
  }

  /**
    `main` as written: the devices load as in `RunLoading`, then
    `load_security_events` raises, so no event, metric or activity is
    stored and the script ends there.
  */
  method RunLoadingAsWritten(db: Database, in_: FixInputs) returns (raised: bool)
    requires WellFormedInputs(in_)
    modifies db
    ensures raised
    ensures var o := FirstDecoded(in_.inventory);
      && (o.DecodeError? || o.Failed? ==> db.devices == old(db.devices))
      && (o.Table? || o.NotFound? ==>
            db.devices == LoadUntilFailure(old(db.devices), if o.Table? then MapRows(FixDevice, o.rows) else Present(SampleDevices)).devices)
    ensures db.events == old(db.events) && db.metrics == old(db.metrics) && db.activities == old(db.activities)
  {
    raised := LoadNetworkDevices(db, in_.inventory);
    if raised {
      return;
    }
    raised := LoadSecurityEventsAsWritten(db, in_.eventFiles, in_.addressDraws, in_.now);
  }
}
