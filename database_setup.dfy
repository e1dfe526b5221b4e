/**
  `setup_database` (database_setup.py): empty the four tables, then load the
  inventory with `Device.objects.create`, the event log in batches of 100 up
  to 500 rows followed by four fixed events, 84 synthetic metrics over the
  last seven days, and up to 50 user activities.
*/
module DatabaseSetup {
  import opened Text
  import opened Ipv4
  import opened Domain
  import opened Rules
  import opened Store
  import opened Lists
  import opened Loaders

  // ---------------------------------------------------------------------
  // Devices

  const CriticalKeywords: seq<string> := ["no antivirus", "outdated", "no firewall"]
  const WarningKeywords: seq<string> := ["ssl", "tls", "update"]

  /** The status of `load_network_inventory`, from the stripped notes. */
  function StatusOf(notes: string): DeviceStatus
  {
    var notesLower := Lower(notes);
    if ContainsAny(notesLower, CriticalKeywords) then DeviceStatus.Critical
    else if ContainsAny(notesLower, WarningKeywords) then DeviceStatus.Warning
    else DeviceStatus.Active
  }

  const StatusRules: seq<Rule<DeviceStatus>> := [
    Rule(CriticalKeywords, DeviceStatus.Critical),
    Rule(WarningKeywords, DeviceStatus.Warning)
  ]

  /** Critical on any of three keywords, else warning on any of three more, else active. */
  lemma StatusTable(notes: string)
    ensures StatusOf(notes) == FirstMatch(StatusRules, Lower(notes), DeviceStatus.Active)
    ensures var l := Lower(notes);
      && ((StatusOf(notes) == DeviceStatus.Critical)
           <==> (Contains(l, "no antivirus") || Contains(l, "outdated") || Contains(l, "no firewall")))
      && ((StatusOf(notes) == DeviceStatus.Active)
           <==> (!ContainsAny(l, CriticalKeywords) && !Contains(l, "ssl") && !Contains(l, "tls") && !Contains(l, "update")))
  {
    var l := Lower(notes);
    FirstMatchTwo(StatusRules[0], StatusRules[1], l, DeviceStatus.Active);
    AnyOfThree(l, "no antivirus", "outdated", "no firewall");
    AnyOfThree(l, "ssl", "tls", "update");
  }

  /** One inventory row as `load_network_inventory` stores it: no address or hostname check. */
  function ImportDevice(row: InventoryRow): Device
  {
    var notes := Strip(CellOr(row.notes, ""));
    Device(
      Strip(CellOr(row.device, "Unknown")),
      Strip(CellOr(row.ipAddress, "127.0.0.1")),
      RoleType(Lower(CellOr(row.role, "unknown"))),
      StatusOf(notes),
      Strip(CellOr(row.os, "Unknown")),
      notes)
  }

  /**
    Missing cells take the column defaults, and a stripped address is stored
    as it is, valid or not.
  */
  lemma ImportDeviceFacts(row: InventoryRow)
    ensures var d := ImportDevice(row);
      && Trimmed(d.hostname) && Trimmed(d.notes)
      && (row.device.None? ==> d.hostname == "Unknown")
      && (row.ipAddress.None? ==> d.ipAddress == "127.0.0.1")
      && (row.ipAddress.Some? && Trimmed(row.ipAddress.value) ==> d.ipAddress == row.ipAddress.value)
      && (row.role.None? ==> d.deviceType == Workstation)
  {
    assert Trimmed("Unknown") && Trimmed("127.0.0.1");
    assert !Contains("unknown", "router") by { AbsentChar("unknown", "router", 'r'); }
    assert !Contains("unknown", "server") by { AbsentChar("unknown", "server", 's'); }
    assert !Contains("unknown", "printer") by { AbsentChar("unknown", "printer", 'p'); }
    assert Lower("unknown") == "unknown" by {
      assert NoUpper("unknown");
      LowerKeepsLowercase("unknown");
    }
  }

  /** The devices the rows become, in order. */
  function Imported(rows: seq<InventoryRow>): (ds: seq<Device>)
    ensures |ds| == |rows| && forall k | 0 <= k < |rows| :: ds[k] == ImportDevice(rows[k])
  {
    seq(|rows|, k requires 0 <= k < |rows| => ImportDevice(rows[k]))
  }

  /** Unlike get-or-create, two rows naming the same device give two rows with that hostname. */
  lemma ImportKeepsDuplicates(rows: seq<InventoryRow>, i: nat, j: nat)
    requires i < j < |rows| && rows[i].device == rows[j].device
    ensures !UniqueHostnames(Imported(rows))
  {
    assert Imported(rows)[i].hostname == Imported(rows)[j].hostname;
  }

  /** `create_sample_devices`, with the statuses written in the script. */
  const SampleDevices: seq<Device> := [
    Device("Router1", "10.0.0.1", Router, DeviceStatus.Critical, "Cisco IOS", "Default password in use"),
    Device("WebServer1", "10.0.0.20", Server, DeviceStatus.Warning, "Ubuntu 18.04", "Outdated SSL/TLS"),
    Device("DBServer1", "10.0.0.30", Server, DeviceStatus.Critical, "Windows 2012", "No firewall"),
    Device("PC-Client-01", "10.0.0.101", Workstation, DeviceStatus.Active, "Win 10 Pro", ""),
    Device("PC-Client-02", "10.0.0.102", Workstation, DeviceStatus.Critical, "Win 10 Home", "Outdated OS; no antivirus"),
    Device("Printer-01", "10.0.0.150", Printer, DeviceStatus.Warning, "", "Unsecured printing, no password")
  ]

  /** Six sample devices with distinct hostnames, three of them critical. */
  lemma SampleDevicesFacts()
    ensures |SampleDevices| == 6 && UniqueHostnames(SampleDevices)
    ensures forall k | 0 <= k < 6 :: SampleDevices[k].status == DeviceStatus.Critical <==> k in {0, 2, 4}
  {
  }

  /**
    The sample statuses are written by hand and do not follow the loader's
    own rule: WebServer1 ("Outdated SSL/TLS") is stored as warning, while
    `StatusOf` makes those notes critical.
  */
  lemma SampleStatusDisagrees()
    ensures SampleDevices[1].status == DeviceStatus.Warning
    ensures StatusOf(SampleDevices[1].notes) == DeviceStatus.Critical
  {
    assert SampleDevices[1].notes == "Outdated SSL/TLS";
    OutdatedIsCritical("Outdated SSL/TLS");
  }

  lemma OutdatedIsCritical(notes: string)
    requires |notes| >= 8 && notes[..8] == "Outdated"
    ensures StatusOf(notes) == DeviceStatus.Critical
  {
    var l := Lower(notes);
    assert "outdated" <= l by {
      assert forall i | 0 <= i < 8 :: l[i] == LowerChar("Outdated"[i]);
    }
    ContainsPrefix(l, "outdated");
    AnyOfThree(l, "no antivirus", "outdated", "no firewall");
  }

  /**
    The `try` around the inventory: a table is created row by row; a missing
    file or any failure to read it gives the sample devices instead.
  */
  method LoadNetworkInventory(db: Database, inventory: ReadOutcome<InventoryRow>)
    modifies db`devices
    ensures db.devices == old(db.devices) + (if inventory.Table? then Imported(inventory.rows) else SampleDevices)
  {
    if inventory.Table? {
      CreateDevices(db, Imported(inventory.rows));
    } else {
      CreateDevices(db, SampleDevices);
    }
  }

  // ---------------------------------------------------------------------
  // Security events

  /** The classification of `load_security_events`, on the already lowercased label. */
  function EventClassOf(eventType: string): EventClass
  {
    if Contains(eventType, "login") then EventClass(LoginFailure, Severity.Critical, true)
    else if Contains(eventType, "checkout") then EventClass(Transaction, Info, false)
    else if Contains(eventType, "wishlist") then EventClass(SuspiciousActivity, Severity.Warning, true)
    else EventClass(UserActivity, Info, false)
  }

  const EventRules: seq<Rule<EventClass>> := [
    Rule(["login"], EventClass(LoginFailure, Severity.Critical, true)),
    Rule(["checkout"], EventClass(Transaction, Info, false)),
    Rule(["wishlist"], EventClass(SuspiciousActivity, Severity.Warning, true))
  ]

  /** The classification is the first match of login, checkout, wishlist; user activity otherwise. */
  lemma EventTable(eventType: string)
    ensures EventClassOf(eventType) == FirstMatch(EventRules, eventType, EventClass(UserActivity, Info, false))
  {
    FirstMatchThree(EventRules[0], EventRules[1], EventRules[2], eventType, EventClass(UserActivity, Info, false));
    AnyOfOne(eventType, "login");
    AnyOfOne(eventType, "checkout");
    AnyOfOne(eventType, "wishlist");
  }

  /**
    A threat exactly for login labels and wishlist labels without checkout;
    critical exactly for login labels; a transaction exactly for checkout
    labels without login.
  */
  lemma EventClassFacts(eventType: string)
    ensures var c := EventClassOf(eventType);
      && (c.isThreat <==> Contains(eventType, "login") || (!Contains(eventType, "checkout") && Contains(eventType, "wishlist")))
      && (c.severity == Severity.Critical <==> Contains(eventType, "login"))
      && (c.category == Transaction <==> !Contains(eventType, "login") && Contains(eventType, "checkout"))
  {
  }

  /** The source address: `203.0.113.x` for threats, `192.168.1.x` otherwise. */
  function SourceIp(isThreat: bool, x: nat): string
  {
    if isThreat then FormatQuad(203, 0, 113, x) else LocalAddress(x)
  }

  /** The `" | "`-separated pieces of the details: the label, then user, product and amount when present. */
  function DetailFields(eventType: string, userId: string, productId: string, cents: int): (f: seq<string>)
    ensures |f| >= 1
  {
    ["Event: " + eventType]
    + Optional(userId != "", "User: " + userId)
    + Optional(productId != "", "Product: " + productId)
    + Optional(cents > 0, "Amount: $" + FormatCents(cents))
  }

  /** The details string, one `+=` at a time. */
  function EventDetails(eventType: string, userId: string, productId: string, cents: int): string
  {
    var details := "Event: " + eventType;
    var details := if userId != "" then details + " | User: " + userId else details;
    var details := if productId != "" then details + " | Product: " + productId else details;
    if cents > 0 then details + " | Amount: $" + FormatCents(cents) else details
  }

  /** The details are the pieces of `DetailFields` joined by `" | "`. */
  lemma EventDetailsJoinFields(eventType: string, userId: string, productId: string, cents: int)
    ensures EventDetails(eventType, userId, productId, cents) == JoinWith(DetailFields(eventType, userId, productId, cents), " | ")
  {
    var f0 := ["Event: " + eventType];
    var d0 := "Event: " + eventType;
    var u := Optional(userId != "", "User: " + userId);
    JoinOptional(f0, " | ", d0, u);
    assert " | User: " == " | " + "User: ";
    AppendPiece(d0, " | ", "User: ", userId);
    var d1 := if userId != "" then d0 + " | User: " + userId else d0;
    var p := Optional(productId != "", "Product: " + productId);
    JoinOptional(f0 + u, " | ", d1, p);
    assert " | Product: " == " | " + "Product: ";
    AppendPiece(d1, " | ", "Product: ", productId);
    var d2 := if productId != "" then d1 + " | Product: " + productId else d1;
    var a := Optional(cents > 0, "Amount: $" + FormatCents(cents));
    JoinOptional(f0 + u + p, " | ", d2, a);
    assert " | Amount: $" == " | " + "Amount: $";
    AppendPiece(d2, " | ", "Amount: $", FormatCents(cents));
  }

  /** A tag is among the pieces exactly when one of the four parts starts with it. */
  lemma HasFieldParts(eventType: string, userId: string, productId: string, cents: int, tag: string)
    ensures HasField(DetailFields(eventType, userId, productId, cents), tag)
        <==> || tag <= "Event: " + eventType
             || (userId != "" && tag <= "User: " + userId)
             || (productId != "" && tag <= "Product: " + productId)
             || (cents > 0 && tag <= "Amount: $" + FormatCents(cents))
  {
    var h := ["Event: " + eventType];
    var u := Optional(userId != "", "User: " + userId);
    var p := Optional(productId != "", "Product: " + productId);
    var a := Optional(cents > 0, "Amount: $" + FormatCents(cents));
    HasFieldConcat(h + u + p, a, tag);
    HasFieldConcat(h + u, p, tag);
    HasFieldConcat(h, u, tag);
    assert h == Optional(true, "Event: " + eventType);
    HasFieldOptional(true, "Event: " + eventType, tag);
    HasFieldOptional(userId != "", "User: " + userId, tag);
    HasFieldOptional(productId != "", "Product: " + productId, tag);
    HasFieldOptional(cents > 0, "Amount: $" + FormatCents(cents), tag);
  }

  /** The label comes first; the user, product and amount pieces are there exactly when those values are. */
  lemma DetailFieldsValues(eventType: string, userId: string, productId: string, cents: int)
    ensures var f := DetailFields(eventType, userId, productId, cents);
      && f[0] == "Event: " + eventType
      && (HasField(f, "User: ") <==> userId != "")
      && (HasField(f, "Product: ") <==> productId != "")
      && (HasField(f, "Amount: $") <==> cents > 0)
  {
    assert ("Event: " + eventType)[0] == 'E';
    assert ("User: " + userId)[0] == 'U';
    assert ("Product: " + productId)[0] == 'P';
    assert ("Amount: $" + FormatCents(cents))[0] == 'A';
    HasFieldParts(eventType, userId, productId, cents, "User: ");
    HasFieldParts(eventType, userId, productId, cents, "Product: ");
    HasFieldParts(eventType, userId, productId, cents, "Amount: $");
  }

  /** One event-log row as `load_security_events` stores it; `x` is the address draw. */
  function SetupEvent(row: EventRow, x: nat): EventDraft
  {
    var eventType := Lower(CellOr(row.eventType, "unknown"));
    var cents := match row.amountCents case Some(c) => c case None => 0;
    var c := EventClassOf(eventType);
    EventDraft(c.category, c.severity, SourceIp(c.isThreat, x),
               EventDetails(eventType, CellOr(row.userId, ""), CellOr(row.productId, ""), cents), c.isThreat)
  }

  /** Every stored address is valid, and it is in 203.0.113.0/24 exactly when the event is a threat. */
  lemma SetupEventAddress(row: EventRow, x: nat)
    requires 1 <= x <= 254
    ensures var e := SetupEvent(row, x);
      && ValidIpAddress(e.sourceIp)
      && Octets(e.sourceIp) == (if e.isThreat then [203, 0, 113, x] else [192, 168, 1, x])
  {
    FormatQuadValid(203, 0, 113, x);
    LocalAddressValid(x);
  }

  /** The four events added after the log, whatever the log held. */
  const CriticalEvents: seq<EventDraft> := [
    EventDraft(LoginFailure, Severity.Critical, "203.0.113.15", "Multiple failed login attempts detected (50+ attempts)", true),
    EventDraft(MalwareDetected, Severity.Critical, "10.0.0.102", "Malware signature detected on PC-Client-02", true),
    EventDraft(DdosAttack, Severity.Critical, "198.51.100.1", "DDoS attack detected from external sources", true),
    EventDraft(UnauthorizedAccess, Severity.Warning, "192.168.1.45", "Unauthorized admin panel access attempt", true)
  ]

  /**
    All four fixed events are threats; the malware event comes from the
    address of the sample device PC-Client-02 and names it in its details.
  */
  lemma CriticalEventsFacts()
    ensures |CriticalEvents| == 4 && forall k | 0 <= k < 4 :: CriticalEvents[k].isThreat
    ensures CriticalEvents[1].sourceIp == SampleDevices[4].ipAddress
    ensures Contains(CriticalEvents[1].details, SampleDevices[4].hostname)
  {
    var d := CriticalEvents[1].details;
    assert SampleDevices[4].hostname <= d[30..];
    ContainsAt(d, SampleDevices[4].hostname, 30);
  }

  /** The rows of the first event-log file that reads, none if neither does. */
  function CsvEvents(files: seq<ReadOutcome<EventRow>>): seq<EventRow>
  {
    match FirstTable(files)
    case Some(rows) => rows
    case None => []
  }

  /**
    `load_security_events`: batches `iloc[i:i+100]` for `i` in
    `range(0, min(n, 500), 100)`, so exactly the first `min(n, 500)` rows,
    each taking the next address draw, then the four fixed events.
  */
  method LoadSecurityEvents(db: Database, files: seq<ReadOutcome<EventRow>>, draws: seq<nat>, now: int)
    returns (created: nat)
    requires |draws| >= 500
    modifies db`events
    ensures var rows := CsvEvents(files);
      var n := Min(|rows|, 500);
      && created == n + 4
      && db.events == old(db.events) + SavedAll(MapPairs(SetupEvent, rows[..n], draws[..n]), now) + SavedAll(CriticalEvents, now)
  {
    var table := FindTable(files);
    var rows := if table.Some? then table.value else [];
    assert rows == CsvEvents(files);
    created := CreateInBatches(db, rows, SetupEvent, draws, now);
    db.CreateEvents(CriticalEvents, now);
    created := created + |CriticalEvents|;
  }

  /**
    `for i in range(0, min(len(df), 500), 100): for row in df.iloc[i:i+100]`:
    the batches cover exactly the first `min(n, 500)` rows, in order.
  */
  method CreateInBatches(db: Database, rows: seq<EventRow>, f: (EventRow, nat) -> EventDraft, draws: seq<nat>, now: int)
    returns (created: nat)
    requires |draws| >= 500
    modifies db`events
    ensures created == Min(|rows|, 500)
    ensures db.events == old(db.events) + SavedAll(MapPairs(f, rows[..created], draws[..created]), now)
  {
    var limit := Min(|rows|, 500);
    created := 0;
    ghost var saved := [];
    var b := 0;
    while 100 * b < limit
      invariant 0 <= b <= 5
      invariant created == Min(100 * b, |rows|) && created <= limit
      invariant saved == SavedAll(MapPairs(f, rows[..created], draws[..created]), now)
      invariant db.events == old(db.events) + saved
    {
      var i := 100 * b;
      assert created == i;
      var batch := rows[i..Min(i + 100, |rows|)];
      var n := CreateEventRows(db, batch, f, draws[i..], now);
      BatchStep(f, rows, draws, i, n, now);
      AppendAssoc(old(db.events), saved, SavedAll(MapPairs(f, batch, draws[i..][..n]), now));
      saved := SavedAll(MapPairs(f, rows[..i + n], draws[..i + n]), now);
      created := created + n;
      b := b + 1;
    }
  }

  lemma BatchStep(f: (EventRow, nat) -> EventDraft, rows: seq<EventRow>, draws: seq<nat>, i: nat, n: nat, now: int)
    requires i + n <= |rows| && i + n <= |draws|
    ensures SavedAll(MapPairs(f, rows[..i], draws[..i]), now) + SavedAll(MapPairs(f, rows[i..i + n], draws[i..][..n]), now)
         == SavedAll(MapPairs(f, rows[..i + n], draws[..i + n]), now)
  {
    assert rows[..i] + rows[i..i + n] == rows[..i + n];
    assert draws[..i] + draws[i..][..n] == draws[..i + n];
    MapPairsConcat(f, rows[..i], draws[..i], rows[i..i + n], draws[i..][..n]);
    SavedAllConcat(MapPairs(f, rows[..i], draws[..i]), MapPairs(f, rows[i..i + n], draws[i..][..n]), now);
  }

  // ---------------------------------------------------------------------
  // System metrics

  /** The business-hours test: `8 <= hour <= 18` on the loop's hour offset, and a weekday timestamp. */
  predicate BusinessHours(hour: nat, t: int)
  {
    8 <= hour <= 18 && Weekday(t) < 5
  }

  /** The metric `daysAgo` days and `hour` hours before `now`, from the Gaussian draws `n`. */
  function SetupMetric(now: int, daysAgo: nat, hour: nat, n: Noise): (m: Metric)
    ensures m.timestamp == now - 24 * daysAgo - hour
    ensures 10.0 <= m.cpu <= 95.0 && 20.0 <= m.memory <= 90.0 && m.responseTime >= 50
  {
    var t := now - 24 * daysAgo - hour;
    var busy := BusinessHours(hour, t);
    var cpu := Clamp(10.0, 95.0, (if busy then 70.0 else 30.0) + n.cpu);
    var memory := Clamp(20.0, 90.0, (if busy then 65.0 else 40.0) + n.memory);
    var response := Trunc((if busy then 150.0 else 80.0) + n.response);
    Metric(t, cpu, memory, if response < 50 then 50 else response)
  }

  lemma TruncMonotone(x: real, y: real)
    requires x <= y
    ensures Trunc(x) <= Trunc(y)
  {
  }

  /** With the same draws, a business-hours metric is at least as high as an off-hours one. */
  lemma BusinessHoursNotLower(now: int, d1: nat, h1: nat, d2: nat, h2: nat, n: Noise)
    requires BusinessHours(h1, now - 24 * d1 - h1) && !BusinessHours(h2, now - 24 * d2 - h2)
    ensures var m1, m2 := SetupMetric(now, d1, h1, n), SetupMetric(now, d2, h2, n);
      m1.cpu >= m2.cpu && m1.memory >= m2.memory && m1.responseTime >= m2.responseTime
  {
    TruncMonotone(80.0 + n.response, 150.0 + n.response);
  }

  /**
    The test reads the offset, not the clock: 8 hours before Monday 04:00 is
    Monday 20:00, yet it counts as business hours.
  */
  lemma BusinessHoursByOffset()
    ensures var now := 24 * 4 + 4 + 24;
      Weekday(now - 8) == 0 && HourOfDay(now - 8) == 20 && BusinessHours(8, now - 8)
  {
  }

  /**
    `load_system_metrics`: for each of the last 7 days and every second hour,
    one metric; the `k`-th takes the `k`-th draws.
  */
  method LoadSystemMetrics(db: Database, now: int, noise: seq<Noise>) returns (created: nat)
    requires |noise| == 84
    modifies db`metrics
    ensures created == 84
    ensures |db.metrics| == |old(db.metrics)| + 84 && old(db.metrics) <= db.metrics
    ensures forall k | 0 <= k < 84 :: db.metrics[|old(db.metrics)| + k] == SetupMetric(now, k / 12, 2 * (k % 12), noise[k])
  {
    created := 0;
    var daysAgo := 0;
    while daysAgo < 7
      invariant 0 <= daysAgo <= 7 && created == 12 * daysAgo
      invariant |db.metrics| == |old(db.metrics)| + created && old(db.metrics) <= db.metrics
      invariant forall k | 0 <= k < created :: db.metrics[|old(db.metrics)| + k] == SetupMetric(now, k / 12, 2 * (k % 12), noise[k])
    {
      var hour := 0;
      while hour < 24
        invariant 0 <= hour <= 24 && hour % 2 == 0 && created == 12 * daysAgo + hour / 2
        invariant |db.metrics| == |old(db.metrics)| + created && old(db.metrics) <= db.metrics
        invariant forall k | 0 <= k < created :: db.metrics[|old(db.metrics)| + k] == SetupMetric(now, k / 12, 2 * (k % 12), noise[k])
      {
        assert created / 12 == daysAgo && 2 * (created % 12) == hour;
        db.CreateMetric(SetupMetric(now, daysAgo, hour, noise[created]));
        created := created + 1;
        hour := hour + 2;
      }
      daysAgo := daysAgo + 1;
    }
  }

  // ---------------------------------------------------------------------
  // User activities

  /** One row of marketing_summary.csv; only `total_sales` reaches the stored activity. */
  datatype MarketingRow = MarketingRow(totalSales: Option<real>)

  /** `float(total_sales) if total_sales else 0`: the truthiness test changes nothing. */
  function Sales(cell: Option<real>): (r: real)
    ensures cell.Some? ==> r == cell.value
    ensures cell.None? ==> r == 0.0
  {
    match cell
    case Some(v) => if v != 0.0 then v else 0.0
    case None => 0.0
  }

  const ActivityKinds: seq<string> := ["page_view", "login", "logout", "search", "checkout"]
  const SampleKinds: seq<string> := ["page_view", "login", "search", "checkout"]

  /** The activity a marketing row becomes: a drawn kind, a drawn local address and its sales figure. */
  function MarketingActivity(row: MarketingRow, pick: nat, x: nat, now: int): Activity
    requires pick < |ActivityKinds|
  {
    Activity(ActivityKinds[pick], LocalAddress(x), Some(Sales(row.totalSales)), now)
  }

  /** The loop over the marketing rows: one activity per row, in order. */
  method CreateMarketingActivities(db: Database, rows: seq<MarketingRow>, picks: seq<nat>, addrs: seq<nat>, now: int)
    requires |picks| >= |rows| && |addrs| >= |rows| && ValidDraws(picks, 0, 4)
    modifies db`activities
    ensures |db.activities| == |old(db.activities)| + |rows| && old(db.activities) <= db.activities
    ensures forall k | 0 <= k < |rows| :: db.activities[|old(db.activities)| + k] == MarketingActivity(rows[k], picks[k], addrs[k], now)
  {
    var i := 0;
    while i < |rows|
      invariant 0 <= i <= |rows|
      invariant |db.activities| == |old(db.activities)| + i && old(db.activities) <= db.activities
      invariant forall k | 0 <= k < i :: db.activities[|old(db.activities)| + k] == MarketingActivity(rows[k], picks[k], addrs[k], now)
    {
      db.CreateActivity(MarketingActivity(rows[i], picks[i], addrs[i], now));
      i := i + 1;
    }
  }

  /**
    `load_user_activities`: the first 50 marketing rows, or 20 sample
    activities when the file is missing; any other read failure is not
    caught and ends the setup (`raised`) with no activity written.
  */
  method LoadUserActivities(db: Database, marketing: ReadOutcome<MarketingRow>, picks: seq<nat>, addrs: seq<nat>, now: int)
    returns (raised: bool)
    requires |picks| >= 50 && |addrs| >= 50
    requires ValidDraws(picks, 0, if marketing.NotFound? then 3 else 4)
    modifies db`activities
    ensures raised <==> marketing.DecodeError? || marketing.Failed?
    ensures raised ==> db.activities == old(db.activities)
    ensures marketing.Table? ==>
      var rows := Head(marketing.rows, 50);
      && |db.activities| == |old(db.activities)| + |rows| && old(db.activities) <= db.activities
      && forall k | 0 <= k < |rows| :: db.activities[|old(db.activities)| + k] == MarketingActivity(rows[k], picks[k], addrs[k], now)
    ensures marketing.NotFound? ==>
      && |db.activities| == |old(db.activities)| + 20 && old(db.activities) <= db.activities
      && forall k | 0 <= k < 20 :: db.activities[|old(db.activities)| + k] == Activity(SampleKinds[picks[k]], LocalAddress(addrs[k]), None, now)
  {
    match marketing {
      case Table(all) =>
        CreateMarketingActivities(db, Head(all, 50), picks, addrs, now);
        raised := false;
      case NotFound =>
        CreateActivities(db, 20, SampleKinds, picks, addrs, now);
        raised := false;
      case DecodeError(_) =>
        raised := true;
      case Failed(_) =>
        raised := true;
    }
  }

  // ---------------------------------------------------------------------
  // The whole setup

  /** What the setup reads and draws, and the clock. */
  datatype SetupInputs = SetupInputs(
    inventory: ReadOutcome<InventoryRow>,
    eventFiles: seq<ReadOutcome<EventRow>>,
    addressDraws: seq<nat>,
    noise: seq<Noise>,
    marketing: ReadOutcome<MarketingRow>,
    kindPicks: seq<nat>,
    activityAddresses: seq<nat>,
    now: int)

  predicate WellFormedInputs(in_: SetupInputs)
  {
    && |in_.addressDraws| >= 500 && ValidDraws(in_.addressDraws, 1, 254) && |in_.noise| == 84
    && |in_.kindPicks| >= 50 && |in_.activityAddresses| >= 50
    && ValidDraws(in_.kindPicks, 0, if in_.marketing.NotFound? then 3 else 4)
    && ValidDraws(in_.activityAddresses, 1, 254)
  }

  /** The device and event loaders, on emptied device and event tables. */
  method LoadDevicesAndEvents(db: Database, in_: SetupInputs)
    requires WellFormedInputs(in_)
    requires db.devices == [] && db.events == []
    modifies db`devices, db`events
    ensures db.devices == (if in_.inventory.Table? then Imported(in_.inventory.rows) else SampleDevices)
    ensures var rows := CsvEvents(in_.eventFiles);
      var n := Min(|rows|, 500);
      db.events == SavedAll(MapPairs(SetupEvent, rows[..n], in_.addressDraws[..n]), in_.now) + SavedAll(CriticalEvents, in_.now)
  {
    ghost var imported := if in_.inventory.Table? then Imported(in_.inventory.rows) else SampleDevices;
    LoadNetworkInventory(db, in_.inventory);
    assert [] + imported == imported;
    ghost var rows := CsvEvents(in_.eventFiles);
    ghost var n := Min(|rows|, 500);
    ghost var logged := SavedAll(MapPairs(SetupEvent, rows[..n], in_.addressDraws[..n]), in_.now);
    var events := LoadSecurityEvents(db, in_.eventFiles, in_.addressDraws, in_.now);
    assert [] + logged == logged;
    assert db.devices == imported;
  }

  /** The metric and activity loaders, on emptied metric and activity tables. */
  method LoadMetricsAndActivities(db: Database, in_: SetupInputs) returns (raised: bool)
    requires WellFormedInputs(in_)
    requires db.metrics == [] && db.activities == []
    modifies db`metrics, db`activities
    ensures |db.metrics| == 84
    ensures forall k | 0 <= k < 84 :: db.metrics[k] == SetupMetric(in_.now, k / 12, 2 * (k % 12), in_.noise[k])
    ensures raised <==> in_.marketing.DecodeError? || in_.marketing.Failed?
    ensures raised ==> db.activities == []
    ensures !raised ==> |db.activities| == (if in_.marketing.Table? then Min(50, |in_.marketing.rows|) else 20)
    ensures in_.marketing.Table? ==> var rows := Head(in_.marketing.rows, 50);
      forall k | 0 <= k < |rows| ::
        db.activities[k] == MarketingActivity(rows[k], in_.kindPicks[k], in_.activityAddresses[k], in_.now)
    ensures in_.marketing.NotFound? ==> forall k | 0 <= k < 20 ::
      db.activities[k] == Activity(SampleKinds[in_.kindPicks[k]], LocalAddress(in_.activityAddresses[k]), None, in_.now)
  {
    var metrics := LoadSystemMetrics(db, in_.now, in_.noise);
    ghost var hourly := db.metrics;
    raised := LoadUserActivities(db, in_.marketing, in_.kindPicks, in_.activityAddresses, in_.now);
    assert db.metrics == hourly;
  }

  /**
    `setup_database` after the users and up to `print_summary`: all four
    tables emptied, then filled by the four loaders in order. `raised` tells
    whether the marketing loader let an exception out: reading the marketing
    file failed with anything but a missing file. `print_summary` is not
    part of this model.
  */
  method SetupDatabase(db: Database, in_: SetupInputs) returns (raised: bool)
    requires WellFormedInputs(in_)
    modifies db
    ensures db.devices == (if in_.inventory.Table? then Imported(in_.inventory.rows) else SampleDevices)
    ensures var rows := CsvEvents(in_.eventFiles);
      var n := Min(|rows|, 500);
      db.events == SavedAll(MapPairs(SetupEvent, rows[..n], in_.addressDraws[..n]), in_.now) + SavedAll(CriticalEvents, in_.now)
    ensures |db.metrics| == 84
    ensures forall k | 0 <= k < 84 :: db.metrics[k] == SetupMetric(in_.now, k / 12, 2 * (k % 12), in_.noise[k])
    ensures raised <==> in_.marketing.DecodeError? || in_.marketing.Failed?
    ensures raised ==> db.activities == []
    ensures !raised ==> |db.activities| == (if in_.marketing.Table? then Min(50, |in_.marketing.rows|) else 20)
    ensures in_.marketing.Table? ==> var rows := Head(in_.marketing.rows, 50);
      forall k | 0 <= k < |rows| ::
        db.activities[k] == MarketingActivity(rows[k], in_.kindPicks[k], in_.activityAddresses[k], in_.now)
    ensures in_.marketing.NotFound? ==> forall k | 0 <= k < 20 ::
      db.activities[k] == Activity(SampleKinds[in_.kindPicks[k]], LocalAddress(in_.activityAddresses[k]), None, in_.now)
  {
    db.DeleteEvents();
    db.DeleteMetrics();
    db.DeleteActivities();
    db.DeleteDevices();
    LoadDevicesAndEvents(db, in_);
    ghost var devices, events := db.devices, db.events;
    raised := LoadMetricsAndActivities(db, in_);
    assert db.devices == devices && db.events == events;
  }
}
