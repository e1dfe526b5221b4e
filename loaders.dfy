/**
  The loops the stand-alone loader scripts (database_setup.py,
  fix_data_loading.py, load_real_data.py, clean_etl.py, simple_load.py,
  clean_load.py, load_your_data.py) have in common. Each script supplies its
  own per-row function; the loop around it is the same in all of them.
*/
module Loaders {
  import opened Text
  import opened Ipv4
  import opened Domain
  import opened Rules
  import opened Store
  import opened Lists

  // ---------------------------------------------------------------------
  // Classifying devices

  /**
    The device type most loaders derive from the already lowercased role:
    router, else server, else printer, else workstation.
  */
  function RoleType(role: string): DeviceType
  {
    if Contains(role, "router") then Router
    else if Contains(role, "server") then Server
    else if Contains(role, "printer") then Printer
    else Workstation
  }

  const RoleTypeRules: seq<Rule<DeviceType>> := [Rule(["router"], Router), Rule(["server"], Server), Rule(["printer"], Printer)]

  /** The type is the first of router, server, printer found in the role; workstation otherwise. */
  lemma RoleTypeTable(role: string)
    ensures RoleType(role) == FirstMatch(RoleTypeRules, role, Workstation)
  {
    FirstMatchThree(RoleTypeRules[0], RoleTypeRules[1], RoleTypeRules[2], role, Workstation);
    AnyOfOne(role, "router");
    AnyOfOne(role, "server");
    AnyOfOne(role, "printer");
  }

  /**
    The device type of simple_load.py and clean_load.py: router, else
    printer, else server; a workstation is never produced.
  */
  function ServerUnlessNamed(role: string): DeviceType
  {
    if Contains(role, "router") then Router
    else if Contains(role, "printer") then Printer
    else Server
  }

  const ServerRules: seq<Rule<DeviceType>> := [Rule(["router"], Router), Rule(["printer"], Printer)]

  /** The type is the first of router, printer found in the role; server otherwise, never workstation. */
  lemma ServerUnlessNamedTable(role: string)
    ensures ServerUnlessNamed(role) == FirstMatch(ServerRules, role, Server)
    ensures ServerUnlessNamed(role) != Workstation
    ensures ServerUnlessNamed(role) == Server <==> !Contains(role, "router") && !Contains(role, "printer")
  {
    FirstMatchTwo(ServerRules[0], ServerRules[1], role, Server);
    AnyOfOne(role, "router");
    AnyOfOne(role, "printer");
  }

  /**
    The status of load_real_data.py, clean_etl.py and clean_load.py:
    critical when the lowercased notes mention "no antivirus" or "outdated",
    active otherwise.
  */
  function RiskStatus(notes: string): DeviceStatus
  {
    var notesLower := Lower(notes);
    if Contains(notesLower, "no antivirus") || Contains(notesLower, "outdated") then DeviceStatus.Critical
    else DeviceStatus.Active
  }

  const RiskRules: seq<Rule<DeviceStatus>> := [Rule(["no antivirus", "outdated"], DeviceStatus.Critical)]

  /** The status is one keyword rule with active as the fallback: never warning. */
  lemma RiskStatusTable(notes: string)
    ensures RiskStatus(notes) == FirstMatch(RiskRules, Lower(notes), DeviceStatus.Active)
    ensures RiskStatus(notes) != DeviceStatus.Warning
  {
    FirstMatchOne(RiskRules[0], Lower(notes), DeviceStatus.Active);
    AnyOfTwo(Lower(notes), "no antivirus", "outdated");
  }

  // ---------------------------------------------------------------------
  // Finding the event log

  /**
    `for filename in names: try: df = pd.read_csv(filename) ... break
    except: continue`: the first read that yields a table is used, and any
    failure moves on to the next attempt.
  */
  function FirstTable<R>(outcomes: seq<ReadOutcome<R>>): (r: Option<seq<R>>)
    ensures r.None? <==> forall k | 0 <= k < |outcomes| :: !outcomes[k].Table?
    ensures r.Some? ==> exists k | 0 <= k < |outcomes| :: outcomes[k] == Table(r.value)
                          && forall j | 0 <= j < k :: !outcomes[j].Table?
  {
    if outcomes == [] then None
    else if outcomes[0].Table? then Some(outcomes[0].rows)
    else
      var r := FirstTable(outcomes[1..]);
      assert forall k | 1 <= k < |outcomes| :: outcomes[k] == outcomes[1..][k - 1];
      r
  }

  /** The file loop itself, leaving at the first table. */
  method FindTable<R>(outcomes: seq<ReadOutcome<R>>) returns (r: Option<seq<R>>)
    ensures r == FirstTable(outcomes)
  {
    var k := 0;
    while k < |outcomes|
      invariant 0 <= k <= |outcomes|
      invariant FirstTable(outcomes) == FirstTable(outcomes[k..])
    {
      assert outcomes[k..][0] == outcomes[k] && outcomes[k..][1..] == outcomes[k + 1..];
      if outcomes[k].Table? {
        return Some(outcomes[k].rows);
      }
      k := k + 1;
    }
    return None;
  }

  /** The rows of the first read that yields a table, none if none does. */
  function CsvRows<R>(attempts: seq<ReadOutcome<R>>): (rows: seq<R>)
    ensures rows != [] ==> Table(rows) in attempts
  {
    match FirstTable(attempts)
    case Some(rows) => rows
    case None => []
  }

  /** What `extract_event_logs` yields: rows, or an exception it does not handle. */
  datatype Extracted<R> = Rows(rows: seq<R>) | Raised(message: string)

  /**
    The search over `event_logs.csv` and `event_logs .csv`: a table ends the
    search, a missing file or a file no encoding decodes moves to the next
    name, and any other exception escapes.
  */
  function EventLogSearch(files: seq<seq<ReadOutcome<EventRow>>>): (r: Option<Extracted<EventRow>>)
    requires forall f | 0 <= f < |files| :: |files[f]| >= 1
  {
    if files == [] then None
    else
      match FirstDecoded(files[0])
      case Table(rows) => Some(Rows(rows))
      case Failed(m) => Some(Raised(m))
      case _ => EventLogSearch(files[1..])
  }

  /** The search loop: each name's encodings in turn, leaving at a table or an exception. */
  method SearchEventLogs(files: seq<seq<ReadOutcome<EventRow>>>) returns (r: Option<Extracted<EventRow>>)
    requires forall f | 0 <= f < |files| :: |files[f]| >= 1
    ensures r == EventLogSearch(files)
  {
    var f := 0;
    while f < |files|
      invariant 0 <= f <= |files|
      invariant EventLogSearch(files) == EventLogSearch(files[f..])
    {
      var outcome := TryEncodings(files[f]);
      assert files[f..][0] == files[f] && files[f..][1..] == files[f + 1..];
      match outcome
      case Table(rows) =>
        return Some(Rows(rows));
      case Failed(m) =>
        return Some(Raised(m));
      case _ =>
        f := f + 1;
    }
    return None;
  }

  // ---------------------------------------------------------------------
  // Devices

  /** `for d in devices: Device.objects.create(**d)`. */
  method CreateDevices(db: Database, list: seq<Device>)
    modifies db`devices
    ensures db.devices == old(db.devices) + list
  {
    var i := 0;
    while i < |list|
      invariant 0 <= i <= |list|
      invariant db.devices == old(db.devices) + list[..i]
    {
      assert list[..i + 1] == list[..i] + [list[i]];
      db.CreateDevice(list[i]);
      i := i + 1;
    }
    assert list[..i] == list;
  }

  /**
    `for row in df.iterrows(): Device.objects.get_or_create(...)` with no
    handler inside the loop; `list` holds each row's device, or `None` where
    reading the row's cells raises `KeyError`.
  */
  method GetOrCreateEach(db: Database, list: seq<Option<Device>>) returns (r: PartialLoad)
    modifies db`devices
    ensures r == LoadUntilFailure(old(db.devices), list)
    ensures db.devices == r.devices
  {
    ghost var start := db.devices;
    var created, returned := 0, 0;
    var i := 0;
    while i < |list|
      invariant 0 <= i <= |list|
      invariant LoadUntilFailure(start, list[..i]) == PartialLoad(db.devices, created, returned, None)
    {
      assert list[..i + 1][..i] == list[..i];
      match list[i] {
        case None =>
          r := PartialLoad(db.devices, created, returned, Some(MissingColumn));
          LoadUntilFailureHalted(start, list, i + 1);
          return;
        case Some(d) =>
          var lookup := db.GetOrCreateDevice(d);
          match lookup {
            case Created =>
              created := created + 1;
              returned := returned + 1;
            case Found =>
              returned := returned + 1;
            case MultipleFound(n) =>
              r := PartialLoad(db.devices, created, returned, Some(Multiple(n)));
              LoadUntilFailureHalted(start, list, i + 1);
              return;
          }
      }
      i := i + 1;
    }
    assert list[..i] == list;
    r := PartialLoad(db.devices, created, returned, None);
  }

  /** The devices of the rows, in order, `None` where a row raises. */
  function MapRows(f: InventoryRow -> Option<Device>, rows: seq<InventoryRow>): (r: seq<Option<Device>>)
    ensures |r| == |rows| && forall k | 0 <= k < |rows| :: r[k] == f(rows[k])
  {
    seq(|rows|, k requires 0 <= k < |rows| => f(rows[k]))
  }

  /**
    The inventory step of a script: a table is loaded row by row with
    `f` until the first exception; a failed read loads nothing. Either
    way the exception is caught by the script.
  */
  function InventoryLoad(ds: seq<Device>, inventory: ReadOutcome<InventoryRow>, f: InventoryRow -> Option<Device>): (r: PartialLoad)
  {
    if inventory.Table? then LoadUntilFailure(ds, MapRows(f, inventory.rows)) else PartialLoad(ds, 0, 0, None)
  }

  /** The inventory step itself. */
  method LoadInventory(db: Database, inventory: ReadOutcome<InventoryRow>, f: InventoryRow -> Option<Device>)
    returns (r: PartialLoad)
    modifies db`devices
    ensures r == InventoryLoad(old(db.devices), inventory, f)
    ensures db.devices == r.devices
  {
    if inventory.Table? {
      r := GetOrCreateEach(db, MapRows(f, inventory.rows));
    } else {
      r := PartialLoad(db.devices, 0, 0, None);
    }
  }

  // ---------------------------------------------------------------------
  // Events

  /**
    `for row in rows: SecurityEvent.objects.create(...)`: the `k`-th row
    becomes `f(row, x)` with `x` the `k`-th address draw, and is saved at
    `now`. Returns the `events_created` count.
  */
  method CreateEventRows(db: Database, rows: seq<EventRow>, f: (EventRow, nat) -> EventDraft, draws: seq<nat>, now: int)
    returns (created: nat)
    requires |draws| >= |rows|
    modifies db`events
    ensures created == |rows|
    ensures db.events == old(db.events) + SavedAll(MapPairs(f, rows, draws[..|rows|]), now)
  {
    created := 0;
    var i := 0;
    while i < |rows|
      invariant 0 <= i <= |rows|
      invariant created == i
      invariant db.events == old(db.events) + SavedAll(MapPairs(f, rows[..i], draws[..i]), now)
    {
      assert rows[..i + 1] == rows[..i] + [rows[i]];
      assert draws[..i + 1] == draws[..i] + [draws[i]];
      MapPairsStep(f, rows[..i], draws[..i], rows[i], draws[i]);
      SavedAllAppend(MapPairs(f, rows[..i], draws[..i]), f(rows[i], draws[i]), now);
      db.CreateEvent(f(rows[i], draws[i]), now);
      created := created + 1;
      i := i + 1;
    }
    assert rows[..i] == rows;
  }

  /**
    The classification of clean_etl.py and clean_load.py: a login label is
    a critical threat, anything else informational traffic.
  */
  function LoginClass(eventType: string): EventClass
  {
    if Contains(eventType, "login") then EventClass(LoginFailure, Severity.Critical, true)
    else EventClass(SuspiciousTraffic, Info, false)
  }

  /** Critical, threat and login label coincide; nothing else is produced. */
  lemma LoginClassFacts(eventType: string)
    ensures var c := LoginClass(eventType);
      && (c.severity == Severity.Critical <==> Contains(eventType, "login"))
      && (c.isThreat <==> Contains(eventType, "login"))
      && (c.category == LoginFailure <==> Contains(eventType, "login"))
      && (!Contains(eventType, "login") ==> c == EventClass(SuspiciousTraffic, Info, false))
  {
  }

  /** `df.head(n)`. */
  function Head<R>(rows: seq<R>, n: nat): (h: seq<R>)
    ensures |h| == Min(n, |rows|) && h <= rows
  {
    rows[..Min(n, |rows|)]
  }

  /** The address `192.168.1.x`. */
  function LocalAddress(x: nat): string
  {
    "192.168.1." + NatToString(x)
  }

  /** The decimal text of the three fixed octets of the private prefix. */
  lemma PrivatePrefixNumerals()
    ensures NatToString(192) == "192" && NatToString(168) == "168" && NatToString(1) == "1"
  {
    assert NatToString(19) == "19";
    assert NatToString(16) == "16";
  }

  /** The f-string `192.168.1.{x}` is the dotted quad of 192, 168, 1 and `x`. */
  lemma LocalAddressIsQuad(x: nat)
    ensures LocalAddress(x) == FormatQuad(192, 168, 1, x)
  {
    PrivatePrefixNumerals();
    var q := [NatToString(192), NatToString(168), NatToString(1), NatToString(x)];
    assert q[1..][1..][1..] == [NatToString(x)];
    assert Join(q[1..][1..], '.') == "1" + "." + NatToString(x);
    assert Join(q[1..], '.') == "168" + "." + ("1" + "." + NatToString(x));
  }

  /** Every `randint(1, 254)` draw gives a valid address that reads back as 192.168.1.x. */
  lemma LocalAddressValid(x: nat)
    requires 1 <= x <= 254
    ensures ValidIpAddress(LocalAddress(x)) && Octets(LocalAddress(x)) == [192, 168, 1, x]
  {
    LocalAddressIsQuad(x);
    FormatQuadValid(192, 168, 1, x);
  }

  /**
    `for filename in names: try: df = read_csv(filename); for row in
    df.head(limit): create ...; break except: continue`, then the fixed
    events: the logged events of the first table, then `fixed`.
  */
  method CsvEventsThenFixed(db: Database, attempts: seq<ReadOutcome<EventRow>>, limit: nat,
                            f: (EventRow, nat) -> EventDraft, draws: seq<nat>, fixed: seq<EventDraft>, now: int)
    returns (created: nat)
    requires |draws| >= limit
    modifies db`events
    ensures var rows := Head(CsvRows(attempts), limit);
      && created == |rows| + |fixed|
      && db.events == old(db.events) + SavedAll(MapPairs(f, rows, draws[..|rows|]), now) + SavedAll(fixed, now)
  {
    var table := FindTable(attempts);
    var rows := if table.Some? then Head(table.value, limit) else [];
    assert rows == Head(CsvRows(attempts), limit);
    var logged := CreateEventRows(db, rows, f, draws, now);
    db.CreateEvents(fixed, now);
    created := logged + |fixed|;
  }

  // ---------------------------------------------------------------------
  // System metrics

  /** One `random.uniform` draw for cpu and memory and one `random.randint` draw for response time. */
  datatype MetricDraw = MetricDraw(cpu: real, memory: real, response: int)

  /** The closed ranges a script draws metrics from. */
  datatype Ranges = Ranges(cpuLo: real, cpuHi: real, memoryLo: real, memoryHi: real, responseLo: int, responseHi: int)

  predicate Drawn(d: MetricDraw, r: Ranges)
  {
    r.cpuLo <= d.cpu <= r.cpuHi && r.memoryLo <= d.memory <= r.memoryHi && r.responseLo <= d.response <= r.responseHi
  }

  predicate InRanges(m: Metric, r: Ranges)
  {
    r.cpuLo <= m.cpu <= r.cpuHi && r.memoryLo <= m.memory <= r.memoryHi && r.responseLo <= m.responseTime <= r.responseHi
  }

  /** The metric recorded `hoursAgo` hours before `now` from draw `d`. */
  function DrawnMetric(now: int, hoursAgo: nat, d: MetricDraw): Metric
  {
    Metric(now - hoursAgo, d.cpu, d.memory, d.response)
  }

  /**
    `for hours_ago in range(24): SystemMetrics.objects.create(...)` with one
    draw per hour: 24 metrics, one per hour back from `now`, each in `ranges`.
  */
  method HourlyMetrics(db: Database, now: int, draws: seq<MetricDraw>, ranges: Ranges) returns (created: nat)
    requires |draws| == 24 && forall h | 0 <= h < 24 :: Drawn(draws[h], ranges)
    modifies db`metrics
    ensures created == 24
    ensures |db.metrics| == |old(db.metrics)| + 24 && old(db.metrics) <= db.metrics
    ensures forall h | 0 <= h < 24 :: db.metrics[|old(db.metrics)| + h] == DrawnMetric(now, h, draws[h])
    ensures forall k | |old(db.metrics)| <= k < |db.metrics| :: InRanges(db.metrics[k], ranges)
  {
    created := 0;
    var hoursAgo := 0;
    while hoursAgo < 24
      invariant 0 <= hoursAgo <= 24 && created == hoursAgo
      invariant |db.metrics| == |old(db.metrics)| + hoursAgo && old(db.metrics) <= db.metrics
      invariant forall h | 0 <= h < hoursAgo :: db.metrics[|old(db.metrics)| + h] == DrawnMetric(now, h, draws[h])
    {
      db.CreateMetric(DrawnMetric(now, hoursAgo, draws[hoursAgo]));
      created := created + 1;
      hoursAgo := hoursAgo + 1;
    }
    forall k | |old(db.metrics)| <= k < |db.metrics| ensures InRanges(db.metrics[k], ranges) {
      var h := k - |old(db.metrics)|;
      assert db.metrics[k] == DrawnMetric(now, h, draws[h]);
    }
  }

  /**
    The ranges of clean_etl.py, simple_load.py and clean_load.py:
    `uniform(20, 90)`, `uniform(30, 85)`, `randint(100, 1000)`.
  */
  const DemoRanges := Ranges(20.0, 90.0, 30.0, 85.0, 100, 1000)

  /** The ranges of fix_data_loading.py and load_real_data.py: a critical device draws high values. */
  function DeviceRanges(status: DeviceStatus): Ranges
  {
    if status == DeviceStatus.Critical then Ranges(85.0, 98.0, 90.0, 99.0, 2000, 5000)
    else Ranges(20.0, 70.0, 30.0, 75.0, 100, 800)
  }

  /** Every metric of a critical device is busier than any metric of a device that is not. */
  lemma CriticalRangesAbove(m: Metric, n: Metric)
    requires InRanges(m, DeviceRanges(DeviceStatus.Critical))
    requires InRanges(n, DeviceRanges(DeviceStatus.Active))
    ensures m.cpu > n.cpu && m.memory > n.memory && m.responseTime > n.responseTime
  {
  }

  /**
    `for device in devices: for hours_ago in range(24): ...`: 24 metrics per
    device, device by device; `draw(i, h, s)` is the draw for the `i`-th
    device `h` hours back when its status is `s`, taken from that status's
    ranges.
  */
  method PerDeviceMetrics(db: Database, devices: seq<Device>, now: int, draw: (nat, nat, DeviceStatus) -> MetricDraw)
    returns (created: nat)
    requires forall i: nat, h: nat, s: DeviceStatus :: Drawn(draw(i, h, s), DeviceRanges(s))
    modifies db`metrics
    ensures created == 24 * |devices|
    ensures |db.metrics| == |old(db.metrics)| + 24 * |devices| && old(db.metrics) <= db.metrics
    ensures forall i, h | 0 <= i < |devices| && 0 <= h < 24 ::
      db.metrics[|old(db.metrics)| + 24 * i + h] == DrawnMetric(now, h, draw(i, h, devices[i].status))
    ensures forall k | |old(db.metrics)| <= k < |db.metrics| ::
      InRanges(db.metrics[k], DeviceRanges(devices[(k - |old(db.metrics)|) / 24].status))
  {
    created := 0;
    var i := 0;
    while i < |devices|
      invariant 0 <= i <= |devices| && created == 24 * i
      invariant |db.metrics| == |old(db.metrics)| + 24 * i && old(db.metrics) <= db.metrics
      invariant forall j, h | 0 <= j < i && 0 <= h < 24 ::
        db.metrics[|old(db.metrics)| + 24 * j + h] == DrawnMetric(now, h, draw(j, h, devices[j].status))
    {
      var n := HourlyMetrics(db, now, DeviceDraws(draw, i, devices[i].status), DeviceRanges(devices[i].status));
      created := created + n;
      i := i + 1;
    }
    forall k | |old(db.metrics)| <= k < |db.metrics|
      ensures InRanges(db.metrics[k], DeviceRanges(devices[(k - |old(db.metrics)|) / 24].status))
    {
      var i, h := (k - |old(db.metrics)|) / 24, (k - |old(db.metrics)|) % 24;
      assert k == |old(db.metrics)| + 24 * i + h;
      assert db.metrics[k] == DrawnMetric(now, h, draw(i, h, devices[i].status));
      assert Drawn(draw(i, h, devices[i].status), DeviceRanges(devices[i].status));
    }
  }

  /**
    `devices = Device.objects.all(); if not devices.exists(): create the
    fallback device`, then 24 metrics for every device.
  */
  method MetricsForDevices(db: Database, fallback: Device, now: int, draw: (nat, nat, DeviceStatus) -> MetricDraw)
    returns (created: nat)
    requires forall i: nat, h: nat, s: DeviceStatus :: Drawn(draw(i, h, s), DeviceRanges(s))
    modifies db`devices, db`metrics
    ensures db.devices == if old(db.devices) == [] then [fallback] else old(db.devices)
    ensures created == 24 * |db.devices|
    ensures |db.metrics| == |old(db.metrics)| + created && old(db.metrics) <= db.metrics
    ensures forall i, h | 0 <= i < |db.devices| && 0 <= h < 24 ::
      db.metrics[|old(db.metrics)| + 24 * i + h] == DrawnMetric(now, h, draw(i, h, db.devices[i].status))
    ensures forall k | |old(db.metrics)| <= k < |db.metrics| ::
      InRanges(db.metrics[k], DeviceRanges(db.devices[(k - |old(db.metrics)|) / 24].status))
  {
    if db.devices == [] {
      db.CreateDevice(fallback);
    }
    created := PerDeviceMetrics(db, db.devices, now, draw);
  }

  /** Every device's 24 metrics, device by device and hour by hour, in the order `PerDeviceMetrics` creates them. */
  function AllDeviceMetrics(devices: seq<Device>, now: int, draw: (nat, nat, DeviceStatus) -> MetricDraw): (ms: seq<Metric>)
    ensures |ms| == 24 * |devices|
  {
    if devices == [] then []
    else
      var n := |devices| - 1;
      AllDeviceMetrics(devices[..n], now, draw)
        + seq(24, h requires 0 <= h < 24 => DrawnMetric(now, h, draw(n, h, devices[n].status)))
  }

  /** The metric of device `i`, `h` hours ago, sits at `24 * i + h`. */
  lemma {:induction false} AllDeviceMetricsAt(devices: seq<Device>, now: int, draw: (nat, nat, DeviceStatus) -> MetricDraw, i: nat, h: nat)
    requires i < |devices| && h < 24
    ensures AllDeviceMetrics(devices, now, draw)[24 * i + h] == DrawnMetric(now, h, draw(i, h, devices[i].status))
  {
    var n := |devices| - 1;
    var init := AllDeviceMetrics(devices[..n], now, draw);
    if i < n {
      AllDeviceMetricsAt(devices[..n], now, draw, i, h);
      assert devices[..n][i] == devices[i];
      assert AllDeviceMetrics(devices, now, draw)[24 * i + h] == init[24 * i + h];
    }
  }

  /**
    The metric loop of a script whose `create` passes the keyword names
    `keywords`: an empty table first gets `fallback`; then either every
    metric is stored, or the first `create` raises and none is.
  */
  method MetricsForDevicesWith(db: Database, keywords: seq<string>, fallback: Device, now: int,
                               draw: (nat, nat, DeviceStatus) -> MetricDraw)
    returns (raised: bool)
    modifies db`devices, db`metrics
    ensures db.devices == if old(db.devices) == [] then [fallback] else old(db.devices)
    ensures raised <==> !Accepts(MetricFields, keywords)
    ensures db.metrics == if raised then old(db.metrics) else old(db.metrics) + AllDeviceMetrics(db.devices, now, draw)
  {
    if db.devices == [] {
      db.CreateDevice(fallback);
    }
    raised := db.CreateMetricsWith(keywords, AllDeviceMetrics(db.devices, now, draw));
  }

  /** The 24 draws of the `i`-th device. */
  function DeviceDraws(draw: (nat, nat, DeviceStatus) -> MetricDraw, i: nat, s: DeviceStatus): (ds: seq<MetricDraw>)
    ensures |ds| == 24 && forall h | 0 <= h < 24 :: ds[h] == draw(i, h, s)
  {
    seq(24, h requires 0 <= h => draw(i, h, s))
  }

  // ---------------------------------------------------------------------
  // User activities

  /**
    `for i in range(n): UserActivity.objects.create(event_type=random.choice(kinds),
    ip_address=f"192.168.1.{x}", ...)`: the `k`-th activity takes the kind
    `kinds[picks[k]]` and the address draw `addrs[k]`.
  */
  method CreateActivities(db: Database, n: nat, kinds: seq<string>, picks: seq<nat>, addrs: seq<nat>, now: int)
    requires |picks| >= n && |addrs| >= n
    requires forall k | 0 <= k < |picks| :: picks[k] < |kinds|
    modifies db`activities
    ensures |db.activities| == |old(db.activities)| + n && old(db.activities) <= db.activities
    ensures forall k | 0 <= k < n ::
      db.activities[|old(db.activities)| + k] == Activity(kinds[picks[k]], LocalAddress(addrs[k]), None, now)
    ensures forall k | |old(db.activities)| <= k < |db.activities| :: db.activities[k].eventType in kinds
  {
    ghost var start := db.activities;
    var i := 0;
    while i < n
      invariant 0 <= i <= n
      invariant |db.activities| == |start| + i && start <= db.activities
      invariant forall k | 0 <= k < i :: db.activities[|start| + k] == Activity(kinds[picks[k]], LocalAddress(addrs[k]), None, now)
      invariant forall k | |start| <= k < |db.activities| :: db.activities[k].eventType in kinds
    {
      var a := Activity(kinds[picks[i]], LocalAddress(addrs[i]), None, now);
      assert a.eventType in kinds;
      db.CreateActivity(a);
      i := i + 1;
    }
  }
}
