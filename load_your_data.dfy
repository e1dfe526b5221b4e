/**
  load_your_data.py: get-or-create the inventory (an exception ends the
  step) and add the first 100 rows of `event_logs .csv` as events; nothing
  is cleared first.
*/
module LoadYourData {
  import opened Text
  import opened Domain
  import opened Rules
  import opened Store
  import opened Loaders

  // ---------------------------------------------------------------------
  // Devices

  /** The device type, matched case-sensitively on the raw role: `Router`, else `Printer`, else a server. */
  function YourType(role: string): DeviceType
  {
    if Contains(role, "Router") then Router
    else if Contains(role, "Printer") then Printer
    else Server
  }

  const TypeRules: seq<Rule<DeviceType>> := [Rule(["Router"], Router), Rule(["Printer"], Printer)]

  /** Two case-sensitive keyword rules with server as the fallback: never a workstation. */
  lemma YourTypeTable(role: string)
    ensures YourType(role) == FirstMatch(TypeRules, role, Server)
    ensures YourType(role) != Workstation
  {
    FirstMatchTwo(TypeRules[0], TypeRules[1], role, Server);
    AnyOfOne(role, "Router");
    AnyOfOne(role, "Printer");
  }

  /** Only the capitalised keywords count: a lowercase `router` role gives a server. */
  lemma LowercaseRoleIgnored()
    ensures YourType("router") == Server
    ensures RoleType(Lower("router")) == Router
    ensures YourType("Core Router") == Router
  {
    AbsentChar("router", "Router", 'R');
    AbsentChar("router", "Printer", 'P');
    assert "router" <= Lower("router")[0..];
    ContainsAt(Lower("router"), "router", 0);
    ContainsAt("Core Router", "Router", 5);
  }

  /**
    One inventory row; `None` when `Device` or `IP_Address` is missing. No
    status is given, so the model default `active` applies.
  */
  function YourDevice(row: InventoryRow): Option<Device>
  {
    match (row.device, row.ipAddress)
    case (Some(hostname), Some(ip)) =>
      Some(Device(hostname, ip, YourType(CellOr(row.role, "")), DeviceStatus.Active, CellOr(row.os, ""), CellOr(row.notes, "")))
    case _ => None
  }

  /** A row raises exactly when a key column is missing; a loaded device is always active and never a workstation. */
  lemma YourDeviceFacts(row: InventoryRow)
    ensures YourDevice(row).None? <==> row.device.None? || row.ipAddress.None?
    ensures YourDevice(row).Some? ==>
      var d := YourDevice(row).value;
      && d.hostname == row.device.value && d.ipAddress == row.ipAddress.value
      && d.status == DeviceStatus.Active && d.deviceType != Workstation
  {
  }

  // ---------------------------------------------------------------------
  // Security events

  /** The category, on the lowercased label: login, else checkout, else plain user activity. */
  function YourCategory(eventType: string): EventCategory
  {
    if Contains(eventType, "login") then LoginFailure
    else if Contains(eventType, "checkout") then SuspiciousTraffic
    else UserActivity
  }

  const CategoryRules: seq<Rule<EventCategory>> := [Rule(["login"], LoginFailure), Rule(["checkout"], SuspiciousTraffic)]

  /** One row: severity `info` for user activity and `warning` otherwise, never a threat. */
  function YourEvent(row: EventRow): EventDraft
  {
    var raw := CellOr(row.eventType, "unknown");
    var category := YourCategory(Lower(raw));
    EventDraft(category, if category == UserActivity then Info else Severity.Warning, "192.168.1.100",
               "Event from CSV: " + raw, false)
  }

  /**
    The category is the first match of login, checkout; a row is a warning
    exactly when one of them occurs; no row is critical or a threat, and the
    details keep the label as written.
  */
  lemma YourEventFacts(row: EventRow)
    ensures var raw := CellOr(row.eventType, "unknown");
      var e := YourEvent(row);
      && e.category == FirstMatch(CategoryRules, Lower(raw), UserActivity)
      && (e.severity == Severity.Warning <==> Contains(Lower(raw), "login") || Contains(Lower(raw), "checkout"))
      && e.severity != Severity.Critical && !e.isThreat
      && e.details[|"Event from CSV: "|..] == raw
  {
    var raw := CellOr(row.eventType, "unknown");
    FirstMatchTwo(CategoryRules[0], CategoryRules[1], Lower(raw), UserActivity);
    AnyOfOne(Lower(raw), "login");
    AnyOfOne(Lower(raw), "checkout");
  }

  /** The event of every row. */
  function YourEvents(rows: seq<EventRow>): (es: seq<EventDraft>)
    ensures |es| == |rows| && forall k | 0 <= k < |rows| :: es[k] == YourEvent(rows[k])
  {
    seq(|rows|, k requires 0 <= k < |rows| => YourEvent(rows[k]))
  }

  /**
    `for row in df.iterrows(): create ...; count += 1; if count >= 100:
    break`: the first 100 rows become events, saved at `now`.
  */
  method LoadEvents(db: Database, file: ReadOutcome<EventRow>, now: int) returns (count: nat)
    modifies db`events
    ensures file.Table? ==> count == Min(|file.rows|, 100)
    ensures file.Table? ==> db.events == old(db.events) + SavedAll(YourEvents(file.rows)[..count], now)
    ensures !file.Table? ==> count == 0 && db.events == old(db.events)
  {
    count := 0;
    if !file.Table? {
      return;
    }
    var rows := file.rows;
    ghost var all := YourEvents(rows);
    var i := 0;
    while i < |rows|
      invariant 0 <= i <= |rows| && count == i && count < 100
      invariant db.events == old(db.events) + SavedAll(all[..i], now)
    {
      assert all[..i + 1] == all[..i] + [YourEvent(rows[i])];
      SavedAllAppend(all[..i], YourEvent(rows[i]), now);
      db.CreateEvent(YourEvent(rows[i]), now);
      count := count + 1;
      i := i + 1;
      if count >= 100 {
        break;
      }
    }
  }

  /** The whole script after the admin user: devices, then at most 100 events; nothing is deleted. */
  method Run(db: Database, inventory: ReadOutcome<InventoryRow>, eventFile: ReadOutcome<EventRow>, now: int)
    returns (count: nat)
    modifies db`devices, db`events
    ensures db.devices == InventoryLoad(old(db.devices), inventory, YourDevice).devices
    ensures old(db.devices) <= db.devices && old(db.events) <= db.events
    ensures eventFile.Table? ==> count == Min(|eventFile.rows|, 100)
    ensures eventFile.Table? ==> db.events == old(db.events) + SavedAll(YourEvents(eventFile.rows)[..count], now)
    ensures !eventFile.Table? ==> count == 0 && db.events == old(db.events)
    ensures |db.events| == |old(db.events)| + count
    ensures forall k | |old(db.events)| <= k < |db.events| :: !db.events[k].isThreat
  {
    var load := LoadInventory(db, inventory, YourDevice);
    count := LoadEvents(db, eventFile, now);
  }
}
