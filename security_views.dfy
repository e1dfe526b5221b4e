/**
  `SecurityViewSet` of apps/security/views.py: the date filter shared by the
  view sets, the system-health percentage, and the filters, order and cap of
  `recent_events`.
*/
module SecurityViews {
  import opened Text
  import opened Domain
  import opened Sorting

  // ---------------------------------------------------------------------
  // Date filter

  /**
    A `start_date` / `end_date` query parameter: its text when present, and
    what `parse_datetime` made of it (`None` when it returned `None` or
    raised; the `except: pass` then adds no bound).
  */
  datatype DateParam = DateParam(raw: Option<string>, parsed: Option<int>)

  /** `if value:` on a query parameter: present and not empty. */
  predicate Supplied(p: Option<string>)
  {
    p.Some? && p.value != ""
  }

  /** `timestamp__gte` and `timestamp__lte`, in whole hours. */
  datatype Condition = AtLeast(bound: int) | AtMost(bound: int)

  predicate Holds(c: Condition, t: int)
  {
    match c
    case AtLeast(b) => t >= b
    case AtMost(b) => t <= b
  }

  /** The conjunction `filters &= ...` built up: every condition holds. */
  predicate Admits(filters: seq<Condition>, t: int)
  {
    forall k | 0 <= k < |filters| :: Holds(filters[k], t)
  }

  /** The default windows: seven days for events and activities, 24 hours for metrics. */
  const EventWindow: nat := 7 * 24
  const MetricWindow: nat := 24

  /**
    `get_date_filter`: a parsed start gives a lower bound, a parsed end an
    upper bound, and only when neither parameter is supplied does the
    default window apply. A supplied date that does not parse adds nothing
    and still suppresses the default.
  */
  method GetDateFilter(start: DateParam, end: DateParam, now: int, window: nat) returns (filters: seq<Condition>)
    ensures forall t :: Admits(filters, t) <==>
      && (Supplied(start.raw) && start.parsed.Some? ==> t >= start.parsed.value)
      && (Supplied(end.raw) && end.parsed.Some? ==> t <= end.parsed.value)
      && (!Supplied(start.raw) && !Supplied(end.raw) ==> t >= now - window)
    ensures |filters| <= 2
  {
    filters := [];
    if Supplied(start.raw) && start.parsed.Some? {
      filters := Conjoin(filters, AtLeast(start.parsed.value));
    }
    if Supplied(end.raw) && end.parsed.Some? {
      filters := Conjoin(filters, AtMost(end.parsed.value));
    }
    if !Supplied(start.raw) && !Supplied(end.raw) {
      filters := Conjoin(filters, AtLeast(now - window));
    }
  }

  /** `filters &= Q(...)`. */
  function Conjoin(filters: seq<Condition>, c: Condition): (r: seq<Condition>)
    ensures |r| == |filters| + 1
    ensures forall t :: Admits(r, t) <==> Admits(filters, t) && Holds(c, t)
  {
    var r := filters + [c];
    assert r[|filters|] == c;
    assert forall k | 0 <= k < |filters| :: r[k] == filters[k];
    assert forall t :: Admits(r, t) <==> Admits(filters, t) && Holds(c, t) by {
      forall t ensures Admits(r, t) <==> Admits(filters, t) && Holds(c, t) {
        if Admits(r, t) {
          assert Holds(r[|filters|], t);
          forall k | 0 <= k < |filters| ensures Holds(filters[k], t) {
            assert Holds(r[k], t);
          }
        }
      }
    }
    r
  }

  // ---------------------------------------------------------------------
  // System health

  function CountStatus(ds: seq<Device>, s: DeviceStatus): (n: nat)
    ensures n <= |ds|
  {
    if ds == [] then 0 else CountStatus(ds[..|ds| - 1], s) + (if ds[|ds| - 1].status == s then 1 else 0)
  }

  /** The count reaches the length exactly when every device has the status, and 0 exactly when none has. */
  lemma {:induction false} CountStatusBounds(ds: seq<Device>, s: DeviceStatus)
    ensures CountStatus(ds, s) == |ds| <==> forall k | 0 <= k < |ds| :: ds[k].status == s
    ensures CountStatus(ds, s) == 0 <==> forall k | 0 <= k < |ds| :: ds[k].status != s
    decreases |ds|
  {
    if ds != [] {
      var init := ds[..|ds| - 1];
      CountStatusBounds(init, s);
      assert forall k | 0 <= k < |init| :: init[k] == ds[k];
    }
  }

  /**
    `calculate_system_health`: 100 with no devices, otherwise the share of
    active devices in percent (before rounding to one decimal).
  */
  function SystemHealth(devices: seq<Device>): real
  {
    if devices == [] then 100.0
    else 100.0 * (CountStatus(devices, DeviceStatus.Active) as real) / (|devices| as real)
  }

  /** Health lies in 0..100; it is 100 exactly when every device is active and 0 exactly when none is. */
  lemma SystemHealthRange(devices: seq<Device>)
    ensures 0.0 <= SystemHealth(devices) <= 100.0
    ensures SystemHealth(devices) == 100.0 <==> forall k | 0 <= k < |devices| :: devices[k].status == DeviceStatus.Active
    ensures devices != [] ==>
      (SystemHealth(devices) == 0.0 <==> forall k | 0 <= k < |devices| :: devices[k].status != DeviceStatus.Active)
  {
    CountStatusBounds(devices, DeviceStatus.Active);
    if devices != [] {
      Percentage(CountStatus(devices, DeviceStatus.Active) as real, |devices| as real);
    }
  }

  /** The share `100 * a / n` of a count `a` out of `n > 0` is a percentage, at its ends exactly for none or all. */
  lemma Percentage(a: real, n: real)
    requires n > 0.0 && 0.0 <= a <= n
    ensures 0.0 <= 100.0 * a / n <= 100.0
    ensures 100.0 * a / n == 100.0 <==> a == n
    ensures 100.0 * a / n == 0.0 <==> a == 0.0
  {
    var h := 100.0 * a / n;
    assert h * n == 100.0 * a;
    assert h < 0.0 ==> h * n < 0.0;
    assert h > 100.0 ==> (h - 100.0) * n > 0.0;
    assert h < 100.0 ==> (100.0 - h) * n > 0.0;
    assert h > 0.0 ==> h * n > 0.0;
  }

  // ---------------------------------------------------------------------
  // recent_events

  /**
    The `is_threat` parameter: absent gives no filter; present gives a
    filter on true exactly when its lowercased text is `true`, `1` or `yes`.
  */
  function ThreatFilter(param: Option<string>): Option<bool>
  {
    match param
    case None => None
    case Some(v) => Some(Lower(v) in ["true", "1", "yes"])
  }

  /** Any supplied text other than the three words, the empty string included, filters on false. */
  lemma ThreatFilterFacts(v: string)
    ensures ThreatFilter(None).None?
    ensures ThreatFilter(Some(v)) == Some(true) <==> Lower(v) == "true" || Lower(v) == "1" || Lower(v) == "yes"
    ensures ThreatFilter(Some("TRUE")) == Some(true) && ThreatFilter(Some("Yes")) == Some(true)
    ensures ThreatFilter(Some("no")) == Some(false) && ThreatFilter(Some("")) == Some(false)
  {
    assert Lower("TRUE") == "true";
    assert Lower("Yes") == "yes";
    assert Lower("no") == "no";
  }

  /** The other `recent_events` parameters, as given. */
  datatype EventQuery = EventQuery(
    eventType: Option<string>,
    severity: Option<string>,
    sourceIp: Option<string>,
    isThreat: Option<string>)

  /** Whether an event passes the date filter and every supplied parameter. */
  predicate Selected(e: SecurityEvent, filters: seq<Condition>, q: EventQuery)
  {
    && Admits(filters, e.timestamp)
    && (Supplied(q.eventType) ==> CategoryName(e.category) == q.eventType.value)
    && (Supplied(q.severity) ==> SeverityName(e.severity) == q.severity.value)
    && (Supplied(q.sourceIp) ==> Contains(Lower(e.sourceIp), Lower(q.sourceIp.value)))
    && (ThreatFilter(q.isThreat).Some? ==> e.isThreat == ThreatFilter(q.isThreat).value)
  }

  /** The queryset: the selected events, in store order. */
  function Where(events: seq<SecurityEvent>, filters: seq<Condition>, q: EventQuery): (r: seq<SecurityEvent>)
    ensures |r| <= |events|
    ensures forall e | e in r :: e in events && Selected(e, filters, q)
    ensures forall e | e in events && Selected(e, filters, q) :: e in r
  {
    if events == [] then []
    else
      var init := events[..|events| - 1];
      var last := events[|events| - 1];
      assert events == init + [last];
      Where(init, filters, q) + (if Selected(last, filters, q) then [last] else [])
  }

  /** `Where` keeps every selected event as often as the table holds it, and no other event. */
  lemma {:induction false} WhereCounts(events: seq<SecurityEvent>, filters: seq<Condition>, q: EventQuery)
    ensures forall e :: multiset(Where(events, filters, q))[e] == if Selected(e, filters, q) then multiset(events)[e] else 0
  {
    if events != [] {
      var init := events[..|events| - 1];
      var last := events[|events| - 1];
      assert events == init + [last];
      WhereCounts(init, filters, q);
    }
  }

  function EventTime(e: SecurityEvent): int
  {
    e.timestamp
  }

  /** `recent_events`: up to 100 selected events, most recent first, and the count of all selected ones. */
  function RecentEvents(events: seq<SecurityEvent>, filters: seq<Condition>, q: EventQuery): (seq<SecurityEvent>, nat)
  {
    var matching := Where(events, filters, q);
    var ordered := SortDesc(matching, EventTime);
    (ordered[..Min(|ordered|, 100)], |matching|)
  }

  /** The total counts every selected event; at most 100 are shown, newest first. */
  lemma RecentEventsShape(events: seq<SecurityEvent>, filters: seq<Condition>, q: EventQuery)
    ensures var (shown, total) := RecentEvents(events, filters, q);
      && total == |Where(events, filters, q)|
      && |shown| == Min(total, 100)
      && SortedDesc(shown, EventTime)
  {
    var matching := Where(events, filters, q);
    var ordered := SortDesc(matching, EventTime);
    SortDescFacts(matching, EventTime);
    SortDescLength(matching, EventTime);
    var shown := ordered[..Min(|ordered|, 100)];
    forall i, j | 0 <= i < j < |shown| ensures EventTime(shown[i]) >= EventTime(shown[j]) {
      assert shown[i] == ordered[i] && shown[j] == ordered[j];
    }
  }

  /**
    The shown events are taken from the queryset: no event is shown more
    often than the queryset holds it.
  */
  lemma RecentEventsFromQueryset(events: seq<SecurityEvent>, filters: seq<Condition>, q: EventQuery)
    ensures var (shown, total) := RecentEvents(events, filters, q);
      multiset(shown) <= multiset(Where(events, filters, q))
  {
    var matching := Where(events, filters, q);
    var ordered := SortDesc(matching, EventTime);
    SortDescFacts(matching, EventTime);
    var n := Min(|ordered|, 100);
    assert ordered == ordered[..n] + ordered[n..];
    assert multiset(ordered) == multiset(ordered[..n]) + multiset(ordered[n..]);
  }

  /**
    Every shown event is selected (so passes the filters, by the contract of
    `Where`), and a selected event that is not shown is no newer than any
    shown one.
  */
  lemma RecentEventsNewest(events: seq<SecurityEvent>, filters: seq<Condition>, q: EventQuery)
    ensures var (shown, total) := RecentEvents(events, filters, q);
      && (forall e | e in shown :: e in Where(events, filters, q))
      && (forall e, f | e in shown && f in Where(events, filters, q) && f !in shown :: f.timestamp <= e.timestamp)
  {
    var matching := Where(events, filters, q);
    var ordered := SortDesc(matching, EventTime);
    SortDescFacts(matching, EventTime);
    var n := Min(|ordered|, 100);
    var shown := ordered[..n];
    forall e | e in shown ensures e in matching {
      assert e in multiset(ordered);
    }
    forall e, f | e in shown && f in matching && f !in shown
      ensures f.timestamp <= e.timestamp
    {
      assert f in multiset(ordered);
      var j :| 0 <= j < |ordered| && ordered[j] == f;
      var i :| 0 <= i < n && shown[i] == e;
      assert ordered[i] == e;
      assert EventTime(ordered[i]) >= EventTime(ordered[j]);
    }
  }
}
