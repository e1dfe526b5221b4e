/**
  The database the loaders write to, as an in-memory store: the `Device` table
  as a sequence of rows (the hostname column is not declared unique, so a
  sequence, unlike a map, can hold what `Device.objects.create` leaves behind),
  and append-only sequences for events, metrics and activities.

  `get_or_create(hostname=h, defaults=d)` is specified by `GetOrCreate`, and a
  loader's loop over many devices by `LoadAll` (an exception is recorded and
  the loop goes on) and `LoadUntilFailure` (the first exception ends the loop).
*/
module Store {
  import opened Text
  import opened Domain

  /** How many rows have hostname `h`. */
  function CountHost(ds: seq<Device>, h: string): (n: nat)
    ensures n <= |ds|
    ensures n == 0 <==> !HasHost(ds, h)
  {
    if ds == [] then 0
    else
      var n := CountHost(ds[..|ds| - 1], h) + (if ds[|ds| - 1].hostname == h then 1 else 0);
      assert forall i | 0 <= i < |ds| - 1 :: ds[..|ds| - 1][i] == ds[i];
      n
  }

  predicate HasHost(ds: seq<Device>, h: string)
  {
    exists i | 0 <= i < |ds| :: ds[i].hostname == h
  }

  predicate UniqueHostnames(ds: seq<Device>)
  {
    forall i, j | 0 <= i < j < |ds| :: ds[i].hostname != ds[j].hostname
  }

  lemma {:induction false} UniqueCountsAtMostOne(ds: seq<Device>, h: string)
    requires UniqueHostnames(ds)
    ensures CountHost(ds, h) <= 1
    decreases |ds|
  {
    if ds != [] {
      var init := ds[..|ds| - 1];
      UniqueCountsAtMostOne(init, h);
      if ds[|ds| - 1].hostname == h {
        assert !HasHost(init, h);
      }
    }
  }

  /** What `get_or_create` reports: a new row, the one existing row, or `MultipleObjectsReturned`. */
  datatype Lookup = Created | Found | MultipleFound(count: nat)

  /** `Device.objects.get_or_create(hostname=d.hostname, defaults=d)`. */
  function GetOrCreate(ds: seq<Device>, d: Device): (r: (Lookup, seq<Device>))
    ensures r.0 == Created <==> !HasHost(ds, d.hostname)
    ensures r.0 == Created ==> r.1 == ds + [d]
    ensures r.0 != Created ==> r.1 == ds
    ensures r.0.MultipleFound? <==> CountHost(ds, d.hostname) >= 2
    ensures HasHost(r.1, d.hostname)
  {
    var n := CountHost(ds, d.hostname);
    if n == 0 then
      assert (ds + [d])[|ds|].hostname == d.hostname;
      (Created, ds + [d])
    else if n == 1 then (Found, ds)
    else (MultipleFound(n), ds)
  }

  /** The message of Django's `MultipleObjectsReturned` for `n` matching rows. */
  function MultipleMessage(n: nat): string
  {
    "get() returned more than one Device -- it returned "
      + (if n < 21 then NatToString(n) else "more than 20") + "!"
  }

  /** Get-or-create never introduces a second row with the same hostname. */
  lemma GetOrCreateKeepsUnique(ds: seq<Device>, d: Device)
    requires UniqueHostnames(ds)
    ensures UniqueHostnames(GetOrCreate(ds, d).1)
    ensures !GetOrCreate(ds, d).0.MultipleFound?
  {
    UniqueCountsAtMostOne(ds, d.hostname);
  }

  /** The state of a loop that calls `get_or_create` on each device in turn. */
  datatype LoadState = LoadState(devices: seq<Device>, created: nat, failures: seq<nat>)

  function LoadStep(s: LoadState, d: Device): LoadState
  {
    var (lookup, ds) := GetOrCreate(s.devices, d);
    match lookup
    case Created => LoadState(ds, s.created + 1, s.failures)
    case Found => LoadState(ds, s.created, s.failures)
    case MultipleFound(n) => LoadState(ds, s.created, s.failures + [n])
  }

  /**
    Get-or-create every device in order, counting the rows created and
    recording (as its match count) each device whose lookup raised.
  */
  function LoadAll(ds: seq<Device>, list: seq<Device>): (s: LoadState)
    ensures ds <= s.devices
    ensures |s.devices| == |ds| + s.created
    ensures s.created + |s.failures| <= |list|
  {
    if list == [] then LoadState(ds, 0, [])
    else LoadStep(LoadAll(ds, list[..|list| - 1]), list[|list| - 1])
  }

  /** What one step of the loop does with the result of its lookup. */
  lemma LoadStepOutcome(s: LoadState, d: Device, lookup: Lookup, ds: seq<Device>)
    requires (lookup, ds) == GetOrCreate(s.devices, d)
    ensures LoadStep(s, d).devices == ds
    ensures LoadStep(s, d).created == if lookup.Created? then s.created + 1 else s.created
    ensures LoadStep(s, d).failures == if lookup.MultipleFound? then s.failures + [lookup.count] else s.failures
  {
  }

  /** Loading one more device of the list is one more `LoadStep`. */
  lemma LoadAllPrefixStep(ds: seq<Device>, list: seq<Device>, i: nat)
    requires i < |list|
    ensures LoadAll(ds, list[..i + 1]) == LoadStep(LoadAll(ds, list[..i]), list[i])
  {
    assert list[..i + 1][..i] == list[..i];
  }

  /** After loading, every hostname of the list is in the table. */
  lemma {:induction false} LoadAllCovers(ds: seq<Device>, list: seq<Device>)
    ensures forall k | 0 <= k < |list| :: HasHost(LoadAll(ds, list).devices, list[k].hostname)
    decreases |list|
  {
    if list != [] {
      var prev := LoadAll(ds, list[..|list| - 1]);
      var s := LoadAll(ds, list);
      LoadAllCovers(ds, list[..|list| - 1]);
      assert forall k | 0 <= k < |list| - 1 :: list[..|list| - 1][k] == list[k];
      forall h | HasHost(prev.devices, h) ensures HasHost(s.devices, h) {
        var i :| 0 <= i < |prev.devices| && prev.devices[i].hostname == h;
        assert s.devices[i] == prev.devices[i];
      }
    }
  }

  /** The rows `LoadAll` adds are exactly the devices whose hostnames were new. */
  lemma {:induction false} LoadAllKeepsUnique(ds: seq<Device>, list: seq<Device>)
    requires UniqueHostnames(ds)
    ensures UniqueHostnames(LoadAll(ds, list).devices)
    ensures LoadAll(ds, list).failures == []
    decreases |list|
  {
    if list != [] {
      var prev := LoadAll(ds, list[..|list| - 1]);
      LoadAllKeepsUnique(ds, list[..|list| - 1]);
      GetOrCreateKeepsUnique(prev.devices, list[|list| - 1]);
    }
  }

  /** Loading a list whose hostnames are all present changes nothing and creates nothing. */
  lemma {:induction false} LoadAllPresent(ds: seq<Device>, list: seq<Device>)
    requires forall k | 0 <= k < |list| :: HasHost(ds, list[k].hostname)
    ensures LoadAll(ds, list).devices == ds
    ensures LoadAll(ds, list).created == 0
    decreases |list|
  {
    if list != [] {
      LoadAllPresent(ds, list[..|list| - 1]);
    }
  }

  /**
    Reloading the same list creates nothing and leaves the rows unchanged.
  */
  lemma LoadAllIdempotent(ds: seq<Device>, list: seq<Device>)
    ensures LoadAll(LoadAll(ds, list).devices, list).devices == LoadAll(ds, list).devices
    ensures LoadAll(LoadAll(ds, list).devices, list).created == 0
  {
    LoadAllCovers(ds, list);
    LoadAllPresent(LoadAll(ds, list).devices, list);
  }

  /** Why a loop of `get_or_create` calls with no handler around each call stopped. */
  datatype Halt = MissingColumn | Multiple(count: nat)

  /**
    The state of such a loop: `returned` counts the calls that returned, and
    `halt` says what ended the loop early, if anything.
  */
  datatype PartialLoad = PartialLoad(devices: seq<Device>, created: nat, returned: nat, halt: Option<Halt>)

  /**
    The loop `for row in rows: Device.objects.get_or_create(hostname=row['Device'], ...)`
    with no handler inside it. A row is `None` when reading its cells raises
    `KeyError` (a missing column); that, or `MultipleObjectsReturned`, ends the
    loop, and the rows created before it stay.
  */
  function LoadUntilFailure(ds: seq<Device>, list: seq<Option<Device>>): (r: PartialLoad)
    ensures ds <= r.devices
    ensures |r.devices| == |ds| + r.created
    ensures r.created <= r.returned <= |list|
    ensures r.halt == None <==> r.returned == |list|
  {
    if list == [] then PartialLoad(ds, 0, 0, None)
    else
      var prev := LoadUntilFailure(ds, list[..|list| - 1]);
      if prev.halt != None then prev
      else
        match list[|list| - 1]
        case None => prev.(halt := Some(MissingColumn))
        case Some(d) =>
          var (lookup, ds') := GetOrCreate(prev.devices, d);
          match lookup
          case Created => PartialLoad(ds', prev.created + 1, prev.returned + 1, None)
          case Found => PartialLoad(ds', prev.created, prev.returned + 1, None)
          case MultipleFound(n) => prev.(halt := Some(Multiple(n)))
  }

  /** Once the loop has stopped, the rows after that point change nothing. */
  lemma {:induction false} LoadUntilFailureHalted(ds: seq<Device>, list: seq<Option<Device>>, j: nat)
    requires j <= |list| && LoadUntilFailure(ds, list[..j]).halt != None
    ensures LoadUntilFailure(ds, list) == LoadUntilFailure(ds, list[..j])
    decreases |list| - j
  {
    if j < |list| {
      assert list[..|list| - 1][..j] == list[..j];
      LoadUntilFailureHalted(ds, list[..|list| - 1], j);
    } else {
      assert list[..j] == list;
    }
  }

  /**
    On a table whose hostnames are unique the loop keeps them unique, and
    only a missing column can stop it.
  */
  lemma {:induction false} LoadUntilFailureKeepsUnique(ds: seq<Device>, list: seq<Option<Device>>)
    requires UniqueHostnames(ds)
    ensures UniqueHostnames(LoadUntilFailure(ds, list).devices)
    ensures LoadUntilFailure(ds, list).halt != None ==> LoadUntilFailure(ds, list).halt == Some(MissingColumn)
    decreases |list|
  {
    if list != [] {
      var prev := LoadUntilFailure(ds, list[..|list| - 1]);
      LoadUntilFailureKeepsUnique(ds, list[..|list| - 1]);
      if prev.halt == None && list[|list| - 1].Some? {
        GetOrCreateKeepsUnique(prev.devices, list[|list| - 1].value);
      }
    }
  }

  /** Every row whose call returned has its hostname in the table afterwards. */
  lemma {:induction false} LoadUntilFailureCovers(ds: seq<Device>, list: seq<Option<Device>>)
    ensures var r := LoadUntilFailure(ds, list);
      forall k | 0 <= k < r.returned :: list[k].Some? && HasHost(r.devices, list[k].value.hostname)
    decreases |list|
  {
    if list != [] {
      var init := list[..|list| - 1];
      var prev := LoadUntilFailure(ds, init);
      var r := LoadUntilFailure(ds, list);
      LoadUntilFailureCovers(ds, init);
      assert forall k | 0 <= k < |init| :: init[k] == list[k];
      if prev.halt == None && list[|list| - 1].Some? {
        forall h | HasHost(prev.devices, h) ensures HasHost(r.devices, h) {
          var i :| 0 <= i < |prev.devices| && prev.devices[i].hostname == h;
          assert r.devices[i] == prev.devices[i];
        }
      }
    }
  }

  /** A row is only missing a column when its entry is `None`. */
  lemma {:induction false} LoadUntilFailureNoMissing(ds: seq<Device>, list: seq<Option<Device>>)
    requires forall k | 0 <= k < |list| :: list[k].Some?
    ensures LoadUntilFailure(ds, list).halt != Some(MissingColumn)
    decreases |list|
  {
    if list != [] {
      LoadUntilFailureNoMissing(ds, list[..|list| - 1]);
    }
  }

  /** Every device of a fixed list, as loop entries that cannot miss a column. */
  function Present(list: seq<Device>): (r: seq<Option<Device>>)
    ensures |r| == |list| && forall k | 0 <= k < |list| :: r[k] == Some(list[k])
  {
    seq(|list|, k requires 0 <= k < |list| => Some(list[k]))
  }

  /**
    Get-or-create over a fixed list, on a table with unique hostnames, runs
    to the end: nothing raises, hostnames stay unique and every device of
    the list is in the table.
  */
  lemma LoadPresentCompletes(ds: seq<Device>, list: seq<Device>)
    requires UniqueHostnames(ds)
    ensures var r := LoadUntilFailure(ds, Present(list));
      && r.halt == None && r.returned == |list| && UniqueHostnames(r.devices)
      && forall k | 0 <= k < |list| :: HasHost(r.devices, list[k].hostname)
  {
    LoadUntilFailureNoMissing(ds, Present(list));
    LoadUntilFailureKeepsUnique(ds, Present(list));
    LoadUntilFailureCovers(ds, Present(list));
  }

  // ---------------------------------------------------------------------
  // Keyword arguments of `create`

  /** The fields of `SecurityEvent` (apps/security/models.py): the keywords its constructor takes. */
  const SecurityEventFields: set<string> := {"id", "event_type", "severity", "source_ip", "timestamp", "details", "is_threat"}

  /** The fields of `SystemMetrics` (apps/analytics/models.py). */
  const MetricFields: set<string> := {"id", "timestamp", "cpu_usage", "memory_usage", "response_time"}

  /** A Django model constructor raises `TypeError` unless every keyword names one of its fields. */
  predicate Accepts(fields: set<string>, keywords: seq<string>)
  {
    forall k | k in keywords :: k in fields
  }

  /** The tables, updated in place by the loaders. */
  class Database {
    var devices: seq<Device>
    var events: seq<SecurityEvent>
    var metrics: seq<Metric>
    var activities: seq<Activity>

    constructor (devices: seq<Device>, events: seq<SecurityEvent>, metrics: seq<Metric>, activities: seq<Activity>)
      ensures this.devices == devices && this.events == events
      ensures this.metrics == metrics && this.activities == activities
    {
      this.devices := devices;
      this.events := events;
      this.metrics := metrics;
      this.activities := activities;
    }

    /** `Device.objects.all().delete()`. */
    method DeleteDevices()
      modifies this`devices
      ensures devices == []
    {
      devices := [];
    }

    /** `SecurityEvent.objects.all().delete()`. */
    method DeleteEvents()
      modifies this`events
      ensures events == []
    {
      events := [];
    }

    /** `SystemMetrics.objects.all().delete()`. */
    method DeleteMetrics()
      modifies this`metrics
      ensures metrics == []
    {
      metrics := [];
    }

    /** `UserActivity.objects.all().delete()`. */
    method DeleteActivities()
      modifies this`activities
      ensures activities == []
    {
      activities := [];
    }

    /** `Device.objects.create(...)`: no uniqueness check, no address check. */
    method CreateDevice(d: Device)
      modifies this`devices
      ensures devices == old(devices) + [d]
    {
      devices := devices + [d];
    }

    method GetOrCreateDevice(d: Device) returns (lookup: Lookup)
      modifies this`devices
      ensures (lookup, devices) == GetOrCreate(old(devices), d)
    {
      var r := GetOrCreate(devices, d);
      lookup := r.0;
      devices := r.1;
    }

    /** `SecurityEvent.objects.create(...)` at time `now`: the timestamp is the save time. */
    method CreateEvent(e: EventDraft, now: int)
      modifies this`events
      ensures events == old(events) + [Saved(e, now)]
    {
      events := events + [Saved(e, now)];
    }

    /** `for e in events: SecurityEvent.objects.create(**e)`. */
    method CreateEvents(drafts: seq<EventDraft>, now: int)
      modifies this`events
      ensures events == old(events) + SavedAll(drafts, now)
    {
      var i := 0;
      while i < |drafts|
        invariant 0 <= i <= |drafts|
        invariant events == old(events) + SavedAll(drafts[..i], now)
      {
        assert drafts[..i + 1][..i] == drafts[..i];
        CreateEvent(drafts[i], now);
        i := i + 1;
      }
      assert drafts[..i] == drafts;
    }

    method CreateMetric(m: Metric)
      modifies this`metrics
      ensures metrics == old(metrics) + [m]
    {
      metrics := metrics + [m];
    }

    /**
      `SecurityEvent.objects.create(...)` called with the keyword names
      `keywords`: a name that is not a field raises before anything is saved.
    */
    method CreateEventWith(keywords: seq<string>, e: EventDraft, now: int) returns (raised: bool)
      modifies this`events
      ensures raised <==> !Accepts(SecurityEventFields, keywords)
      ensures events == if raised then old(events) else old(events) + [Saved(e, now)]
    {
      raised := !Accepts(SecurityEventFields, keywords);
      if !raised {
        CreateEvent(e, now);
      }
    }

    /** A loop of `CreateEventWith` over `drafts`: the first `create` raises, or none does. */
    method CreateEventsWith(keywords: seq<string>, drafts: seq<EventDraft>, now: int) returns (raised: bool)
      modifies this`events
      ensures raised <==> !Accepts(SecurityEventFields, keywords) && drafts != []
      ensures events == if Accepts(SecurityEventFields, keywords) then old(events) + SavedAll(drafts, now) else old(events)
    {
      raised := false;
      var i := 0;
      while i < |drafts|
        invariant 0 <= i <= |drafts|
        invariant !raised
        invariant events == old(events) + SavedAll(drafts[..i], now)
        invariant !Accepts(SecurityEventFields, keywords) ==> i == 0
      {
        assert drafts[..i + 1][..i] == drafts[..i];
        raised := CreateEventWith(keywords, drafts[i], now);
        if raised {
          return;
        }
        i := i + 1;
      }
      assert drafts[..i] == drafts;
    }

    /** `SystemMetrics.objects.create(...)` called with the keyword names `keywords`. */
    method CreateMetricWith(keywords: seq<string>, m: Metric) returns (raised: bool)
      modifies this`metrics
      ensures raised <==> !Accepts(MetricFields, keywords)
      ensures metrics == if raised then old(metrics) else old(metrics) + [m]
    {
      raised := !Accepts(MetricFields, keywords);
      if !raised {
        CreateMetric(m);
      }
    }

    /** A loop of `CreateMetricWith` over `ms`: the first `create` raises, or none does. */
    method CreateMetricsWith(keywords: seq<string>, ms: seq<Metric>) returns (raised: bool)
      modifies this`metrics
      ensures raised <==> !Accepts(MetricFields, keywords) && ms != []
      ensures metrics == if Accepts(MetricFields, keywords) then old(metrics) + ms else old(metrics)
    {
      raised := false;
      var i := 0;
      while i < |ms|
        invariant 0 <= i <= |ms|
        invariant !raised
        invariant metrics == old(metrics) + ms[..i]
        invariant !Accepts(MetricFields, keywords) ==> i == 0
      {
        assert ms[..i + 1] == ms[..i] + [ms[i]];
        raised := CreateMetricWith(keywords, ms[i]);
        if raised {
          return;
        }
        i := i + 1;
      }
      assert ms[..i] == ms;
    }

    method CreateActivity(a: Activity)
      modifies this`activities
      ensures activities == old(activities) + [a]
    {
      activities := activities + [a];
    }
  }

  /** The row an `EventDraft` becomes when saved at `now` (`auto_now_add`). */
  function Saved(e: EventDraft, now: int): (r: SecurityEvent)
    ensures r.timestamp == now
  {
    SecurityEvent(e.category, e.severity, e.sourceIp, e.details, e.isThreat, now)
  }

  /** The rows the events become, in order, all saved at `now`. */
  function SavedAll(events: seq<EventDraft>, now: int): (r: seq<SecurityEvent>)
    ensures |r| == |events|
    ensures forall k | 0 <= k < |r| :: r[k] == Saved(events[k], now)
  {
    seq(|events|, k requires 0 <= k < |events| => Saved(events[k], now))
  }

  lemma SavedAllAppend(events: seq<EventDraft>, e: EventDraft, now: int)
    ensures SavedAll(events + [e], now) == SavedAll(events, now) + [Saved(e, now)]
  {
  }

  lemma SavedAllConcat(a: seq<EventDraft>, b: seq<EventDraft>, now: int)
    ensures SavedAll(a, now) + SavedAll(b, now) == SavedAll(a + b, now)
  {
  }
}
