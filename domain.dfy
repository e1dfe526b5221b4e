/**
  The records the loaders write (the Django models `Device`, `SecurityEvent`,
  `SystemMetrics` and `UserActivity`), the vocabularies stored in their string
  fields, and the outcome of reading one CSV file.
*/
module Domain {

  datatype Option<T> = None | Some(value: T)

  /** `Device.device_type`. */
  datatype DeviceType = Router | Server | Printer | Workstation

  /** `Device.status`; the model default is `Active`. */
  datatype DeviceStatus = Active | Warning | Critical

  /** `SecurityEvent.severity`. */
  datatype Severity = Info | Warning | Critical

  /** The values the loaders store in `SecurityEvent.event_type`. */
  datatype EventCategory =
    | LoginFailure
    | SuspiciousTraffic
    | UnauthorizedAccess
    | Transaction
    | SuspiciousActivity
    | UserActivity
    | MalwareDetected
    | DdosAttack

  function SeverityName(s: Severity): string
  {
    match s
    case Info => "info"
    case Warning => "warning"
    case Critical => "critical"
  }

  function CategoryName(c: EventCategory): string
  {
    match c
    case LoginFailure => "login_failure"
    case SuspiciousTraffic => "suspicious_traffic"
    case UnauthorizedAccess => "unauthorized_access"
    case Transaction => "transaction"
    case SuspiciousActivity => "suspicious_activity"
    case UserActivity => "user_activity"
    case MalwareDetected => "malware_detected"
    case DdosAttack => "ddos_attack"
  }

  /** A `Device` row (apps/security/models.py). */
  datatype Device = Device(
    hostname: string,
    ipAddress: string,
    deviceType: DeviceType,
    status: DeviceStatus,
    os: string,
    notes: string)

  /**
    A `SecurityEvent` row. `timestamp` is `auto_now_add`: whatever a loader
    passes, the row carries the time it was saved.
  */
  datatype SecurityEvent = SecurityEvent(
    category: EventCategory,
    severity: Severity,
    sourceIp: string,
    details: string,
    isThreat: bool,
    timestamp: int)

  /** The fields a loader supplies when it creates a `SecurityEvent`. */
  datatype EventDraft = EventDraft(
    category: EventCategory,
    severity: Severity,
    sourceIp: string,
    details: string,
    isThreat: bool)

  /** What an event classifier decides: `(event_type, severity, is_threat)`. */
  datatype EventClass = EventClass(category: EventCategory, severity: Severity, isThreat: bool)

  /** A `SystemMetrics` row; timestamps are in whole hours. */
  datatype Metric = Metric(timestamp: int, cpu: real, memory: real, responseTime: int)

  /**
    A `UserActivity` row. Of its JSON `details` only the `sales` figure is
    kept, when there is one; `timestamp` is `auto_now_add`, the save time.
  */
  datatype Activity = Activity(eventType: string, ipAddress: string, sales: Option<real>, timestamp: int)

  // ---------------------------------------------------------------------
  // Reading CSV files

  /**
    What one `pd.read_csv` call does: a table of rows, a `UnicodeDecodeError`,
    a `FileNotFoundError`, or any other exception, each with its message.
  */
  datatype ReadOutcome<R> = Table(rows: seq<R>) | DecodeError(message: string) | NotFound | Failed(message: string)

  /**
    The loop `for encoding in encodings: try: return read_csv(...) except
    UnicodeDecodeError: continue`: the first attempt that does not fail to
    decode decides; if every attempt fails to decode, the last decode error
    is the outcome.
  */
  function FirstDecoded<R>(attempts: seq<ReadOutcome<R>>): (r: ReadOutcome<R>)
    requires |attempts| >= 1
    ensures r.DecodeError? <==> forall k | 0 <= k < |attempts| :: attempts[k].DecodeError?
    ensures r in attempts
  {
    if |attempts| == 1 || !attempts[0].DecodeError? then attempts[0]
    else
      var r := FirstDecoded(attempts[1..]);
      assert forall k | 1 <= k < |attempts| :: attempts[k] == attempts[1..][k - 1];
      r
  }

  /** The encoding loop itself, returning from inside the loop. */
  method TryEncodings<R>(attempts: seq<ReadOutcome<R>>) returns (r: ReadOutcome<R>)
    requires |attempts| >= 1
    ensures r == FirstDecoded(attempts)
  {
    var k := 0;
    while k < |attempts| - 1
      invariant 0 <= k <= |attempts| - 1
      invariant FirstDecoded(attempts) == FirstDecoded(attempts[k..])
    {
      if !attempts[k].DecodeError? {
        return attempts[k];
      }
      assert attempts[k..][1..] == attempts[k + 1..];
      k := k + 1;
    }
    return attempts[k];
  }

  /** The first attempt that does not fail to decode is the outcome. */
  lemma {:induction false} FirstDecodedIsFirst<R>(attempts: seq<ReadOutcome<R>>, k: nat)
    requires k < |attempts| && !attempts[k].DecodeError?
    requires forall j | 0 <= j < k :: attempts[j].DecodeError?
    ensures FirstDecoded(attempts) == attempts[k]
  {
    if k > 0 {
      FirstDecodedIsFirst(attempts[1..], k - 1);
    }
  }

  /** A cell of a CSV row: `None` when the column is missing. */
  function CellOr(cell: Option<string>, default: string): string
  {
    match cell
    case Some(v) => v
    case None => default
  }

  /** One row of network_inventory.csv. */
  datatype InventoryRow = InventoryRow(
    device: Option<string>,
    ipAddress: Option<string>,
    role: Option<string>,
    os: Option<string>,
    notes: Option<string>)

  /**
    One row of event_logs.csv. `amountCents` is the `amount` column in
    hundredths (`None` when the column is missing).
  */
  datatype EventRow = EventRow(
    eventType: Option<string>,
    userId: Option<string>,
    productId: Option<string>,
    amountCents: Option<int>)

  /**
    One Gaussian draw (`random.gauss` / `np.random.normal`) for each of cpu,
    memory and response time, taken as given.
  */
  datatype Noise = Noise(cpu: real, memory: real, response: real)

  /** Every integer draw of a stream lies in `lo..hi` (`random.randint(lo, hi)`). */
  predicate ValidDraws(draws: seq<nat>, lo: nat, hi: nat)
  {
    forall k | 0 <= k < |draws| :: lo <= draws[k] <= hi
  }

  // ---------------------------------------------------------------------
  // Time, in whole hours since the epoch (local time)

  /** `t.hour`. */
  function HourOfDay(t: int): (h: nat)
    ensures h < 24
  {
    t % 24
  }

  /** `t.weekday()`: Monday is 0; 1 January 1970 was a Thursday. */
  function Weekday(t: int): (d: nat)
    ensures d < 7
  {
    (t / 24 + 3) % 7
  }

  /** `min(a, b)` for naturals. */
  function Min(a: nat, b: nat): (m: nat)
    ensures m <= a && m <= b && (m == a || m == b)
  {
    if a <= b then a else b
  }

  /** `max(lo, min(hi, x))`. */
  function Clamp(lo: real, hi: real, x: real): (r: real)
    requires lo <= hi
    ensures lo <= r <= hi
    ensures lo <= x <= hi ==> r == x
    ensures x < lo ==> r == lo
    ensures x > hi ==> r == hi
  {
    if x < lo then lo else if x > hi then hi else x
  }

  /** Python's `int(x)` on a float: truncation toward zero. */
  function Trunc(x: real): (n: int)
    ensures x >= 0.0 ==> n as real <= x < n as real + 1.0
    ensures x < 0.0 ==> n as real - 1.0 < x <= n as real
  {
    if x >= 0.0 then x.Floor else -((-x).Floor)
  }
}
