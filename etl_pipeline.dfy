/**
  `FinMarkETLPipeline` (etl_pipeline.py): extract the inventory and event CSV
  files, clean and classify their rows, synthesise 24 hours of system metrics,
  load everything into the database and summarise the run.

  The classifiers and string builders are functions; the cleaning and loading
  loops are methods of the class `FinMarkEtlPipeline`, which owns the
  `errors` list and the `processed_records` counters.
*/
module EtlPipeline {
  import opened Text
  import opened Ipv4
  import opened Domain
  import opened Rules
  import opened Store
  import opened Lists
  import opened Loaders

  // ---------------------------------------------------------------------
  // Classifiers

  /** `_categorize_device_type`. */
  function CategorizeDeviceType(role: string): DeviceType
  {
    var roleLower := Lower(role);
    if Contains(roleLower, "router") then Router
    else if Contains(roleLower, "server") then Server
    else if Contains(roleLower, "printer") then Printer
    else if Contains(roleLower, "pc") || Contains(roleLower, "client") then Workstation
    else Workstation
  }

  const DeviceTypeRules: seq<Rule<DeviceType>> := [
    Rule(["router"], Router),
    Rule(["server"], Server),
    Rule(["printer"], Printer),
    Rule(["pc", "client"], Workstation)
  ]

  /** The device type is the first match of router, server, printer, pc/client on the lowercased role; workstation otherwise. */
  lemma DeviceTypeTable(role: string)
    ensures CategorizeDeviceType(role) == FirstMatch(DeviceTypeRules, Lower(role), Workstation)
  {
    var l := Lower(role);
    FirstMatchFour(DeviceTypeRules[0], DeviceTypeRules[1], DeviceTypeRules[2], DeviceTypeRules[3], l, Workstation);
    AnyOfOne(l, "router");
    AnyOfOne(l, "server");
    AnyOfOne(l, "printer");
    AnyOfTwo(l, "pc", "client");
  }

  /** The `pc`/`client` arm changes nothing: only router, server and printer decide. */
  lemma WorkstationIsDefault(role: string)
    ensures var l := Lower(role);
      (CategorizeDeviceType(role) == Workstation)
        <==> (!Contains(l, "router") && !Contains(l, "server") && !Contains(l, "printer"))
  {
  }

  const CriticalKeywords: seq<string> := ["no antivirus", "outdated", "no firewall", "vulnerable"]
  const WarningKeywords: seq<string> := ["ssl", "tls", "update", "patch"]

  /** `_determine_device_status`. */
  function DetermineDeviceStatus(notes: string): DeviceStatus
  {
    var notesLower := Lower(notes);
    if ContainsAny(notesLower, CriticalKeywords) then DeviceStatus.Critical
    else if ContainsAny(notesLower, WarningKeywords) then DeviceStatus.Warning
    else DeviceStatus.Active
  }

  const StatusRules: seq<Rule<DeviceStatus>> := [
    Rule(CriticalKeywords, DeviceStatus.Critical),
    Rule(WarningKeywords, DeviceStatus.Warning)
  ]

  /** The status is critical on any critical keyword, else warning on any warning keyword, else active. */
  lemma DeviceStatusTable(notes: string)
    ensures DetermineDeviceStatus(notes) == FirstMatch(StatusRules, Lower(notes), DeviceStatus.Active)
    ensures var l := Lower(notes);
      && ((DetermineDeviceStatus(notes) == DeviceStatus.Critical)
           <==> (Contains(l, "no antivirus") || Contains(l, "outdated") || Contains(l, "no firewall") || Contains(l, "vulnerable")))
      && ((DetermineDeviceStatus(notes) == DeviceStatus.Active)
           <==> (!ContainsAny(l, CriticalKeywords) && !Contains(l, "ssl") && !Contains(l, "tls")
                 && !Contains(l, "update") && !Contains(l, "patch")))
  {
    var l := Lower(notes);
    FirstMatchTwo(StatusRules[0], StatusRules[1], l, DeviceStatus.Active);
    AnyOfFour(l, "no antivirus", "outdated", "no firewall", "vulnerable");
    AnyOfFour(l, "ssl", "tls", "update", "patch");
  }

  /** `_categorize_security_event`. */
  function CategorizeSecurityEvent(eventType: string): EventClass
  {
    var eventLower := Lower(eventType);
    if Contains(eventLower, "login") then EventClass(LoginFailure, Severity.Critical, true)
    else if Contains(eventLower, "checkout") then EventClass(SuspiciousTraffic, Severity.Warning, false)
    else if Contains(eventLower, "wishlist") then EventClass(UnauthorizedAccess, Severity.Warning, true)
    else if Contains(eventLower, "profile") then EventClass(SuspiciousTraffic, Info, false)
    else EventClass(SuspiciousTraffic, Info, false)
  }

  const EventRules: seq<Rule<EventClass>> := [
    Rule(["login"], EventClass(LoginFailure, Severity.Critical, true)),
    Rule(["checkout"], EventClass(SuspiciousTraffic, Severity.Warning, false)),
    Rule(["wishlist"], EventClass(UnauthorizedAccess, Severity.Warning, true)),
    Rule(["profile"], EventClass(SuspiciousTraffic, Info, false))
  ]

  /** The event classification is the first match of login, checkout, wishlist, profile. */
  lemma EventTable(eventType: string)
    ensures CategorizeSecurityEvent(eventType) == FirstMatch(EventRules, Lower(eventType), EventClass(SuspiciousTraffic, Info, false))
  {
    var l := Lower(eventType);
    FirstMatchFour(EventRules[0], EventRules[1], EventRules[2], EventRules[3], l, EventClass(SuspiciousTraffic, Info, false));
    AnyOfOne(l, "login");
    AnyOfOne(l, "checkout");
    AnyOfOne(l, "wishlist");
    AnyOfOne(l, "profile");
  }

  /**
    What the event table implies: a threat exactly for login labels and for
    wishlist labels without "checkout" (the checkout arm comes first),
    critical exactly for login labels, info exactly when none of login,
    checkout, wishlist occurs.
  */
  lemma EventClassFacts(eventType: string)
    ensures var c := CategorizeSecurityEvent(eventType);
      var l := Lower(eventType);
      && (c.isThreat <==> Contains(l, "login") || (!Contains(l, "checkout") && Contains(l, "wishlist")))
      && (c.severity == Severity.Critical <==> Contains(l, "login"))
      && (c.severity == Info <==> !Contains(l, "login") && !Contains(l, "checkout") && !Contains(l, "wishlist"))
  {
  }

  // ---------------------------------------------------------------------
  // Synthesised values

  /**
    `_generate_source_ip`: `203.0.113.x` for login labels, `192.168.1.x`
    otherwise, where `x` is the `randint(1, 254)` draw (upper bound exclusive).
  */
  function GenerateSourceIp(eventType: string, x: nat): (ip: string)
  {
    if Contains(Lower(eventType), "login") then FormatQuad(203, 0, 113, x) else FormatQuad(192, 168, 1, x)
  }

  /**
    Every generated address passes `_validate_ip_address`; it reads back as
    203.0.113.x exactly for login labels and 192.168.1.x otherwise.
  */
  lemma SourceIpFacts(eventType: string, x: nat)
    requires 1 <= x <= 253
    ensures ValidIpAddress(GenerateSourceIp(eventType, x))
    ensures Octets(GenerateSourceIp(eventType, x))
         == (if Contains(Lower(eventType), "login") then [203, 0, 113, x] else [192, 168, 1, x])
  {
    FormatQuadValid(203, 0, 113, x);
    FormatQuadValid(192, 168, 1, x);
  }

  const SecurityTag := "SECURITY: "
  const BusinessTag := "BUSINESS: "
  const SecurityNote := SecurityTag + "Multiple failed authentication attempts"
  const BusinessNote := BusinessTag + "Transaction completed"

  /** The annotation appended for login and checkout labels. */
  function Annotation(eventType: string): (n: seq<string>)
    ensures |n| <= 1
  {
    if Contains(Lower(eventType), "login") then [SecurityNote]
    else if Contains(Lower(eventType), "checkout") then [BusinessNote]
    else []
  }

  /**
    The `" | "`-separated pieces of an event's details, in order: the event
    type, then the user, product and amount when present, then at most one
    annotation.
  */
  function DetailFields(eventType: string, userId: string, productId: string, cents: int): (f: seq<string>)
    ensures |f| >= 1
  {
    ["Event Type: " + eventType]
    + Optional(userId != "unknown", "User: " + userId)
    + Optional(productId != "", "Product: " + productId)
    + Optional(cents > 0, "Amount: $" + FormatCents(cents))
    + Annotation(eventType)
  }

  /** `_create_event_details`, one `+=` at a time. */
  function CreateEventDetails(eventType: string, userId: string, productId: string, cents: int): string
  {
    var details := "Event Type: " + eventType;
    var details := if userId != "unknown" then details + " | User: " + userId else details;
    var details := if productId != "" then details + " | Product: " + productId else details;
    var details := if cents > 0 then details + " | Amount: $" + FormatCents(cents) else details;
    Annotate(details, eventType)
  }

  /** The last step of `_create_event_details`: the login or checkout note. */
  function Annotate(details: string, eventType: string): string
  {
    if Contains(Lower(eventType), "login") then details + " | " + SecurityNote
    else if Contains(Lower(eventType), "checkout") then details + " | " + BusinessNote
    else details
  }

  /** The details are the pieces of `DetailFields`, joined by `" | "`. */
  lemma EventDetailsJoinFields(eventType: string, userId: string, productId: string, cents: int)
    ensures CreateEventDetails(eventType, userId, productId, cents)
         == JoinWith(DetailFields(eventType, userId, productId, cents), " | ")
  {
    var f0 := ["Event Type: " + eventType];
    var d0 := "Event Type: " + eventType;
    var u := Optional(userId != "unknown", "User: " + userId);
    JoinOptional(f0, " | ", d0, u);
    assert " | User: " == " | " + "User: ";
    AppendPiece(d0, " | ", "User: ", userId);
    var d1 := if userId != "unknown" then d0 + " | User: " + userId else d0;
    var p := Optional(productId != "", "Product: " + productId);
    JoinOptional(f0 + u, " | ", d1, p);
    assert " | Product: " == " | " + "Product: ";
    AppendPiece(d1, " | ", "Product: ", productId);
    var d2 := if productId != "" then d1 + " | Product: " + productId else d1;
    var a := Optional(cents > 0, "Amount: $" + FormatCents(cents));
    JoinOptional(f0 + u + p, " | ", d2, a);
    assert " | Amount: $" == " | " + "Amount: $";
    AppendPiece(d2, " | ", "Amount: $", FormatCents(cents));
    var d3 := if cents > 0 then d2 + " | Amount: $" + FormatCents(cents) else d2;
    var n := Annotation(eventType);
    JoinOptional(f0 + u + p + a, " | ", d3, n);
    AnnotateAppends(d3, eventType);
  }

  /** `Annotate` appends the annotation piece, if any. */
  lemma AnnotateAppends(details: string, eventType: string)
    ensures var n := Annotation(eventType);
      Annotate(details, eventType) == if n == [] then details else details + " | " + n[0]
  {
  }

  /** A tag is among the pieces exactly when it is in one of the five parts. */
  lemma HasFieldParts(eventType: string, userId: string, productId: string, cents: int, tag: string)
    ensures HasField(DetailFields(eventType, userId, productId, cents), tag)
        <==> || tag <= "Event Type: " + eventType
             || (userId != "unknown" && tag <= "User: " + userId)
             || (productId != "" && tag <= "Product: " + productId)
             || (cents > 0 && tag <= "Amount: $" + FormatCents(cents))
             || HasField(Annotation(eventType), tag)
  {
    var h := ["Event Type: " + eventType];
    var u := Optional(userId != "unknown", "User: " + userId);
    var p := Optional(productId != "", "Product: " + productId);
    var a := Optional(cents > 0, "Amount: $" + FormatCents(cents));
    var n := Annotation(eventType);
    HasFieldConcat(h + u + p + a, n, tag);
    HasFieldConcat(h + u + p, a, tag);
    HasFieldConcat(h + u, p, tag);
    HasFieldConcat(h, u, tag);
    HasFieldOptional(true, "Event Type: " + eventType, tag);
    assert h == Optional(true, "Event Type: " + eventType);
    HasFieldOptional(userId != "unknown", "User: " + userId, tag);
    HasFieldOptional(productId != "", "Product: " + productId, tag);
    HasFieldOptional(cents > 0, "Amount: $" + FormatCents(cents), tag);
  }

  /** The annotation piece carries a tag exactly when its note starts with it. */
  lemma AnnotationField(eventType: string, tag: string)
    ensures HasField(Annotation(eventType), tag)
        <==> ((Contains(Lower(eventType), "login") && tag <= SecurityNote)
              || (!Contains(Lower(eventType), "login") && Contains(Lower(eventType), "checkout") && tag <= BusinessNote))
  {
    var n := Annotation(eventType);
    if n != [] {
      assert n == [n[0]];
    }
  }

  /** The user, product and amount pieces are present exactly when those values are. */
  lemma DetailFieldsValues(eventType: string, userId: string, productId: string, cents: int)
    ensures var f := DetailFields(eventType, userId, productId, cents);
      && f[0] == "Event Type: " + eventType
      && (HasField(f, "User: ") <==> userId != "unknown")
      && (HasField(f, "Product: ") <==> productId != "")
      && (HasField(f, "Amount: $") <==> cents > 0)
  {
    assert SecurityNote[0] == SecurityTag[0] && BusinessNote[0] == BusinessTag[0];
    assert ("Event Type: " + eventType)[0] == 'E';
    AnnotationField(eventType, "User: ");
    AnnotationField(eventType, "Product: ");
    AnnotationField(eventType, "Amount: $");
    HasFieldParts(eventType, userId, productId, cents, "User: ");
    HasFieldParts(eventType, userId, productId, cents, "Product: ");
    HasFieldParts(eventType, userId, productId, cents, "Amount: $");
    assert ("User: " + userId)[0] == 'U';
    assert ("Product: " + productId)[0] == 'P';
    assert ("Amount: $" + FormatCents(cents))[0] == 'A';
  }

  /**
    The annotation: the security note, last, exactly for labels containing
    "login"; the business note, last, exactly for labels containing
    "checkout" and not "login".
  */
  lemma DetailFieldsNotes(eventType: string, userId: string, productId: string, cents: int)
    ensures var f := DetailFields(eventType, userId, productId, cents);
      var l := Lower(eventType);
      && (HasField(f, SecurityTag) <==> Contains(l, "login"))
      && (HasField(f, BusinessTag) <==> !Contains(l, "login") && Contains(l, "checkout"))
      && (Contains(l, "login") ==> f[|f| - 1] == SecurityNote)
      && (!Contains(l, "login") && Contains(l, "checkout") ==> f[|f| - 1] == BusinessNote)
  {
    assert ("Event Type: " + eventType)[0] == 'E';
    assert ("User: " + userId)[0] == 'U';
    assert ("Product: " + productId)[0] == 'P';
    assert ("Amount: $" + FormatCents(cents))[0] == 'A';
    assert SecurityNote[0] == SecurityTag[0] && BusinessNote[0] == BusinessTag[0];
    AnnotationField(eventType, SecurityTag);
    AnnotationField(eventType, BusinessTag);
    HasFieldParts(eventType, userId, productId, cents, SecurityTag);
    HasFieldParts(eventType, userId, productId, cents, BusinessTag);
  }

  // ---------------------------------------------------------------------
  // Row cleaning

  /**
    One row of `clean_network_inventory`: every column is stripped, a row
    whose address fails `_validate_ip_address` is dropped (`None`).
  */
  function CleanDevice(row: InventoryRow): (r: Option<Device>)
    ensures r.Some? ==> ValidIpAddress(r.value.ipAddress) && Trimmed(r.value.ipAddress)
    ensures r.Some? ==> Trimmed(r.value.hostname) && Trimmed(r.value.os) && Trimmed(r.value.notes)
  {
    var name := Strip(CellOr(row.device, ""));
    var ip := Strip(CellOr(row.ipAddress, ""));
    var role := Strip(CellOr(row.role, ""));
    var os := Strip(CellOr(row.os, ""));
    var notes := Strip(CellOr(row.notes, ""));
    if !ValidIpAddress(ip) then None
    else Some(Device(name, ip, CategorizeDeviceType(role), DetermineDeviceStatus(notes), os, notes))
  }

  /** The devices `clean_network_inventory` returns for `rows`, in input order. */
  function CleanInventory(rows: seq<InventoryRow>): (ds: seq<Device>)
    ensures |ds| <= |rows|
  {
    FilterMap(CleanDevice, rows)
  }

  /** One more inventory row adds its cleaned device, if it has one. */
  lemma CleanInventoryStep(rows: seq<InventoryRow>, i: nat)
    requires i < |rows|
    ensures CleanInventory(rows[..i + 1]) == CleanInventory(rows[..i]) + Kept(CleanDevice(rows[i]))
  {
    assert rows[..i + 1] == rows[..i] + [rows[i]];
    FilterMapStep(CleanDevice, rows[..i], rows[i]);
  }

  /**
    Every cleaned device has a valid, stripped address; when every row's
    address is valid nothing is dropped.
  */
  lemma CleanInventoryFacts(rows: seq<InventoryRow>)
    ensures forall k | 0 <= k < |CleanInventory(rows)| :: ValidIpAddress(CleanInventory(rows)[k].ipAddress)
    ensures (forall i | 0 <= i < |rows| :: CleanDevice(rows[i]).Some?) ==> |CleanInventory(rows)| == |rows|
  {
    var ds := CleanInventory(rows);
    forall k | 0 <= k < |ds| ensures ValidIpAddress(ds[k].ipAddress) {
      var i :| 0 <= i < |rows| && CleanDevice(rows[i]) == Some(ds[k]);
    }
    if forall i | 0 <= i < |rows| :: CleanDevice(rows[i]).Some? {
      FilterMapAll(CleanDevice, rows);
    }
  }

  /** One row of `clean_event_logs`, with `x` the source-address draw. */
  function CleanEvent(row: EventRow, x: nat): EventDraft
  {
    var eventType := Strip(Lower(CellOr(row.eventType, "unknown")));
    var userId := Strip(CellOr(row.userId, "unknown"));
    var productId := CellOr(row.productId, "");
    var cents := match row.amountCents case Some(c) => c case None => 0;
    var c := CategorizeSecurityEvent(eventType);
    EventDraft(c.category, c.severity, GenerateSourceIp(eventType, x),
               CreateEventDetails(eventType, userId, productId, cents), c.isThreat)
  }

  // ---------------------------------------------------------------------
  // Synthetic metrics

  predicate IsBusinessHour(t: int)
  {
    8 <= HourOfDay(t) <= 18
  }

  /** The metric for `hoursAgo` hours before `now`. */
  function HourMetric(now: int, hoursAgo: nat, n: Noise): (m: Metric)
    ensures m.timestamp == now - hoursAgo
    ensures 10.0 <= m.cpu <= 95.0 && 20.0 <= m.memory <= 90.0 && m.responseTime >= 50
    ensures IsBusinessHour(m.timestamp) && -15.0 <= n.cpu <= 15.0 ==> 45.0 <= m.cpu <= 75.0
    ensures !IsBusinessHour(m.timestamp) && -15.0 <= n.cpu <= 15.0 ==> 15.0 <= m.cpu <= 45.0
  {
    var t := now - hoursAgo;
    var business := IsBusinessHour(t);
    var baseCpu: real := if business then 60.0 else 30.0;
    var baseMemory: real := if business then 70.0 else 40.0;
    var baseResponse: real := if business then 200.0 else 100.0;
    var response := Trunc(baseResponse + n.response);
    Metric(t, Clamp(10.0, 95.0, baseCpu + n.cpu), Clamp(20.0, 90.0, baseMemory + n.memory),
           if response > 50 then response else 50)
  }

  // ---------------------------------------------------------------------
  // Extraction outcomes and the run summary

  function MissingFile(name: string): string
  {
    "[Errno 2] No such file or directory: '" + name + "'"
  }

  /** The text of the exception a failed read raised. */
  function ReadFailure<R>(r: ReadOutcome<R>, name: string): string
  {
    match r
    case Table(_) => ""
    case DecodeError(m) => m
    case NotFound => MissingFile(name)
    case Failed(m) => m
  }

  /** `extract_network_inventory`'s error: all decode failures end in its own `FileNotFoundError`. */
  function InventoryFailure(r: ReadOutcome<InventoryRow>): string
  {
    "Network inventory extraction: "
      + if r.DecodeError? then "Could not read network_inventory.csv with any encoding"
        else ReadFailure(r, "network_inventory.csv")
  }

  datatype PipelineStatus = Success | CompletedWithWarnings

  /** `self.processed_records`. */
  datatype Processed = Processed(devices: nat, securityEvents: nat, userActivities: nat, systemMetrics: nat, products: nat)

  function Total(p: Processed): nat
  {
    p.devices + p.securityEvents + p.userActivities + p.systemMetrics + p.products
  }

  datatype Summary = Summary(
    status: PipelineStatus,
    records: Processed,
    totalRecords: nat,
    errorsCount: nat,
    errors: seq<string>)

  /** The summary `run_pipeline` returns, apart from its timing fields. */
  function Summarize(p: Processed, errors: seq<string>): (s: Summary)
    ensures s.status == Success <==> errors == []
    ensures s.totalRecords == Total(p) && s.errorsCount == |errors|
    ensures |s.errors| == Min(5, |errors|) && s.errors <= errors
  {
    Summary(if errors == [] then Success else CompletedWithWarnings, p, Total(p), |errors|,
            errors[..Min(5, |errors|)])
  }

  /** Everything a run reads from the outside world. */
  datatype RunInputs = RunInputs(
    inventory: seq<ReadOutcome<InventoryRow>>,
    eventFiles: seq<seq<ReadOutcome<EventRow>>>,
    marketing: ReadOutcome<()>,
    addressDraws: seq<nat>,
    now: int,
    noise: seq<Noise>)

  predicate WellFormedInputs(in_: RunInputs)
  {
    && |in_.inventory| == 3
    && |in_.eventFiles| == 2 && |in_.eventFiles[0]| == 3 && |in_.eventFiles[1]| == 3
    && |in_.addressDraws| >= 100 && ValidDraws(in_.addressDraws, 1, 253)
    && |in_.noise| == 24
  }

  datatype RunOutcome = Finished(summary: Summary) | Crashed(message: string)

  class FinMarkEtlPipeline {
    var processed: Processed
    var errors: seq<string>

    constructor ()
      ensures processed == Processed(0, 0, 0, 0, 0) && errors == []
    {
      processed := Processed(0, 0, 0, 0, 0);
      errors := [];
    }

    /** `extract_network_inventory`: utf-8, latin-1, cp1252 in turn; any failure is recorded. */
    method ExtractNetworkInventory(attempts: seq<ReadOutcome<InventoryRow>>) returns (rows: seq<InventoryRow>)
      requires |attempts| == 3
      modifies this`errors
      ensures FirstDecoded(attempts).Table? ==> rows == FirstDecoded(attempts).rows && errors == old(errors)
      ensures !FirstDecoded(attempts).Table? ==> rows == [] && errors == old(errors) + [InventoryFailure(FirstDecoded(attempts))]
    {
      var r := TryEncodings(attempts);
      if r.Table? {
        rows := r.rows;
      } else {
        errors := errors + [InventoryFailure(r)];
        rows := [];
      }
    }

    /** `extract_event_logs`. */
    method ExtractEventLogs(files: seq<seq<ReadOutcome<EventRow>>>) returns (r: Extracted<EventRow>)
      requires forall f | 0 <= f < |files| :: |files[f]| >= 1
      modifies this`errors
      ensures EventLogSearch(files) == None ==> r == Rows([]) && errors == old(errors) + ["Event logs extraction: No valid file found"]
      ensures EventLogSearch(files) != None ==> r == EventLogSearch(files).value && errors == old(errors)
    {
      var f := 0;
      while f < |files|
        invariant 0 <= f <= |files|
        invariant EventLogSearch(files) == EventLogSearch(files[f..])
        invariant errors == old(errors)
      {
        var outcome := TryEncodings(files[f]);
        assert files[f..][0] == files[f] && files[f..][1..] == files[f + 1..];
        match outcome
        case Table(rows) =>
          return Rows(rows);
        case Failed(m) =>
          return Raised(m);
        case _ =>
          f := f + 1;
      }
      errors := errors + ["Event logs extraction: No valid file found"];
      r := Rows([]);
    }

    /** `extract_marketing_data`: the table is read and never used; a failure is recorded. */
    method ExtractMarketingData(outcome: ReadOutcome<()>)
      modifies this`errors
      ensures outcome.Table? ==> errors == old(errors)
      ensures !outcome.Table? ==> errors == old(errors) + [
        "Marketing data extraction: " + ReadFailure(outcome, "marketing_summary.csv")]
    {
      if !outcome.Table? {
        errors := errors + ["Marketing data extraction: " + ReadFailure(outcome, "marketing_summary.csv")];
      }
    }

    /** `clean_network_inventory`: invalid rows are skipped without touching `errors`. */
    method CleanNetworkInventory(rows: seq<InventoryRow>) returns (devices: seq<Device>)
      ensures devices == CleanInventory(rows)
    {
      if rows == [] {
        return [];
      }
      devices := [];
      var i := 0;
      while i < |rows|
        invariant 0 <= i <= |rows|
        invariant devices == CleanInventory(rows[..i])
      {
        CleanInventoryStep(rows, i);
        var cleaned := CleanDevice(rows[i]);
        if cleaned.Some? {
          devices := devices + [cleaned.value];
        }
        i := i + 1;
      }
      assert rows[..i] == rows;
    }

    /** `clean_event_logs`: the first `min(100, len(df))` rows, one draw each. */
    method CleanEventLogs(rows: seq<EventRow>, draws: seq<nat>) returns (events: seq<EventDraft>)
      requires |draws| >= Min(100, |rows|) && ValidDraws(draws, 1, 253)
      ensures |events| == Min(100, |rows|)
      ensures events == MapPairs(CleanEvent, rows[..Min(100, |rows|)], draws[..Min(100, |rows|)])
    {
      if rows == [] {
        return [];
      }
      var sampleSize := Min(100, |rows|);
      events := [];
      var i := 0;
      while i < sampleSize
        invariant 0 <= i <= sampleSize
        invariant events == MapPairs(CleanEvent, rows[..i], draws[..i])
      {
        assert rows[..i + 1] == rows[..i] + [rows[i]];
        assert draws[..i + 1] == draws[..i] + [draws[i]];
        MapPairsStep(CleanEvent, rows[..i], draws[..i], rows[i], draws[i]);
        events := events + [CleanEvent(rows[i], draws[i])];
        i := i + 1;
      }
    }

    /** `generate_system_metrics`: 24 hourly records; the devices are not consulted. */
    method GenerateSystemMetrics(devices: seq<Device>, now: int, noise: seq<Noise>) returns (metrics: seq<Metric>)
      requires |noise| == 24
      ensures |metrics| == 24
      ensures forall h | 0 <= h < 24 :: metrics[h] == HourMetric(now, h, noise[h])
    {
      metrics := [];
      var hoursAgo := 0;
      while hoursAgo < 24
        invariant 0 <= hoursAgo <= 24
        invariant |metrics| == hoursAgo
        invariant forall h | 0 <= h < hoursAgo :: metrics[h] == HourMetric(now, h, noise[h])
      {
        metrics := metrics + [HourMetric(now, hoursAgo, noise[hoursAgo])];
        hoursAgo := hoursAgo + 1;
      }
    }

    /** One iteration of `load_devices`: a lookup that raises logs its message. */
    method LoadDevice(db: Database, d: Device) returns (lookup: Lookup)
      modifies db`devices, this`errors
      ensures (lookup, db.devices) == GetOrCreate(old(db.devices), d)
      ensures errors == old(errors) + (if lookup.MultipleFound? then [DeviceError(lookup.count)] else [])
    {
      lookup := db.GetOrCreateDevice(d);
      if lookup.MultipleFound? {
        errors := errors + [DeviceError(lookup.count)];
      }
    }

    /**
      `load_devices`: get-or-create each device by hostname; a lookup that
      raises is recorded and the loop goes on.
    */
    method LoadDevices(db: Database, devices: seq<Device>) returns (loaded: nat)
      modifies db`devices, this`errors
      ensures db.devices == LoadAll(old(db.devices), devices).devices
      ensures loaded == LoadAll(old(db.devices), devices).created
      ensures errors == old(errors) + DeviceErrors(LoadAll(old(db.devices), devices).failures)
    {
      loaded := 0;
      ghost var start := db.devices;
      ghost var state := LoadAll(start, []);
      var i := 0;
      while i < |devices|
        invariant 0 <= i <= |devices|
        invariant state == LoadAll(start, devices[..i])
        invariant db.devices == state.devices && loaded == state.created
        invariant errors == old(errors) + DeviceErrors(state.failures)
      {
        LoadAllPrefixStep(start, devices, i);
        var lookup := LoadDevice(db, devices[i]);
        LoadStepOutcome(state, devices[i], lookup, db.devices);
        if lookup.Created? {
          loaded := loaded + 1;
        } else if lookup.MultipleFound? {
          DeviceErrorsAppend(state.failures, lookup.count);
          AppendAssoc(old(errors), DeviceErrors(state.failures), [DeviceError(lookup.count)]);
        }
        state := LoadStep(state, devices[i]);
        i := i + 1;
      }
      assert devices[..i] == devices;
    }

    /** `load_security_events`: every event is created, stamped with the save time. */
    method LoadSecurityEvents(db: Database, events: seq<EventDraft>, now: int) returns (loaded: nat)
      modifies db`events
      ensures db.events == old(db.events) + SavedAll(events, now)
      ensures loaded == |events|
    {
      loaded := 0;
      var i := 0;
      while i < |events|
        invariant 0 <= i <= |events|
        invariant db.events == old(db.events) + SavedAll(events[..i], now)
        invariant loaded == i
      {
        assert events[..i + 1][..i] == events[..i];
        db.CreateEvent(events[i], now);
        loaded := loaded + 1;
        i := i + 1;
      }
      assert events[..i] == events;
    }

    /** `load_system_metrics`. */
    method LoadSystemMetrics(db: Database, metrics: seq<Metric>) returns (loaded: nat)
      modifies db`metrics
      ensures db.metrics == old(db.metrics) + metrics
      ensures loaded == |metrics|
    {
      loaded := 0;
      var i := 0;
      while i < |metrics|
        invariant 0 <= i <= |metrics|
        invariant db.metrics == old(db.metrics) + metrics[..i]
        invariant loaded == i
      {
        assert metrics[..i + 1] == metrics[..i] + [metrics[i]];
        db.CreateMetric(metrics[i]);
        loaded := loaded + 1;
        i := i + 1;
      }
      assert metrics[..i] == metrics;
    }

    /**
      Phase 1 of `run_pipeline`: the three extractions. An exception from the
      event logs escapes before the marketing data is read.
    */
    method ExtractPhase(in_: RunInputs) returns (rawDevices: seq<InventoryRow>, rawEvents: Extracted<EventRow>)
      requires WellFormedInputs(in_)
      modifies this`errors
      ensures rawDevices == InventoryRowsOf(in_)
      ensures rawEvents.Raised? <==> EventLogSearch(in_.eventFiles).Some? && EventLogSearch(in_.eventFiles).value.Raised?
      ensures rawEvents.Rows? ==> rawEvents.rows == EventRowsOf(in_)
      ensures rawEvents.Rows? ==> errors == old(errors) + ExtractErrors(in_)
      ensures rawEvents.Raised? ==> errors == old(errors) + InventoryErrors(in_)
    {
      rawDevices := ExtractNetworkInventory(in_.inventory);
      rawEvents := ExtractEventLogs(in_.eventFiles);
      if rawEvents.Raised? {
        return;
      }
      ExtractMarketingData(in_.marketing);
    }

    /** Phase 2 of `run_pipeline`: clean both tables and synthesise the metrics. */
    method TransformPhase(rawDevices: seq<InventoryRow>, rawEvents: seq<EventRow>, draws: seq<nat>, now: int, noise: seq<Noise>)
      returns (devices: seq<Device>, events: seq<EventDraft>, metrics: seq<Metric>)
      requires |draws| >= 100 && ValidDraws(draws, 1, 253) && |noise| == 24
      ensures devices == CleanInventory(rawDevices)
      ensures |events| == Min(100, |rawEvents|)
      ensures events == MapPairs(CleanEvent, rawEvents[..Min(100, |rawEvents|)], draws[..Min(100, |rawEvents|)])
      ensures |metrics| == 24 && forall h | 0 <= h < 24 :: metrics[h] == HourMetric(now, h, noise[h])
    {
      devices := CleanNetworkInventory(rawDevices);
      events := CleanEventLogs(rawEvents, draws);
      metrics := GenerateSystemMetrics(devices, now, noise);
    }

    /** Phase 3 of `run_pipeline`: load devices, events and metrics, recording the counts. */
    method LoadPhase(db: Database, devices: seq<Device>, events: seq<EventDraft>, metrics: seq<Metric>, now: int)
      modifies db`devices, db`events, db`metrics, this
      ensures db.devices == LoadAll(old(db.devices), devices).devices
      ensures db.events == old(db.events) + SavedAll(events, now)
      ensures db.metrics == old(db.metrics) + metrics
      ensures processed == old(processed).(devices := LoadAll(old(db.devices), devices).created,
                                           securityEvents := |events|, systemMetrics := |metrics|)
      ensures errors == old(errors) + DeviceErrors(LoadAll(old(db.devices), devices).failures)
    {
      var nDevices := LoadDevices(db, devices);
      processed := processed.(devices := nDevices);
      var nEvents := LoadSecurityEvents(db, events, now);
      processed := processed.(securityEvents := nEvents);
      var nMetrics := LoadSystemMetrics(db, metrics);
      processed := processed.(systemMetrics := nMetrics);
    }

    /**
      `run_pipeline`: clear events, metrics and activities (never devices),
      extract, transform, load, and summarise. An exception from reading the
      event logs other than a missing file or a decode failure escapes the run.
    */
    method RunPipeline(db: Database, in_: RunInputs) returns (outcome: RunOutcome)
      requires WellFormedInputs(in_)
      modifies this, db
      ensures db.activities == []
      ensures outcome.Crashed? <==> EventLogSearch(in_.eventFiles).Some? && EventLogSearch(in_.eventFiles).value.Raised?
      ensures outcome.Crashed? ==> db.devices == old(db.devices) && db.events == [] && db.metrics == []
      ensures outcome.Finished? ==>
        && LoadedTables(in_, old(db.devices), db.devices, db.events, db.metrics)
        && Reported(in_, old(db.devices), old(processed), old(errors), processed, errors, outcome.summary)
    {
      var rawDevices, rawEvents := ClearAndExtract(db, in_);
      if rawEvents.Raised? {
        return Crashed(rawEvents.message);
      }
      var summary := TransformAndLoad(db, in_, rawDevices, rawEvents.rows, old(errors));
      outcome := Finished(summary);
    }

    /** The opening of `run_pipeline`: clear three tables, then phase 1. */
    method ClearAndExtract(db: Database, in_: RunInputs) returns (rawDevices: seq<InventoryRow>, rawEvents: Extracted<EventRow>)
      requires WellFormedInputs(in_)
      modifies db`events, db`metrics, db`activities, this`errors
      ensures db.events == [] && db.metrics == [] && db.activities == []
      ensures rawDevices == InventoryRowsOf(in_)
      ensures rawEvents.Raised? <==> EventLogSearch(in_.eventFiles).Some? && EventLogSearch(in_.eventFiles).value.Raised?
      ensures rawEvents.Rows? ==> rawEvents.rows == EventRowsOf(in_) && errors == old(errors) + ExtractErrors(in_)
    {
      db.DeleteEvents();
      db.DeleteMetrics();
      db.DeleteActivities();
      rawDevices, rawEvents := ExtractPhase(in_);
    }

    /**
      Phases 2 and 3 of `run_pipeline` and its summary, once the event and
      metric tables have been emptied and the extractions have not raised.
    */
    method TransformAndLoad(db: Database, in_: RunInputs, rawDevices: seq<InventoryRow>, rawEvents: seq<EventRow>,
                            ghost before: seq<string>)
      returns (summary: Summary)
      requires WellFormedInputs(in_)
      requires rawDevices == InventoryRowsOf(in_) && rawEvents == EventRowsOf(in_)
      requires db.events == [] && db.metrics == []
      requires errors == before + ExtractErrors(in_)
      modifies db`devices, db`events, db`metrics, this
      ensures LoadedTables(in_, old(db.devices), db.devices, db.events, db.metrics)
      ensures Reported(in_, old(db.devices), old(processed), before, processed, errors, summary)
    {
      var cleanedDevices, cleanedEvents, systemMetrics :=
        TransformPhase(rawDevices, rawEvents, in_.addressDraws, in_.now, in_.noise);
      LoadPhase(db, cleanedDevices, cleanedEvents, systemMetrics, in_.now);
      assert [] + SavedAll(cleanedEvents, in_.now) == SavedAll(cleanedEvents, in_.now);
      assert [] + systemMetrics == systemMetrics;
      summary := Summarize(processed, errors);
    }
  }

  /** The inventory rows a run sees (none when the file could not be read). */
  function InventoryRowsOf(in_: RunInputs): seq<InventoryRow>
    requires |in_.inventory| == 3
  {
    var r := FirstDecoded(in_.inventory);
    if r.Table? then r.rows else []
  }

  /** The event rows a run sees. */
  function EventRowsOf(in_: RunInputs): seq<EventRow>
    requires |in_.eventFiles| == 2 && |in_.eventFiles[0]| == 3 && |in_.eventFiles[1]| == 3
  {
    var r := EventLogSearch(in_.eventFiles);
    if r.Some? && r.value.Rows? then r.value.rows else []
  }

  /** The events a run cleans: the first `min(100, n)` rows, each with its address draw. */
  function CleanedEventsOf(in_: RunInputs): (es: seq<EventDraft>)
    requires WellFormedInputs(in_)
    ensures |es| == Min(100, |EventRowsOf(in_)|)
  {
    var rows := EventRowsOf(in_);
    var n := Min(100, |rows|);
    MapPairs(CleanEvent, rows[..n], in_.addressDraws[..n])
  }

  /** What `extract_network_inventory` appends to `errors`. */
  function InventoryErrors(in_: RunInputs): (e: seq<string>)
    requires |in_.inventory| == 3
    ensures e == [] <==> FirstDecoded(in_.inventory).Table?
  {
    var r := FirstDecoded(in_.inventory);
    if r.Table? then [] else [InventoryFailure(r)]
  }

  /** The inventory and marketing files were read and an event log was found. */
  predicate ExtractionsSucceed(in_: RunInputs)
    requires |in_.inventory| == 3
    requires |in_.eventFiles| == 2 && |in_.eventFiles[0]| == 3 && |in_.eventFiles[1]| == 3
  {
    FirstDecoded(in_.inventory).Table? && EventLogSearch(in_.eventFiles).Some? && in_.marketing.Table?
  }

  /**
    What the three extractions append to `errors`, in order, on a run whose
    event logs did not raise.
  */
  function ExtractErrors(in_: RunInputs): (e: seq<string>)
    requires |in_.inventory| == 3
    requires |in_.eventFiles| == 2 && |in_.eventFiles[0]| == 3 && |in_.eventFiles[1]| == 3
    ensures e == [] <==> ExtractionsSucceed(in_)
    ensures InventoryErrors(in_) <= e && |e| <= 3
  {
    InventoryErrors(in_)
      + (if EventLogSearch(in_.eventFiles) == None then ["Event logs extraction: No valid file found"] else [])
      + (if in_.marketing.Table? then [] else ["Marketing data extraction: " + ReadFailure(in_.marketing, "marketing_summary.csv")])
  }

  /**
    The tables after phases 2 and 3 of a run that did not crash, from the
    device table `start`: the get-or-create load of the cleaned inventory,
    the cleaned events stamped with the save time, and the 24 hourly metrics.
  */
  ghost predicate LoadedTables(in_: RunInputs, start: seq<Device>, devices: seq<Device>, events: seq<SecurityEvent>, metrics: seq<Metric>)
    requires WellFormedInputs(in_)
  {
    && devices == LoadAll(start, CleanInventory(InventoryRowsOf(in_))).devices
    && events == SavedAll(CleanedEventsOf(in_), in_.now)
    && |events| == Min(100, |EventRowsOf(in_)|)
    && |metrics| == 24
    && (forall h | 0 <= h < 24 :: metrics[h] == HourMetric(in_.now, h, in_.noise[h]))
  }

  /**
    The counters, errors and summary of such a run, from the counters `p0`
    and the errors `e0` it started with: the three load counts; the earlier
    errors, then the extraction failures, then one per failing device
    lookup; and a summary that says SUCCESS exactly when none of these
    three parts has an entry.
  */
  ghost predicate Reported(in_: RunInputs, start: seq<Device>, p0: Processed, e0: seq<string>,
                           p: Processed, errors: seq<string>, summary: Summary)
    requires WellFormedInputs(in_)
  {
    var loaded := LoadAll(start, CleanInventory(InventoryRowsOf(in_)));
    && p == p0.(devices := loaded.created, securityEvents := Min(100, |EventRowsOf(in_)|), systemMetrics := 24)
    && errors == e0 + ExtractErrors(in_) + DeviceErrors(loaded.failures)
    && summary == Summarize(p, errors)
    && (summary.status == Success <==> e0 == [] && ExtractionsSucceed(in_) && loaded.failures == [])
  }

  /** The message logged for a device whose lookup matched `n` rows. */
  function DeviceError(n: nat): string
  {
    "Device loading error: " + MultipleMessage(n)
  }

  /** One logged message per failing device, in loading order. */
  function DeviceErrors(failures: seq<nat>): (e: seq<string>)
    ensures |e| == |failures|
  {
    if failures == [] then []
    else DeviceErrors(failures[..|failures| - 1]) + [DeviceError(failures[|failures| - 1])]
  }

  lemma DeviceErrorsAppend(failures: seq<nat>, n: nat)
    ensures DeviceErrors(failures + [n]) == DeviceErrors(failures) + [DeviceError(n)]
  {
    assert (failures + [n])[..|failures|] == failures;
  }
}
