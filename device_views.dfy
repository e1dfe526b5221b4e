/**
  `DeviceViewSet` of apps/security/views.py: the simulated last-seen text of
  `network_status` and the tiering, priority, order and summary of
  `vulnerability_report`.
*/
module DeviceViews {
  import opened Text
  import opened Domain
  import opened Rules
  import opened Lists
  import opened Sorting

  // ---------------------------------------------------------------------
  // network_status: last seen

  /** The `last_seen` text: minutes below an hour, whole hours (rounded down) from an hour on. */
  function LastSeen(minutes: nat): string
  {
    if minutes < 60 then NatToString(minutes) + " min ago"
    else NatToString(minutes / 60) + " hours ago"
  }

  /** The digits at the front of a text. */
  function LeadingDigits(s: string): (p: string)
    ensures p <= s && IsDigits(p)
  {
    if s == [] || !IsDigit(s[0]) then [] else [s[0]] + LeadingDigits(s[1..])
  }

  lemma {:induction false} LeadingDigitsOf(digits: string, rest: string)
    requires IsDigits(digits) && rest != [] && !IsDigit(rest[0])
    ensures LeadingDigits(digits + rest) == digits
    decreases |digits|
  {
    if digits == [] {
      assert digits + rest == rest;
    } else {
      assert (digits + rest)[1..] == digits[1..] + rest;
      LeadingDigitsOf(digits[1..], rest);
    }
  }

  /** How a reader takes a last-seen text apart: the number in front and the words after it. */
  function ReadLastSeen(s: string): (nat, string)
  {
    var p := LeadingDigits(s);
    (DigitsValue(p), s[|p|..])
  }

  /** Reading the text back gives the minutes below an hour, and the whole hours otherwise. */
  lemma LastSeenReadsBack(minutes: nat)
    ensures ReadLastSeen(LastSeen(minutes)) ==
      if minutes < 60 then (minutes, " min ago") else (minutes / 60, " hours ago")
  {
    var n := if minutes < 60 then minutes else minutes / 60;
    var unit := if minutes < 60 then " min ago" else " hours ago";
    LeadingDigitsOf(NatToString(n), unit);
    assert (NatToString(n) + unit)[|NatToString(n)|..] == unit;
  }

  /**
    The minutes shown for one device: the first draw, replaced by the second
    for a critical device.
  */
  function LastSeenMinutes(status: DeviceStatus, first: nat, second: nat): nat
  {
    if status == DeviceStatus.Critical then second else first
  }

  /**
    With the draws in their ranges (1..60, and 60..1440 for critical
    devices), a critical device always reads as 1 to 24 hours; any other
    reads as 1 to 59 minutes, or as "1 hours ago" on a draw of exactly 60.
  */
  lemma LastSeenRanges(status: DeviceStatus, first: nat, second: nat)
    requires 1 <= first <= 60 && 60 <= second <= 1440
    ensures var (n, unit) := ReadLastSeen(LastSeen(LastSeenMinutes(status, first, second)));
      && (status == DeviceStatus.Critical ==> unit == " hours ago" && 1 <= n <= 24)
      && (status != DeviceStatus.Critical ==>
            (unit == " min ago" && 1 <= n <= 59) || (unit == " hours ago" && n == 1 && first == 60))
  {
    LastSeenReadsBack(LastSeenMinutes(status, first, second));
  }

  /** One entry of `network_status`'s device list. */
  datatype NetworkRow = NetworkRow(
    hostname: string,
    ipAddress: string,
    deviceType: DeviceType,
    status: DeviceStatus,
    os: string,
    vulnerabilities: Option<string>,
    lastSeen: string)

  /** `device.notes if device.notes else None`. */
  function NotesOrNone(notes: string): Option<string>
  {
    if notes == "" then None else Some(notes)
  }

  /** The entries of `network_status`, one per listed device, with the two draws of each. */
  method NetworkStatusRows(devices: seq<Device>, firstDraws: seq<nat>, secondDraws: seq<nat>)
    returns (rows: seq<NetworkRow>)
    requires |firstDraws| == |devices| && |secondDraws| == |devices|
    ensures |rows| == |devices|
    ensures forall k | 0 <= k < |devices| ::
      var d := devices[k];
      rows[k] == NetworkRow(d.hostname, d.ipAddress, d.deviceType, d.status, d.os, NotesOrNone(d.notes),
                            LastSeen(LastSeenMinutes(d.status, firstDraws[k], secondDraws[k])))
    ensures forall k | 0 <= k < |devices| :: rows[k].vulnerabilities.Some? <==> devices[k].notes != ""
  {
    rows := [];
    var i := 0;
    while i < |devices|
      invariant 0 <= i <= |devices| && |rows| == i
      invariant forall k | 0 <= k < i ::
        var d := devices[k];
        rows[k] == NetworkRow(d.hostname, d.ipAddress, d.deviceType, d.status, d.os, NotesOrNone(d.notes),
                              LastSeen(LastSeenMinutes(d.status, firstDraws[k], secondDraws[k])))
    {
      var d := devices[i];
      var minutes := firstDraws[i];
      if d.status == DeviceStatus.Critical {
        minutes := secondDraws[i];
      }
      var lastSeen := if minutes < 60 then NatToString(minutes) + " min ago" else NatToString(minutes / 60) + " hours ago";
      rows := rows + [NetworkRow(d.hostname, d.ipAddress, d.deviceType, d.status, d.os, NotesOrNone(d.notes), lastSeen)];
      i := i + 1;
    }
  }

  // ---------------------------------------------------------------------
  // vulnerability_report

  /** The `severity` given to a vulnerability. */
  datatype RiskLevel = Critical | High | Medium | Low

  /** `(vuln_severity, risk_score)`. */
  datatype Tier = Tier(level: RiskLevel, score: int)

  /** The tier of a device, on its lowercased notes. */
  function VulnTier(notes: string): Tier
  {
    var notesLower := Lower(notes);
    if Contains(notesLower, "critical") || Contains(notesLower, "no firewall") || Contains(notesLower, "no antivirus")
    then Tier(RiskLevel.Critical, 9)
    else if Contains(notesLower, "outdated") || Contains(notesLower, "ssl") || Contains(notesLower, "tls")
         || Contains(notesLower, "password")
    then Tier(RiskLevel.High, 7)
    else if Contains(notesLower, "update") || Contains(notesLower, "patch") || Contains(notesLower, "config")
    then Tier(RiskLevel.Medium, 5)
    else Tier(RiskLevel.Low, 3)
  }

  const TierRules: seq<Rule<Tier>> := [
    Rule(["critical", "no firewall", "no antivirus"], Tier(RiskLevel.Critical, 9)),
    Rule(["outdated", "ssl", "tls", "password"], Tier(RiskLevel.High, 7)),
    Rule(["update", "patch", "config"], Tier(RiskLevel.Medium, 5))
  ]

  /** The score that goes with each level; higher levels score strictly more. */
  function LevelScore(level: RiskLevel): int
  {
    match level
    case Critical => 9
    case High => 7
    case Medium => 5
    case Low => 3
  }

  /**
    The tier is the first match of the three keyword groups, `low` when none
    occurs, and its score is always the one that goes with its level.
  */
  lemma VulnTierTable(notes: string)
    ensures VulnTier(notes) == FirstMatch(TierRules, Lower(notes), Tier(RiskLevel.Low, 3))
    ensures VulnTier(notes).score == LevelScore(VulnTier(notes).level)
  {
    var t := Lower(notes);
    FirstMatchThree(TierRules[0], TierRules[1], TierRules[2], t, Tier(RiskLevel.Low, 3));
    AnyOfThree(t, "critical", "no firewall", "no antivirus");
    AnyOfFour(t, "outdated", "ssl", "tls", "password");
    AnyOfThree(t, "update", "patch", "config");
  }

  /** Scores order the levels: a higher score means a more severe level. */
  lemma LevelScoreOrder(a: RiskLevel, b: RiskLevel)
    ensures LevelScore(a) == LevelScore(b) <==> a == b
    ensures LevelScore(a) > LevelScore(b) <==> Rank(a) > Rank(b)
  {
  }

  /** The severity rank of a level, 3 for critical down to 0 for low. */
  function Rank(level: RiskLevel): nat
  {
    match level
    case Critical => 3
    case High => 2
    case Medium => 1
    case Low => 0
  }

  /** `remediation_priority`. */
  datatype Priority = High | Medium | Low

  function RemediationPriority(score: int): Priority
  {
    if score >= 7 then Priority.High else if score >= 5 then Priority.Medium else Priority.Low
  }

  /**
    High exactly from 7, medium exactly from 5 below 7, low below 5; so each
    tier has one priority: critical and high tiers are high, medium medium,
    low low.
  */
  lemma RemediationPriorityFacts(score: int, level: RiskLevel)
    ensures RemediationPriority(score) == Priority.High <==> score >= 7
    ensures RemediationPriority(score) == Priority.Medium <==> 5 <= score < 7
    ensures RemediationPriority(score) == Priority.Low <==> score < 5
    ensures RemediationPriority(LevelScore(level)) ==
      match level
      case Critical => Priority.High
      case High => Priority.High
      case Medium => Priority.Medium
      case Low => Priority.Low
  {
  }

  /** One entry of the report. */
  datatype Vulnerability = Vulnerability(
    device: string,
    ip: string,
    deviceType: DeviceType,
    status: DeviceStatus,
    vulnerability: string,
    severity: RiskLevel,
    riskScore: int,
    priority: Priority)

  /** The entry for a device; devices with empty notes are excluded. */
  function VulnerabilityOf(d: Device): Option<Vulnerability>
  {
    if d.notes == "" then None
    else
      var tier := VulnTier(d.notes);
      Some(Vulnerability(d.hostname, d.ipAddress, d.deviceType, d.status, d.notes, tier.level, tier.score,
                         RemediationPriority(tier.score)))
  }

  /**
    A device is reported exactly when it has notes; its entry carries them,
    the tier of the notes and the priority of the tier's score.
  */
  lemma VulnerabilityOfFacts(d: Device)
    ensures VulnerabilityOf(d).None? <==> d.notes == ""
    ensures VulnerabilityOf(d).Some? ==>
      var v := VulnerabilityOf(d).value;
      && v.device == d.hostname && v.vulnerability == d.notes
      && Tier(v.severity, v.riskScore) == FirstMatch(TierRules, Lower(d.notes), Tier(RiskLevel.Low, 3))
      && v.riskScore == LevelScore(v.severity)
      && v.priority == RemediationPriority(v.riskScore)
  {
    VulnTierTable(d.notes);
  }

  function RiskScore(v: Vulnerability): int
  {
    v.riskScore
  }

  /** `len([v for v in vulnerabilities if v['severity'] == level])`. */
  function CountLevel(vs: seq<Vulnerability>, level: RiskLevel): (n: nat)
    ensures n <= |vs|
  {
    if vs == [] then 0 else CountLevel(vs[..|vs| - 1], level) + (if vs[|vs| - 1].severity == level then 1 else 0)
  }

  /** The four level counts add up to the total. */
  lemma {:induction false} CountLevelsTotal(vs: seq<Vulnerability>)
    ensures CountLevel(vs, RiskLevel.Critical) + CountLevel(vs, RiskLevel.High)
          + CountLevel(vs, RiskLevel.Medium) + CountLevel(vs, RiskLevel.Low) == |vs|
    decreases |vs|
  {
    if vs != [] {
      CountLevelsTotal(vs[..|vs| - 1]);
    }
  }

  /** The report's `summary`. */
  datatype Summary = Summary(total: nat, critical: nat, high: nat, medium: nat, low: nat)

  /** The loop over the devices: one entry per device with notes, in table order. */
  method CollectVulnerabilities(devices: seq<Device>) returns (collected: seq<Vulnerability>)
    ensures collected == FilterMap(VulnerabilityOf, devices)
  {
    collected := [];
    var i := 0;
    while i < |devices|
      invariant 0 <= i <= |devices|
      invariant collected == FilterMap(VulnerabilityOf, devices[..i])
    {
      VulnerabilitiesStep(devices, i);
      var v := VulnerabilityOf(devices[i]);
      if v.Some? {
        collected := collected + [v.value];
      }
      i := i + 1;
    }
    assert devices[..i] == devices;
  }

  /** One more device adds its entry, if it has notes. */
  lemma VulnerabilitiesStep(devices: seq<Device>, i: nat)
    requires i < |devices|
    ensures FilterMap(VulnerabilityOf, devices[..i + 1]) == FilterMap(VulnerabilityOf, devices[..i]) + Kept(VulnerabilityOf(devices[i]))
  {
    assert devices[..i + 1] == devices[..i] + [devices[i]];
    FilterMapStep(VulnerabilityOf, devices[..i], devices[i]);
  }

  /**
    `vulnerability_report`: one entry per device with notes, sorted by risk
    score from highest to lowest (entries with equal scores keep the order of
    the devices), and the level counts.
  */
  method VulnerabilityReport(devices: seq<Device>) returns (vulns: seq<Vulnerability>, summary: Summary)
    ensures multiset(vulns) == multiset(FilterMap(VulnerabilityOf, devices))
    ensures SortedDesc(vulns, RiskScore)
    ensures forall k :: WithKey(vulns, RiskScore, k) == WithKey(FilterMap(VulnerabilityOf, devices), RiskScore, k)
    ensures summary.total == |vulns| == summary.critical + summary.high + summary.medium + summary.low
    ensures summary.critical == CountLevel(vulns, RiskLevel.Critical) && summary.high == CountLevel(vulns, RiskLevel.High)
    ensures summary.medium == CountLevel(vulns, RiskLevel.Medium) && summary.low == CountLevel(vulns, RiskLevel.Low)
  {
    var collected := CollectVulnerabilities(devices);
    vulns := SortDesc(collected, RiskScore);
    SortDescFacts(collected, RiskScore);
    SortDescLength(collected, RiskScore);
    CountLevelsTotal(vulns);
    summary := Summary(|vulns|, CountLevel(vulns, RiskLevel.Critical), CountLevel(vulns, RiskLevel.High),
                       CountLevel(vulns, RiskLevel.Medium), CountLevel(vulns, RiskLevel.Low));
  }

  /** Every reported entry has notes, and each device with notes is reported. */
  lemma ReportCoversNotedDevices(devices: seq<Device>)
    ensures forall v | v in FilterMap(VulnerabilityOf, devices) :: v.vulnerability != ""
    ensures forall d | d in devices && d.notes != "" :: VulnerabilityOf(d).value in FilterMap(VulnerabilityOf, devices)
  {
    ReportEntriesHaveNotes(devices);
    NotedDevicesReported(devices);
  }

  lemma ReportEntriesHaveNotes(devices: seq<Device>)
    ensures forall v | v in FilterMap(VulnerabilityOf, devices) :: v.vulnerability != ""
  {
    FilterMapIsFilter(VulnerabilityOf, devices);
    var ys, idx := FilterMap(VulnerabilityOf, devices), KeptIndices(VulnerabilityOf, devices);
    forall v | v in ys ensures v.vulnerability != "" {
      var k :| 0 <= k < |ys| && ys[k] == v;
      assert VulnerabilityOf(devices[idx[k]]) == Some(v);
    }
  }

  lemma NotedDevicesReported(devices: seq<Device>)
    ensures forall d | d in devices && d.notes != "" :: VulnerabilityOf(d).value in FilterMap(VulnerabilityOf, devices)
  {
    forall d | d in devices && d.notes != "" ensures VulnerabilityOf(d).value in FilterMap(VulnerabilityOf, devices) {
      FilterMapKeeps(VulnerabilityOf, devices, d);
    }
  }
}
