/** The sample-data generator (`src/data/sampleDataGenerator.ts`): batches
    of random alerts and activities, built in a loop and sorted in place.

    Every `Math.floor(Math.random() * n)` becomes a drawn index below `n`,
    every `Math.random() < p` a drawn boolean; one `AlertDraw` or
    `ActivityDraw` holds the draws of one loop iteration together with the
    `Date.now()` reading that goes into its id. The day (`today`) and the
    instant (`clock`) that `new Date()` yields are parameters. */
module SampleData {
  import opened Seqs
  import opened Text
  import opened ComplianceData
  import opened Sorting

  /** Milliseconds in a day. */
  const DayMs: int := 86400000

  // ---------------------------------------------------------------------
  // Alert content

  /** The alert templates of each severity: title and description. */
  const CriticalTemplates: seq<(string, string)> := [
    ("Critical Non-Conformance", "Major deviation from quality system requirements detected"),
    ("Safety Issue Reported", "Serious adverse event requires immediate investigation"),
    ("Regulatory Deadline Missed", "Critical regulatory submission deadline has passed")]
  const HighTemplates: seq<(string, string)> := [
    ("Design Control Review Overdue", "Design history file review for critical project is overdue"),
    ("Supplier Audit Required", "Critical supplier requires immediate audit due to quality issues"),
    ("CAPA Implementation Delayed", "High-priority corrective action implementation behind schedule")]
  const MediumTemplates: seq<(string, string)> := [
    ("CAPA Response Due Soon", "Corrective action response required for audit finding"),
    ("Training Records Review", "Quarterly training effectiveness review scheduled"),
    ("Document Review Pending", "Quality manual revision awaiting final approval"),
    ("Post-Market Surveillance Report", "Quarterly surveillance report preparation needed")]
  const LowTemplates: seq<(string, string)> := [
    ("Training Records Missing", "Quality training records incomplete for staff members"),
    ("Routine Calibration Due", "Measurement equipment requires routine calibration"),
    ("Document Update Available", "New regulatory guidance available for review"),
    ("Internal Audit Scheduling", "Next quarter internal audit schedule needs finalization")]

  function AlertTemplates(severity: AlertSeverity): (t: seq<(string, string)>)
    ensures |t| == if severity == Critical || severity == High then 3 else 4
  {
    match severity
    case Critical => CriticalTemplates
    case High => HighTemplates
    case Medium => MediumTemplates
    case Low => LowTemplates
  }

  const OverdueSuffix := " - OVERDUE"

  /** `getAlertContent` once the template is drawn: the template's title,
      marked overdue when the alert is, and its description unchanged. */
  function AlertContent(severity: AlertSeverity, isOverdue: bool, pick: nat): (r: (string, string))
    requires pick < |AlertTemplates(severity)|
    ensures r.1 == AlertTemplates(severity)[pick].1
    ensures EndsWith(r.0, OverdueSuffix) <==> isOverdue
    ensures |r.0| == |AlertTemplates(severity)[pick].0| + if isOverdue then |OverdueSuffix| else 0
    ensures r.0[..|AlertTemplates(severity)[pick].0|] == AlertTemplates(severity)[pick].0
  {
    var template := AlertTemplates(severity)[pick];
    TemplateTitleNotOverdue(severity, pick);
    var title := if isOverdue then template.0 + OverdueSuffix else template.0;
    assert isOverdue ==> title[|title| - |OverdueSuffix|..] == OverdueSuffix;
    (title, template.1)
  }

  /** No template title already ends in the overdue mark: every one ends in
      a lower-case letter, the mark in a capital E. */
  lemma TemplateTitleNotOverdue(severity: AlertSeverity, pick: nat)
    requires pick < |AlertTemplates(severity)|
    ensures !EndsWith(AlertTemplates(severity)[pick].0, OverdueSuffix)
  {
    var title := AlertTemplates(severity)[pick].0;
    assert 'a' <= title[|title| - 1] <= 'z';
  }

  // ---------------------------------------------------------------------
  // Ordering

  /** `severityOrder`: critical first, low last. */
  function SeverityRank(s: AlertSeverity): nat
  {
    match s
    case Critical => 0
    case High => 1
    case Medium => 2
    case Low => 3
  }

  /** The comparator `generateSampleAlerts` sorts with. A missing due date
      makes the date difference `NaN`, which the sort reads as 0. */
  function CompareAlerts(a: ComplianceAlert, b: ComplianceAlert): (r: int)
    ensures a.isOverdue && !b.isOverdue ==> r < 0
    ensures !a.isOverdue && b.isOverdue ==> r > 0
    ensures a.isOverdue == b.isOverdue && SeverityRank(a.severity) != SeverityRank(b.severity) ==>
      (r < 0 <==> SeverityRank(a.severity) < SeverityRank(b.severity))
    ensures a.isOverdue == b.isOverdue && a.severity == b.severity && a.dueDate.Some? && b.dueDate.Some? ==>
      (r < 0 <==> a.dueDate.value < b.dueDate.value) && (r == 0 <==> a.dueDate.value == b.dueDate.value)
    ensures a.isOverdue == b.isOverdue && a.severity == b.severity && (a.dueDate.None? || b.dueDate.None?) ==> r == 0
  {
    if a.isOverdue && !b.isOverdue then -1
    else if !a.isOverdue && b.isOverdue then 1
    else
      var severityDiff := SeverityRank(a.severity) - SeverityRank(b.severity);
      if severityDiff != 0 then severityDiff
      else match (a.dueDate, b.dueDate)
        case (Some(x), Some(y)) => (x - y) * DayMs
        case _ => 0
  }

  /** Swapping the arguments negates the comparison. */
  lemma CompareAntisymmetric(a: ComplianceAlert, b: ComplianceAlert)
    ensures CompareAlerts(a, b) == -CompareAlerts(b, a)
  {
  }

  /** The order the sorted batch is in: overdue first, then by severity
      rank, then by due date (a missing one read as day 0). */
  predicate AlertBefore(a: ComplianceAlert, b: ComplianceAlert)
  {
    var oa, ob := if a.isOverdue then 0 else 1, if b.isOverdue then 0 else 1;
    var da, db := Pick(a.dueDate, 0), Pick(b.dueDate, 0);
    oa < ob || (oa == ob && (SeverityRank(a.severity) < SeverityRank(b.severity)
      || (SeverityRank(a.severity) == SeverityRank(b.severity) && da <= db)))
  }

  /** `AlertBefore` is a total preorder, so the batch can be sorted by it. */
  lemma AlertBeforeTotalPreorder()
    ensures TotalPreorder(AlertBefore)
  {
  }

  /** Between alerts that both have a due date, `AlertBefore` is the
      comparator's "not after". */
  lemma AlertBeforeIsComparator(a: ComplianceAlert, b: ComplianceAlert)
    requires a.dueDate.Some? && b.dueDate.Some?
    ensures AlertBefore(a, b) <==> CompareAlerts(a, b) <= 0
  {
  }

  // ---------------------------------------------------------------------
  // Alert batches

  const Severities: seq<AlertSeverity> := [Low, Medium, High, Critical]

  const AlertStandards: seq<string> := [
    "FDA QSR 820.30", "ISO 13485:2016", "EU MDR Article 83", "FDA QSR 820.100",
    "ISO 13485 Clause 7.3", "EU MDR Article 61", "FDA QSR 820.22", "ISO 13485 Clause 8.5"]

  /** The random draws of one alert. `dueDays` and `createdDays` are the
      whole numbers of days the due date and creation date move by. */
  datatype AlertDraw = AlertDraw(
    severity: nat,
    standard: nat,
    overdue: bool,
    dueDays: nat,
    createdDays: nat,
    template: nat,
    now: nat)

  /** The values those expressions can take: indexes below the list
      lengths, 1 to 10 days back for an overdue due date, 1 to 30 days ahead
      otherwise, and 1 to 7 days back for the creation date. */
  predicate ValidAlertDraw(d: AlertDraw)
  {
    && d.severity < |Severities|
    && d.standard < |AlertStandards|
    && 1 <= d.dueDays <= (if d.overdue then 10 else 30)
    && 1 <= d.createdDays <= 7
    && d.template < |AlertTemplates(Severities[d.severity])|
  }

  /** `alert-${Date.now()}-${i}`. */
  function AlertId(now: nat, i: nat): string
  {
    "alert-" + Decimal(now) + "-" + Decimal(i)
  }

  /** The dates of an alert made on day `today` lie in their windows. */
  predicate AlertDatesInWindow(a: ComplianceAlert, today: int)
  {
    && a.dueDate.Some?
    && (a.isOverdue ==> today - 10 <= a.dueDate.value <= today - 1)
    && (!a.isOverdue ==> today + 1 <= a.dueDate.value <= today + 30)
    && today - 7 <= a.createdAt <= today - 1
  }

  /** The alert built in iteration `i` from its draws. */
  function MakeAlert(d: AlertDraw, i: nat, today: int): (a: ComplianceAlert)
    requires ValidAlertDraw(d)
    ensures a.id == AlertId(d.now, i)
    ensures a.severity == Severities[d.severity] && a.standard == AlertStandards[d.standard]
    ensures a.isOverdue == d.overdue
    ensures (a.title, a.description) == AlertContent(a.severity, d.overdue, d.template)
    ensures AlertDatesInWindow(a, today)
  {
    var severity := Severities[d.severity];
    var content := AlertContent(severity, d.overdue, d.template);
    var due := if d.overdue then today - d.dueDays else today + d.dueDays;
    ComplianceAlert(AlertId(d.now, i), content.0, content.1, severity, AlertStandards[d.standard],
                    Some(due), d.overdue, today - d.createdDays)
  }

  /** The alerts in the order the loop pushes them. */
  function BuiltAlerts(draws: seq<AlertDraw>, today: int): (r: seq<ComplianceAlert>)
    requires forall k :: 0 <= k < |draws| ==> ValidAlertDraw(draws[k])
    ensures |r| == |draws| && forall k :: 0 <= k < |draws| ==> r[k] == MakeAlert(draws[k], k, today)
  {
    seq(|draws|, k requires 0 <= k < |draws| => MakeAlert(draws[k], k, today))
  }

  /** `generateSampleAlerts(count)`: `count` alerts (none for a count below
      one), pushed in a loop and sorted in place. */
  method GenerateSampleAlerts(count: int, draws: seq<AlertDraw>, today: int) returns (alerts: seq<ComplianceAlert>)
    requires |draws| == if count > 0 then count else 0
    requires forall k :: 0 <= k < |draws| ==> ValidAlertDraw(draws[k])
    ensures |alerts| == |draws|
    ensures multiset(alerts) == multiset(BuiltAlerts(draws, today))
    ensures forall k :: 0 <= k < |alerts| ==> AlertDatesInWindow(alerts[k], today)
    ensures forall i, j :: 0 <= i < j < |alerts| ==> CompareAlerts(alerts[i], alerts[j]) <= 0
    ensures forall i, j :: 0 <= i < j < |alerts| && alerts[j].isOverdue ==> alerts[i].isOverdue
  {
    ghost var built := BuiltAlerts(draws, today);
    var a := new ComplianceAlert[|draws|];
    var i := 0;
    while i < count
      invariant 0 <= i <= |draws|
      invariant count > 0 ==> i <= count
      invariant a[..i] == built[..i]
    {
      a[i] := MakeAlert(draws[i], i, today);
      i := i + 1;
    }
    assert i == |built|;
    ghost var unsorted := a[..];
    assert unsorted == built;
    AlertBeforeTotalPreorder();
    SortInPlace(a, AlertBefore);
    alerts := a[..];
    assert multiset(alerts) == multiset(unsorted);
    PermutedAlertsInWindow(alerts, draws, today);
    SortedAlertsFollowComparator(alerts);
  }

  /** Ids made in different iterations differ, whatever the clock read:
      digits contain no dash, so the id splits back into its two numbers. */
  lemma AlertIdsDiffer(n1: nat, i: nat, n2: nat, j: nat)
    requires i != j
    ensures AlertId(n1, i) != AlertId(n2, j)
  {
    if AlertId(n1, i) == AlertId(n2, j) {
      DashedNumbersSplit("alert-", Decimal(n1), Decimal(i), Decimal(n2), Decimal(j));
      DecimalInjective(i, j);
    }
  }

  /** `prefix + a + "-" + b` determines `a` and `b` when both are digit strings. */
  lemma DashedNumbersSplit(prefix: string, a: string, b: string, c: string, d: string)
    requires forall k :: 0 <= k < |a| ==> IsDigit(a[k])
    requires forall k :: 0 <= k < |c| ==> IsDigit(c[k])
    requires prefix + a + "-" + b == prefix + c + "-" + d
    ensures a == c && b == d
  {
    var s := prefix + a + "-" + b;
    var t := prefix + c + "-" + d;
    if |a| < |c| {
      DashAt(prefix, a, b);
      assert false;
    } else if |c| < |a| {
      DashAt(prefix, c, d);
      assert false;
    }
    assert a == s[|prefix|..|prefix| + |a|] && c == t[|prefix|..|prefix| + |c|];
    assert b == s[|prefix| + |a| + 1..] && d == t[|prefix| + |c| + 1..];
  }

  /** The dash after `a` sits right behind it. */
  lemma DashAt(prefix: string, a: string, b: string)
    ensures (prefix + a + "-" + b)[|prefix| + |a|] == '-'
  {
  }

  /** No two alerts of a generated batch share an id. */
  lemma GeneratedAlertIdsDistinct(draws: seq<AlertDraw>, today: int, alerts: seq<ComplianceAlert>)
    requires forall k :: 0 <= k < |draws| ==> ValidAlertDraw(draws[k])
    requires multiset(alerts) == multiset(BuiltAlerts(draws, today))
    ensures forall i, j :: 0 <= i < j < |alerts| ==> alerts[i].id != alerts[j].id
  {
    ghost var built := BuiltAlerts(draws, today);
    forall p, q | 0 <= p < |built| && 0 <= q < |built| && p != q ensures built[p].id != built[q].id {
      AlertIdsDiffer(draws[p].now, p, draws[q].now, q);
    }
    PermutationKeysDistinct(alerts, built, (x: ComplianceAlert) => x.id);
  }

  /** A batch sorted by `AlertBefore` whose alerts all have due dates is in
      the comparator's order, and its overdue alerts come first. */
  lemma SortedAlertsFollowComparator(alerts: seq<ComplianceAlert>)
    requires SortedBy(alerts, AlertBefore)
    requires forall k :: 0 <= k < |alerts| ==> alerts[k].dueDate.Some?
    ensures forall i, j :: 0 <= i < j < |alerts| ==> CompareAlerts(alerts[i], alerts[j]) <= 0
    ensures forall i, j :: 0 <= i < j < |alerts| && alerts[j].isOverdue ==> alerts[i].isOverdue
  {
    forall i, j | 0 <= i < j < |alerts| ensures CompareAlerts(alerts[i], alerts[j]) <= 0 {
      AlertBeforeIsComparator(alerts[i], alerts[j]);
    }
  }

  /** Rearranging a batch keeps every alert's dates in their windows. */
  lemma PermutedAlertsInWindow(alerts: seq<ComplianceAlert>, draws: seq<AlertDraw>, today: int)
    requires forall k :: 0 <= k < |draws| ==> ValidAlertDraw(draws[k])
    requires multiset(alerts) == multiset(BuiltAlerts(draws, today))
    ensures forall k :: 0 <= k < |alerts| ==> AlertDatesInWindow(alerts[k], today)
  {
    ghost var built := BuiltAlerts(draws, today);
    forall k | 0 <= k < |alerts| ensures AlertDatesInWindow(alerts[k], today) {
      assert alerts[k] in multiset(built);
    }
  }

  // ---------------------------------------------------------------------
  // Activity batches

  const ActivityTypes: seq<ActivityType> := [Audit, Review, Training, Update, Finding]

  const Users: seq<string> := [
    "Sarah Johnson", "Michael Chen", "Emily Rodriguez", "David Park",
    "Lisa Thompson", "James Wilson", "Maria Garcia", "Robert Lee"]

  const ActivityStandards: seq<string> := [
    "FDA QSR 820.30", "ISO 13485:2016", "EU MDR Article 83", "FDA QSR 820.100", "ISO 13485 Clause 8.2"]

  /** The titles and descriptions `getActivityContent` picks from for each activity type. */
  const AuditTitles: seq<string> := [
    "Internal Quality Audit Completed", "Supplier Audit Conducted", "Design Control Audit Scheduled",
    "Management Review Audit", "CAPA System Audit"]
  const AuditDescriptions: seq<string> := [
    "Q4 2023 internal audit completed with minor findings",
    "Supplier qualification audit revealed documentation gaps",
    "Annual design control audit scheduled for next week",
    "Management review process audit completed successfully",
    "CAPA effectiveness review identified improvement opportunities"]
  const FindingTitles: seq<string> := [
    "Audit Finding Resolved", "CAPA Implementation Complete", "Non-Conformance Addressed",
    "Corrective Action Verified", "Finding Investigation Closed"]
  const FindingDescriptions: seq<string> := [
    "Training records documentation updated per audit finding",
    "Process improvement implemented for design validation",
    "Supplier qualification documentation completed",
    "Risk management file updated with post-market data",
    "Document control procedure revised and approved"]
  const ReviewTitles: seq<string> := [
    "Document Review Completed", "Procedure Updated", "Policy Revision Approved",
    "Standard Operating Procedure Released", "Quality Manual Updated"]
  const ReviewDescriptions: seq<string> := [
    "Quality manual revision approved and released",
    "Design control procedure updated for compliance",
    "Risk management policy aligned with standards",
    "New SOP for complaint handling implemented",
    "Training procedures updated for regulatory changes"]
  const TrainingTitles: seq<string> := [
    "Compliance Training Conducted", "Regulatory Update Training", "Quality System Training",
    "Audit Skills Workshop", "ISO 13485 Training Session"]
  const TrainingDescriptions: seq<string> := [
    "EU MDR requirements training for R&D team",
    "FDA QSR updates training for quality staff",
    "ISO 13485 internal auditor training completed",
    "Risk management training for design team",
    "CAPA process training for manufacturing staff"]
  const UpdateTitles: seq<string> := [
    "System Update Deployed", "Documentation Updated", "Process Improvement Implemented",
    "Software Validation Completed", "Database Update Applied"]
  const UpdateDescriptions: seq<string> := [
    "Quality management system updated for compliance",
    "Document control system enhanced with new features",
    "Risk assessment process improved based on feedback",
    "Training management system upgraded",
    "Audit tracking system updated with new reporting"]

  function ActivityTitles(kind: ActivityType): (t: seq<string>)
    ensures |t| == 5
  {
    match kind
    case Audit => AuditTitles
    case Finding => FindingTitles
    case Review => ReviewTitles
    case Training => TrainingTitles
    case Update => UpdateTitles
  }

  function ActivityDescriptions(kind: ActivityType): (d: seq<string>)
    ensures |d| == 5
  {
    match kind
    case Audit => AuditDescriptions
    case Finding => FindingDescriptions
    case Review => ReviewDescriptions
    case Training => TrainingDescriptions
    case Update => UpdateDescriptions
  }

  /** The random draws of one activity; `withStandard` is `Math.random() > 0.3`. */
  datatype ActivityDraw = ActivityDraw(
    kind: nat,
    user: nat,
    standard: nat,
    withStandard: bool,
    daysBack: nat,
    title: nat,
    description: nat,
    now: nat)

  predicate ValidActivityDraw(d: ActivityDraw)
  {
    && d.kind < |ActivityTypes| && d.user < |Users| && d.standard < |ActivityStandards|
    && d.daysBack < 30 && d.title < 5 && d.description < 5
  }

  /** `activity-${Date.now()}-${i}`. */
  function ActivityId(now: nat, i: nat): string
  {
    "activity-" + Decimal(now) + "-" + Decimal(i)
  }

  /** The activity built in iteration `i`, dated `daysBack` whole days
      before the instant `clock`. */
  function MakeActivity(d: ActivityDraw, i: nat, clock: int): (a: ComplianceActivity)
    requires ValidActivityDraw(d)
    ensures a.id == ActivityId(d.now, i) && a.kind == ActivityTypes[d.kind] && a.user == Users[d.user]
    ensures a.title in ActivityTitles(a.kind) && a.description in ActivityDescriptions(a.kind)
    ensures a.standard.Some? <==> d.withStandard
    ensures a.standard.Some? ==> a.standard.value == ActivityStandards[d.standard]
    ensures clock - 29 * DayMs <= a.timestamp <= clock && (clock - a.timestamp) % DayMs == 0
  {
    var kind := ActivityTypes[d.kind];
    ComplianceActivity(ActivityId(d.now, i), kind, ActivityTitles(kind)[d.title],
                       ActivityDescriptions(kind)[d.description], clock - d.daysBack * DayMs,
                       Users[d.user], if d.withStandard then Some(ActivityStandards[d.standard]) else None)
  }

  /** The activities in the order the loop pushes them. */
  function BuiltActivities(draws: seq<ActivityDraw>, clock: int): (r: seq<ComplianceActivity>)
    requires forall k :: 0 <= k < |draws| ==> ValidActivityDraw(draws[k])
    ensures |r| == |draws| && forall k :: 0 <= k < |draws| ==> r[k] == MakeActivity(draws[k], k, clock)
  {
    seq(|draws|, k requires 0 <= k < |draws| => MakeActivity(draws[k], k, clock))
  }

  /** Newer first: the comparator `b.timestamp - a.timestamp` as an order. */
  predicate NewerOrSame(a: ComplianceActivity, b: ComplianceActivity)
  {
    a.timestamp >= b.timestamp
  }

  /** `generateSampleActivities(count)`: `count` activities, pushed in a loop
      and sorted newest first. */
  method GenerateSampleActivities(count: int, draws: seq<ActivityDraw>, clock: int) returns (activities: seq<ComplianceActivity>)
    requires |draws| == if count > 0 then count else 0
    requires forall k :: 0 <= k < |draws| ==> ValidActivityDraw(draws[k])
    ensures |activities| == |draws|
    ensures multiset(activities) == multiset(BuiltActivities(draws, clock))
    ensures forall k :: 0 <= k < |activities| ==> clock - 29 * DayMs <= activities[k].timestamp <= clock
    ensures forall i, j :: 0 <= i < j < |activities| ==> activities[i].timestamp >= activities[j].timestamp
  {
    ghost var built := BuiltActivities(draws, clock);
    var a := new ComplianceActivity[|draws|];
    var i := 0;
    while i < count
      invariant 0 <= i <= |draws|
      invariant count > 0 ==> i <= count
      invariant a[..i] == built[..i]
    {
      a[i] := MakeActivity(draws[i], i, clock);
      i := i + 1;
    }
    assert i == |built|;
    ghost var unsorted := a[..];
    assert unsorted == built;
    SortInPlace(a, NewerOrSame);
    activities := a[..];
    assert multiset(activities) == multiset(unsorted);
    PermutedActivitiesInWindow(activities, draws, clock);
  }

  /** Activity ids made in different iterations differ, whatever the clock read. */
  lemma ActivityIdsDiffer(n1: nat, i: nat, n2: nat, j: nat)
    requires i != j
    ensures ActivityId(n1, i) != ActivityId(n2, j)
  {
    if ActivityId(n1, i) == ActivityId(n2, j) {
      DashedNumbersSplit("activity-", Decimal(n1), Decimal(i), Decimal(n2), Decimal(j));
      DecimalInjective(i, j);
    }
  }

  /** No two activities of a generated batch share an id. */
  lemma GeneratedActivityIdsDistinct(draws: seq<ActivityDraw>, clock: int, activities: seq<ComplianceActivity>)
    requires forall k :: 0 <= k < |draws| ==> ValidActivityDraw(draws[k])
    requires multiset(activities) == multiset(BuiltActivities(draws, clock))
    ensures forall i, j :: 0 <= i < j < |activities| ==> activities[i].id != activities[j].id
  {
    ghost var built := BuiltActivities(draws, clock);
    forall p, q | 0 <= p < |built| && 0 <= q < |built| && p != q ensures built[p].id != built[q].id {
      ActivityIdsDiffer(draws[p].now, p, draws[q].now, q);
    }
    PermutationKeysDistinct(activities, built, (x: ComplianceActivity) => x.id);
  }

  /** Rearranging a batch keeps every activity within the last 30 days. */
  lemma PermutedActivitiesInWindow(activities: seq<ComplianceActivity>, draws: seq<ActivityDraw>, clock: int)
    requires forall k :: 0 <= k < |draws| ==> ValidActivityDraw(draws[k])
    requires multiset(activities) == multiset(BuiltActivities(draws, clock))
    ensures forall k :: 0 <= k < |activities| ==> clock - 29 * DayMs <= activities[k].timestamp <= clock
  {
    ghost var built := BuiltActivities(draws, clock);
    forall k | 0 <= k < |activities| ensures clock - 29 * DayMs <= activities[k].timestamp <= clock {
      assert activities[k] in multiset(built);
    }
  }
}
