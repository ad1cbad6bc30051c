/** The dashboard data (`src/data/complianceData.ts`): the record shapes of
    alerts and activities, the sample metrics, and the three functions that
    map a score, a status and a severity to Tailwind colour classes. */
module ComplianceData {
  import opened Seqs

  /** `ComplianceMetrics`. */
  datatype ComplianceMetrics = ComplianceMetrics(
    overallScore: int,
    totalRequirements: int,
    compliantRequirements: int,
    nonCompliantRequirements: int,
    inProgressRequirements: int,
    lastAuditDate: string,
    nextAuditDate: string)

  /** The severities an alert can have. */
  datatype AlertSeverity = Low | Medium | High | Critical

  /** The kinds of activity. */
  datatype ActivityType = Audit | Review | Training | Update | Finding

  /** `ComplianceAlert`. Dates are day numbers (days since 1970-01-01, UTC):
      the `YYYY-MM-DD` strings the source stores name exactly one such day. */
  datatype ComplianceAlert = ComplianceAlert(
    id: string,
    title: string,
    description: string,
    severity: AlertSeverity,
    standard: string,
    dueDate: Option<int>,
    isOverdue: bool,
    createdAt: int)

  /** `ComplianceActivity`. The timestamp is milliseconds since 1970-01-01,
      the instant its ISO string denotes. */
  datatype ComplianceActivity = ComplianceActivity(
    id: string,
    kind: ActivityType,
    title: string,
    description: string,
    timestamp: int,
    user: string,
    standard: Option<string>)

  /** The sample `complianceMetrics`. */
  const SampleMetrics := ComplianceMetrics(87, 247, 215, 18, 14, "2024-01-15", "2024-07-15")

  /** Every requirement of the sample metrics is compliant, non-compliant or in progress. */
  lemma SampleMetricsAddUp()
    ensures SampleMetrics.compliantRequirements + SampleMetrics.nonCompliantRequirements
            + SampleMetrics.inProgressRequirements == SampleMetrics.totalRequirements
    ensures 0 <= SampleMetrics.overallScore <= 100
  {
  }

  /** The colour bands of a compliance score, best first. */
  const Green := "text-green-600"
  const Yellow := "text-yellow-600"
  const Orange := "text-orange-600"
  const Red := "text-red-600"

  /** `getComplianceScoreColor`: 90 and above green, 80 and above yellow,
      70 and above orange, anything lower red. The score is any real number. */
  function ScoreColor(score: real): (c: string)
    ensures c == Green <==> score >= 90.0
    ensures c == Yellow <==> 80.0 <= score < 90.0
    ensures c == Orange <==> 70.0 <= score < 80.0
    ensures c == Red <==> score < 70.0
  {
    if score >= 90.0 then Green
    else if score >= 80.0 then Yellow
    else if score >= 70.0 then Orange
    else Red
  }

  /** The position of a score colour, 0 for the best band. */
  function BandRank(c: string): nat
  {
    if c == Green then 0 else if c == Yellow then 1 else if c == Orange then 2 else 3
  }

  /** A higher score never falls into a worse band. */
  lemma ScoreColorMonotone(a: real, b: real)
    requires a <= b
    ensures BandRank(ScoreColor(b)) <= BandRank(ScoreColor(a))
  {
  }

  /** The four score colours are different classes. */
  lemma ScoreColorsDistinct()
    ensures Distinct([Green, Yellow, Orange, Red])
  {
    assert Green[5] != Yellow[5] && Green[5] != Orange[5] && Green[5] != Red[5];
    assert Yellow[5] != Orange[5] && Yellow[5] != Red[5] && Orange[5] != Red[5];
  }

  const Gray := "text-gray-600"

  /** `getStatusColor` on the status string; any other string is gray. */
  function StatusColor(status: string): (c: string)
    ensures status == "compliant" ==> c == Green
    ensures status == "in-progress" ==> c == "text-blue-600"
    ensures status == "non-compliant" ==> c == Red
    ensures status == "overdue" ==> c == "text-red-700"
    ensures status !in {"compliant", "in-progress", "non-compliant", "overdue"} ==> c == Gray
  {
    if status == "compliant" then Green
    else if status == "in-progress" then "text-blue-600"
    else if status == "non-compliant" then Red
    else if status == "overdue" then "text-red-700"
    else Gray
  }

  /** Each known status gets a colour of its own, different from the default. */
  lemma StatusColorsDistinct()
    ensures Distinct([StatusColor("compliant"), StatusColor("in-progress"), StatusColor("non-compliant"),
                      StatusColor("overdue"), StatusColor("")])
  {
    var cs := [Green, "text-blue-600", Red, "text-red-700", Gray];
    assert StatusColor("in-progress") == cs[1] by {
      assert "in-progress"[0] != "compliant"[0];
    }
    assert StatusColor("non-compliant") == cs[2] by {
      assert "non-compliant"[0] != "compliant"[0] && "non-compliant"[0] != "in-progress"[0];
    }
    assert StatusColor("overdue") == cs[3] by {
      assert "overdue"[0] != "compliant"[0] && "overdue"[0] != "in-progress"[0] && "overdue"[0] != "non-compliant"[0];
    }
    assert cs[0][5] != cs[1][5] && cs[0][5] != cs[2][5] && cs[0][5] != cs[3][5] && cs[0][7] != cs[4][7];
    assert cs[1][5] != cs[2][5] && cs[1][5] != cs[3][5] && cs[1][5] != cs[4][5];
    assert cs[2][9] != cs[3][9] && cs[2][5] != cs[4][5] && cs[3][5] != cs[4][5];
  }

  const SeverityGray := "text-gray-600 bg-gray-50 border-gray-200"

  /** `getSeverityColor` on the severity string; any other string, the
      finding severities "major" and "minor" among them, is gray. */
  function SeverityColor(severity: string): (c: string)
    ensures severity == "critical" ==> c == "text-red-700 bg-red-50 border-red-200"
    ensures severity == "high" ==> c == "text-red-600 bg-red-50 border-red-200"
    ensures severity == "medium" ==> c == "text-yellow-600 bg-yellow-50 border-yellow-200"
    ensures severity == "low" ==> c == "text-blue-600 bg-blue-50 border-blue-200"
    ensures severity !in {"critical", "high", "medium", "low"} ==> c == SeverityGray
  {
    if severity == "critical" then "text-red-700 bg-red-50 border-red-200"
    else if severity == "high" then "text-red-600 bg-red-50 border-red-200"
    else if severity == "medium" then "text-yellow-600 bg-yellow-50 border-yellow-200"
    else if severity == "low" then "text-blue-600 bg-blue-50 border-blue-200"
    else SeverityGray
  }

  /** The name an alert severity carries in the source. */
  function SeverityName(s: AlertSeverity): string
  {
    match s
    case Low => "low"
    case Medium => "medium"
    case High => "high"
    case Critical => "critical"
  }

  /** Every alert severity has a colour of its own, never the gray default,
      and the two red ones differ in shade. */
  lemma AlertSeveritiesColoured(s: AlertSeverity, t: AlertSeverity)
    ensures SeverityColor(SeverityName(s)) != SeverityGray
    ensures s != t ==> SeverityColor(SeverityName(s)) != SeverityColor(SeverityName(t))
  {
    var names := ["critical", "high", "medium", "low"];
    assert names[0][0] != names[1][0] && names[0][0] != names[2][0] && names[0][0] != names[3][0];
    assert names[1][0] != names[2][0] && names[1][0] != names[3][0] && names[2][0] != names[3][0];
    var cs := ["text-red-700 bg-red-50 border-red-200", "text-red-600 bg-red-50 border-red-200",
               "text-yellow-600 bg-yellow-50 border-yellow-200", "text-blue-600 bg-blue-50 border-blue-200", SeverityGray];
    assert cs[0][9] != cs[1][9];
    assert cs[0][5] != cs[2][5] && cs[0][5] != cs[3][5] && cs[0][5] != cs[4][5];
    assert cs[1][5] != cs[2][5] && cs[1][5] != cs[3][5] && cs[1][5] != cs[4][5];
    assert cs[2][5] != cs[3][5] && cs[2][5] != cs[4][5] && cs[3][5] != cs[4][5];
  }
}
