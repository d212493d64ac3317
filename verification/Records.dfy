/** The stored rows: users, scans, findings and the compliance map. */
module Records {
  import opened Prelude

  datatype Role = ADMIN | VIEWER

  datatype Severity = Low | Medium | High | Critical

  datatype ScanType = STATIC | LIVE

  datatype User = User(userId: nat, email: string, passwordHash: string, role: Role)

  /** Scans are stored completed; `timestamp` is the creation time. */
  datatype Scan = Scan(scanId: nat, userId: nat, filename: string, scanType: ScanType, timestamp: int)

  datatype Finding = Finding(
    findingId: nat, scanId: nat, resourceId: string, resourceType: string, severity: Severity,
    ruleId: string, message: string, riskScore: int, isAnomaly: bool)

  datatype ComplianceRow = ComplianceRow(ruleId: string, cisControlId: string, nistId: string, remediation: string)

  /** `Severity(text)`: None where the enum raises. */
  function ParseSeverity(text: string): Option<Severity> {
    if text == "Low" then Some(Low)
    else if text == "Medium" then Some(Medium)
    else if text == "High" then Some(High)
    else if text == "Critical" then Some(Critical)
    else None
  }

  function SeverityOrder(s: Severity): nat {
    match s
    case Low => 1
    case Medium => 2
    case High => 3
    case Critical => 4
  }

  /** The texts rule files use. */
  function SeverityText(s: Severity): string {
    match s
    case Low => "Low"
    case Medium => "Medium"
    case High => "High"
    case Critical => "Critical"
  }

  ghost predicate KnownSeverity(text: string) {
    text == "Low" || text == "Medium" || text == "High" || text == "Critical"
  }

  /** Exactly these four texts are severities, each its own. */
  lemma SeverityTexts(text: string, s: Severity)
    ensures ParseSeverity(text) == Some(s) <==> text == SeverityText(s)
    ensures ParseSeverity(text).Some? <==> KnownSeverity(text)
  {
    assert |"Low"| == 3 && |"Medium"| == 6 && |"High"| == 4 && |"Critical"| == 8;
  }

  /** Low, Medium, High, Critical. */
  ghost predicate NoWorse(a: Severity, b: Severity) {
    match a
    case Low => true
    case Medium => b != Low
    case High => b == High || b == Critical
    case Critical => b == Critical
  }
}
