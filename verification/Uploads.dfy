/** What an upload stores, and how it reaches the compliance report. */
module Uploads {
  import opened Prelude
  import opened Records
  import opened RuleEngine
  import opened Scorer
  import opened Compliance
  import opened Server

  /** The row can be built and inserted: known severity, mapped rule, and text columns the database takes. */
  ghost predicate Storable(cfg: Config, d: FindingData) {
    KnownSeverity(d.severity) && Mapped(cfg.rows, d.ruleId) &&
    cfg.asColumn(d.resourceId).Some? && cfg.asColumn(d.resourceType).Some?
  }

  /** The stored row carries this finding and its score. */
  ghost predicate StoredAs(cfg: Config, f: Finding, d: FindingData) {
    && cfg.asColumn(d.resourceId) == Some(f.resourceId) && cfg.asColumn(d.resourceType) == Some(f.resourceType)
    && d.severity == SeverityText(f.severity) && f.ruleId == d.ruleId && f.message == d.message
    && Score(f.riskScore, f.isAnomaly) == ScoreOf(cfg.digest, d)
  }

  ghost predicate StoredAsAll(cfg: Config, stored: seq<Finding>, data: seq<FindingData>) {
    |stored| == |data| && forall k :: 0 <= k < |data| ==> StoredAs(cfg, stored[k], data[k])
  }

  /** The rows belong to the scan and carry consecutive ids. */
  ghost predicate Numbered(rows: seq<Finding>, scanId: nat, firstId: nat) {
    forall k :: 0 <= k < |rows| ==> rows[k].scanId == scanId && rows[k].findingId == firstId + k
  }

  lemma FindingRowMeaning(cfg: Config, d: FindingData, scanId: nat, id: nat)
    ensures var r := FindingRow(cfg, d, ScoreOf(cfg.digest, d), scanId, id);
            && (r.Some? <==> Storable(cfg, d))
            && (r.Some? ==> StoredAs(cfg, r.value, d) && r.value.scanId == scanId && r.value.findingId == id)
  {
    match FindingRow(cfg, d, ScoreOf(cfg.digest, d), scanId, id)
    case Some(row) => SeverityTexts(d.severity, row.severity);
    case None => SeverityTexts(d.severity, Low);
  }

  /** Some finding among the first `n` cannot be stored. */
  ghost predicate Unstorable(cfg: Config, data: seq<FindingData>, n: nat)
    requires n <= |data|
  {
    exists k :: 0 <= k < n && !Storable(cfg, data[k])
  }

  /** Either every row is built, scored and numbered, or some finding cannot be stored. */
  ghost predicate RowsMean(cfg: Config, rows: Option<seq<Finding>>, data: seq<FindingData>, n: nat, scanId: nat, firstId: nat)
    requires n <= |data|
  {
    if rows.None? then Unstorable(cfg, data, n)
    else !Unstorable(cfg, data, n) && StoredFirst(cfg, rows.value, data, n, scanId, firstId)
  }

  lemma {:induction false} FindingRowsMeaning(cfg: Config, data: seq<FindingData>, scores: seq<Score>, n: nat, scanId: nat, firstId: nat)
    requires n <= |data| && scores == Scores(cfg.digest, data)
    ensures RowsMean(cfg, FindingRows(cfg, data, scores, n, scanId, firstId), data, n, scanId, firstId)
  {
    if n > 0 {
      var d := data[n - 1];
      FindingRowsMeaning(cfg, data, scores, n - 1, scanId, firstId);
      FindingRowMeaning(cfg, d, scanId, firstId + n - 1);
      assert scores[n - 1] == ScoreOf(cfg.digest, d);
      NextRow(cfg, FindingRows(cfg, data, scores, n - 1, scanId, firstId),
              FindingRow(cfg, d, scores[n - 1], scanId, firstId + n - 1), data, n, scanId, firstId);
    }
  }

  lemma NextRow(cfg: Config, rows: Option<seq<Finding>>, row: Option<Finding>, data: seq<FindingData>, n: nat, scanId: nat, firstId: nat)
    requires 0 < n <= |data| && RowsMean(cfg, rows, data, n - 1, scanId, firstId)
    requires row.Some? <==> Storable(cfg, data[n - 1])
    requires row.Some? ==> StoredAs(cfg, row.value, data[n - 1]) && row.value.scanId == scanId && row.value.findingId == firstId + n - 1
    ensures RowsMean(cfg, if rows.Some? && row.Some? then Some(rows.value + [row.value]) else None, data, n, scanId, firstId)
  {
    if rows.Some? && row.Some? {
      OneMoreRow(cfg, rows.value, row.value, data, n, scanId, firstId);
    }
  }

  /** The rows carry the first `n` findings and are numbered for the scan. */
  ghost predicate StoredFirst(cfg: Config, rows: seq<Finding>, data: seq<FindingData>, n: nat, scanId: nat, firstId: nat)
    requires n <= |data|
  {
    StoredAsAll(cfg, rows, data[..n]) && Numbered(rows, scanId, firstId)
  }

  lemma OneMoreRow(cfg: Config, rows: seq<Finding>, row: Finding, data: seq<FindingData>, n: nat, scanId: nat, firstId: nat)
    requires 0 < n <= |data| && StoredFirst(cfg, rows, data, n - 1, scanId, firstId)
    requires StoredAs(cfg, row, data[n - 1]) && row.scanId == scanId && row.findingId == firstId + n - 1
    ensures StoredFirst(cfg, rows + [row], data, n, scanId, firstId)
  {
  }

  /** The rows that `StoreFindings` adds: all of them, scored and numbered, or none. */
  lemma StoredRows(cfg: Config, s: State, scanId: nat, data: seq<FindingData>) returns (rows: seq<Finding>)
    ensures var (t, reply) := StoreFindings(cfg, s, scanId, data);
            if !Unstorable(cfg, data, |data|) then
              && reply == Uploaded(scanId, |data|)
              && t == s.(findings := s.findings + rows, nextId := s.nextId + |rows|)
              && StoredAsAll(cfg, rows, data) && Numbered(rows, scanId, s.nextId)
            else reply == ServerError && t == s
  {
    var scores := Scores(cfg.digest, data);
    FindingRowsMeaning(cfg, data, scores, |data|, scanId, s.nextId);
    assert data[..|data|] == data;
    match FindingRows(cfg, data, scores, ZipLength(data, scores), scanId, s.nextId)
    case Some(r) => rows := r;
    case None => rows := [];
  }

  lemma {:induction false} FindingsOfConcat(a: seq<Finding>, b: seq<Finding>, scanId: nat)
    ensures FindingsOf(a + b, scanId) == FindingsOf(a, scanId) + FindingsOf(b, scanId)
  {
    if b == [] {
      assert a + b == a;
    } else {
      FindingsOfConcat(a, b[..|b| - 1], scanId);
      assert (a + b)[..|a + b| - 1] == a + b[..|b| - 1];
    }
  }

  lemma {:induction false} FindingsOfAll(findings: seq<Finding>, scanId: nat, all: bool)
    requires forall f :: f in findings ==> (f.scanId == scanId <==> all)
    ensures FindingsOf(findings, scanId) == if all then findings else []
  {
    if findings != [] {
      var init := findings[..|findings| - 1];
      assert findings == init + [findings[|findings| - 1]];
      FindingsOfAll(init, scanId, all);
    }
  }

  /**
   * An upload succeeds exactly when every finding is storable. Then the findings stored for the scan are
   * those of `evaluate`, one for one and in order, each with its own score (the zip drops none), and their
   * number is reported. Otherwise the scan row stays behind without any finding.
   */
  lemma UploadConservesFindings(cfg: Config, s: State, scan: Scan, data: seq<FindingData>)
    requires scan.scanId == s.nextId
    requires forall f :: f in s.findings ==> f.scanId < s.nextId
    ensures var (t, reply) := StoreFindings(cfg, WithScan(s, scan), scan.scanId, data);
            && t.scans == s.scans + [scan]
            && (if !Unstorable(cfg, data, |data|) then
                  && reply == Uploaded(scan.scanId, |data|)
                  && StoredAsAll(cfg, FindingsOf(t.findings, scan.scanId), data)
                else
                  && reply == ServerError
                  && t.findings == s.findings && FindingsOf(t.findings, scan.scanId) == [])
  {
    var before := WithScan(s, scan);
    var rows := StoredRows(cfg, before, scan.scanId, data);
    assert before.findings == s.findings && before.scans == s.scans + [scan];
    FindingsOfAll(s.findings, scan.scanId, false);
    if StoreFindings(cfg, before, scan.scanId, data).1.Uploaded? {
      NewRowsAreItsFindings(s.findings, rows, scan.scanId, before.nextId);
    }
  }

  lemma NewRowsAreItsFindings(findings: seq<Finding>, rows: seq<Finding>, scanId: nat, firstId: nat)
    requires FindingsOf(findings, scanId) == [] && Numbered(rows, scanId, firstId)
    ensures FindingsOf(findings + rows, scanId) == rows
  {
    FindingsOfConcat(findings, rows, scanId);
    FindingsOfAll(rows, scanId, true);
  }

  /** The findings of scans stored earlier are untouched by a new scan. */
  lemma UploadLeavesOtherScans(cfg: Config, s: State, scan: Scan, data: seq<FindingData>, other: nat)
    requires scan.scanId == s.nextId && other < s.nextId
    ensures FindingsOf(StoreFindings(cfg, WithScan(s, scan), scan.scanId, data).0.findings, other) == FindingsOf(s.findings, other)
  {
    var rows := StoredRows(cfg, WithScan(s, scan), scan.scanId, data);
    FindingsOfConcat(s.findings, rows, other);
    if !Unstorable(cfg, data, |data|) {
      FindingsOfAll(rows, other, false);
    }
  }

  /** How many of the engine's findings have a rule with a control in the framework. */
  function CountData(rows: seq<ComplianceRow>, framework: Framework, data: seq<FindingData>): nat {
    if data == [] then 0
    else CountData(rows, framework, data[..|data| - 1]) +
         (if HasControl(rows, framework, data[|data| - 1].ruleId) then 1 else 0)
  }

  lemma {:induction false} CountSameRules(rows: seq<ComplianceRow>, framework: Framework, stored: seq<Finding>, data: seq<FindingData>)
    requires |stored| == |data| && forall k :: 0 <= k < |data| ==> stored[k].ruleId == data[k].ruleId
    ensures CountWithControl(rows, framework, stored) == CountData(rows, framework, data)
  {
    if data != [] {
      CountSameRules(rows, framework, stored[..|data| - 1], data[..|data| - 1]);
    }
  }

  /**
   * From scan to report: the ids listed in the compliance report of a freshly stored scan are as many as
   * the findings `evaluate` produced whose rule has a control in the framework.
   */
  lemma ScanToReport(cfg: Config, s: State, scan: Scan, data: seq<FindingData>, framework: Framework)
    requires scan.scanId == s.nextId && UniqueRules(cfg.rows)
    requires forall f :: f in s.findings ==> f.scanId < s.nextId
    requires StoreFindings(cfg, WithScan(s, scan), scan.scanId, data).1.Uploaded?
    ensures var t := StoreFindings(cfg, WithScan(s, scan), scan.scanId, data).0;
            var report := ReportFor(cfg.rows, FindingsOf(t.findings, scan.scanId), cfg.titles);
            ListedIds(report.controls, framework) == CountData(cfg.rows, framework, data)
  {
    UploadConservesFindings(cfg, s, scan, data);
    var stored := FindingsOf(StoreFindings(cfg, WithScan(s, scan), scan.scanId, data).0.findings, scan.scanId);
    assert forall k :: 0 <= k < |data| ==> StoredAs(cfg, stored[k], data[k]);
    CountSameRules(cfg.rows, framework, stored, data);
    FindingsConserved(cfg.rows, stored, cfg.titles, framework);
  }
}
