/** The compliance report in plain numbers, and the order of its controls. */
module ReportMeaning {
  import opened Ordering
  import opened Records
  import opened Compliance

  // ---- The counts, framework by framework ----

  ghost predicate HasFinding(findings: seq<Finding>, ruleId: string) {
    exists f :: f in findings && f.ruleId == ruleId
  }

  /** The row names a control of the framework. */
  ghost predicate Names(row: ComplianceRow, framework: Framework) {
    match framework
    case CIS => row.cisControlId != ""
    case NIST => row.nistId != ""
  }

  ghost function NamingRows(rows: seq<ComplianceRow>, framework: Framework): set<int> {
    set i | 0 <= i < |rows| && Names(rows[i], framework)
  }

  ghost function FailingRows(rows: seq<ComplianceRow>, framework: Framework, findings: seq<Finding>): set<int> {
    set i | 0 <= i < |rows| && Names(rows[i], framework) && HasFinding(findings, rows[i].ruleId)
  }

  lemma {:induction false} NamingCount(rows: seq<ComplianceRow>, framework: Framework)
    ensures TotalRows(rows, framework) == |NamingRows(rows, framework)|
  {
    if rows == [] {
      assert NamingRows(rows, framework) == {};
    } else {
      var n := |rows| - 1;
      NamingCount(rows[..n], framework);
      NamingRowsAppend(rows, framework);
    }
  }

  lemma NamingRowsAppend(rows: seq<ComplianceRow>, framework: Framework)
    requires rows != []
    ensures var n := |rows| - 1;
            NamingRows(rows, framework) == NamingRows(rows[..n], framework) + (if Names(rows[n], framework) then {n} else {})
  {
  }

  lemma FailingRuleHasFinding(findings: seq<Finding>, ruleId: string)
    ensures ruleId in FailingRules(findings) <==> HasFinding(findings, ruleId)
  {
  }

  lemma {:induction false} FailingCount(rows: seq<ComplianceRow>, framework: Framework, findings: seq<Finding>)
    ensures FailedRows(rows, framework, FailingRules(findings)) == |FailingRows(rows, framework, findings)|
  {
    if rows == [] {
      assert FailingRows(rows, framework, findings) == {};
    } else {
      var n := |rows| - 1;
      FailingCount(rows[..n], framework, findings);
      FailingRuleHasFinding(findings, rows[n].ruleId);
      FailingRowsAppend(rows, framework, findings);
    }
  }

  lemma FailingRowsAppend(rows: seq<ComplianceRow>, framework: Framework, findings: seq<Finding>)
    requires rows != []
    ensures var n := |rows| - 1;
            FailingRows(rows, framework, findings) ==
            FailingRows(rows[..n], framework, findings) +
            (if Names(rows[n], framework) && HasFinding(findings, rows[n].ruleId) then {n} else {})
  {
  }

  ghost predicate Sums(counts: Counts, rows: seq<ComplianceRow>, framework: Framework, findings: seq<Finding>) {
    && counts.total == |NamingRows(rows, framework)|
    && counts.failed == |FailingRows(rows, framework, findings)|
    && counts.passed == counts.total - counts.failed
  }

  /** With unique rules total counts the rows with an id of the framework, failed those whose rule has a finding, passed the rest. */
  lemma SummaryInNumbers(rows: seq<ComplianceRow>, findings: seq<Finding>, titles: map<string, string>)
    requires UniqueRules(rows)
    ensures Sums(ReportFor(rows, findings, titles).frameworks.cis, rows, CIS, findings)
    ensures Sums(ReportFor(rows, findings, titles).frameworks.nist, rows, NIST, findings)
  {
    forall framework
      ensures Sums(ReportFor(rows, findings, titles).frameworks.At(framework), rows, framework, findings)
    {
      ReportCounts(rows, findings, titles, framework);
      NamingCount(rows, framework);
      FailingCount(rows, framework, findings);
    }
    var summary := ReportFor(rows, findings, titles).frameworks;
    assert summary.At(CIS) == summary.cis && summary.At(NIST) == summary.nist;
  }

  // ---- The order of the controls ----

  /** By rule, in string order, and for one rule CIS before NIST. */
  ghost predicate Follows(c: Control, d: Control) {
    StrLe(c.ruleId, d.ruleId) && (c.ruleId == d.ruleId ==> c.framework == CIS && d.framework == NIST)
  }

  lemma RowControlsInOrder(row: ComplianceRow, findings: seq<Finding>, titles: map<string, string>)
    ensures var cs := RowControls(row, findings, titles);
            (forall c :: c in cs ==> c.ruleId == row.ruleId) && |cs| <= 2 && (|cs| == 2 ==> cs[0].framework == CIS && cs[1].framework == NIST)
  {
  }

  lemma EarlierRule(rows: seq<ComplianceRow>, findings: seq<Finding>, titles: map<string, string>, c: Control)
    requires UniqueRules(rows) && SortedBy(RuleOf, rows) && rows != []
    requires c in ControlsOf(rows[..|rows| - 1], findings, titles)
    ensures StrLe(c.ruleId, rows[|rows| - 1].ruleId) && c.ruleId != rows[|rows| - 1].ruleId
  {
    var n := |rows| - 1;
    ControlsMember(rows[..n], findings, titles, c);
    var i :| 0 <= i < n && rows[i].ruleId == c.ruleId;
    assert StrLe(RuleOf(rows[i]), RuleOf(rows[n]));
  }

  lemma {:induction false} ControlsInOrder(rows: seq<ComplianceRow>, findings: seq<Finding>, titles: map<string, string>, a: nat, b: nat)
    requires UniqueRules(rows) && SortedBy(RuleOf, rows) && a < b < |ControlsOf(rows, findings, titles)|
    ensures Follows(ControlsOf(rows, findings, titles)[a], ControlsOf(rows, findings, titles)[b])
  {
    var n := |rows| - 1;
    var before, row := ControlsOf(rows[..n], findings, titles), RowControls(rows[n], findings, titles);
    RowControlsInOrder(rows[n], findings, titles);
    if b < |before| {
      ControlsInOrder(rows[..n], findings, titles, a, b);
    } else if a < |before| {
      EarlierRule(rows, findings, titles, before[a]);
      assert row[b - |before|] in row;
    } else {
      assert row[a - |before|] in row && row[b - |before|] in row;
      StrLeTotal(rows[n].ruleId, rows[n].ruleId);
    }
  }

  /** The controls come rule by rule, in string order. */
  lemma ReportInOrder(rows: seq<ComplianceRow>, findings: seq<Finding>, titles: map<string, string>, a: nat, b: nat)
    requires UniqueRules(rows) && a < b < |ReportFor(rows, findings, titles).controls|
    ensures Follows(ReportFor(rows, findings, titles).controls[a], ReportFor(rows, findings, titles).controls[b])
  {
    SortKeepsUnique(rows);
    SortByProperties(RuleOf, rows);
    ControlsInOrder(SortBy(RuleOf, rows), findings, titles, a, b);
  }
}
