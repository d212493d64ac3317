/** CIS/NIST aggregation of a scan's findings over the compliance map. */
module Compliance {
  import opened Prelude
  import opened Ordering
  import opened Records

  datatype Framework = CIS | NIST

  datatype Status = PASS | FAIL

  datatype Control = Control(
    controlId: string, framework: Framework, ruleId: string, status: Status, title: string,
    findingIds: seq<nat>, remediation: string)

  datatype Counts = Counts(passed: nat, failed: nat, total: nat)

  datatype Summary = Summary(cis: Counts, nist: Counts) {
    function At(framework: Framework): Counts {
      if framework == CIS then cis else nist
    }
  }

  datatype Report = Report(frameworks: Summary, controls: seq<Control>)

  predicate Mapped(rows: seq<ComplianceRow>, ruleId: string) {
    exists row :: row in rows && row.ruleId == ruleId
  }

  // ---- _finding_ids_by_rule ----

  /** The ids of the findings of one rule, in order. */
  function IdsOfRule(findings: seq<Finding>, ruleId: string): seq<nat> {
    if findings == [] then []
    else
      var before, f := IdsOfRule(findings[..|findings| - 1], ruleId), findings[|findings| - 1];
      if f.ruleId == ruleId then before + [f.findingId] else before
  }

  /** Grouped ids: each mapped rule that has findings, with exactly its own ids in order. */
  ghost predicate Groups(rows: seq<ComplianceRow>, findings: seq<Finding>, byRule: map<string, seq<nat>>) {
    forall rule ::
      && (rule in byRule <==> Mapped(rows, rule) && IdsOfRule(findings, rule) != [])
      && (rule in byRule ==> byRule[rule] == IdsOfRule(findings, rule))
  }

  method FindingIdsByRule(rows: seq<ComplianceRow>, findings: seq<Finding>) returns (byRule: map<string, seq<nat>>)
    ensures Groups(rows, findings, byRule)
  {
    byRule := map[];
    for i := 0 to |findings|
      invariant Groups(rows, findings[..i], byRule)
    {
      PrefixStep(findings, i);
      var f := findings[i];
      if !Mapped(rows, f.ruleId) {
        continue;
      }
      var ids := if f.ruleId in byRule then byRule[f.ruleId] else [];
      byRule := byRule[f.ruleId := ids + [f.findingId]];
    }
    assert findings[..|findings|] == findings;
  }

  // ---- _control_rows ----

  function RuleOf(row: ComplianceRow): string { row.ruleId }

  function ControlIdOf(row: ComplianceRow, framework: Framework): string {
    if framework == CIS then row.cisControlId else row.nistId
  }

  function ControlFor(row: ComplianceRow, framework: Framework, findings: seq<Finding>, titles: map<string, string>): Control {
    var ids := IdsOfRule(findings, row.ruleId);
    Control(ControlIdOf(row, framework), framework, row.ruleId, if ids != [] then FAIL else PASS,
            if row.ruleId in titles then titles[row.ruleId] else row.ruleId, ids, row.remediation)
  }

  function RowControls(row: ComplianceRow, findings: seq<Finding>, titles: map<string, string>): seq<Control> {
    (if row.cisControlId != "" then [ControlFor(row, CIS, findings, titles)] else []) +
    (if row.nistId != "" then [ControlFor(row, NIST, findings, titles)] else [])
  }

  function ControlsOf(rows: seq<ComplianceRow>, findings: seq<Finding>, titles: map<string, string>): seq<Control> {
    if rows == [] then []
    else ControlsOf(rows[..|rows| - 1], findings, titles) + RowControls(rows[|rows| - 1], findings, titles)
  }

  lemma GroupedIds(rows: seq<ComplianceRow>, findings: seq<Finding>, byRule: map<string, seq<nat>>, row: ComplianceRow)
    requires Groups(rows, findings, byRule) && row in rows
    ensures (if row.ruleId in byRule then byRule[row.ruleId] else []) == IdsOfRule(findings, row.ruleId)
  {
  }

  /** One or two entries for a row. */
  method RowEntries(row: ComplianceRow, ghost findings: seq<Finding>, findingIds: seq<nat>, titles: map<string, string>)
    returns (entries: seq<Control>)
    requires findingIds == IdsOfRule(findings, row.ruleId)
    ensures entries == RowControls(row, findings, titles)
  {
    entries := [];
    var status := if findingIds != [] then FAIL else PASS;
    var title := if row.ruleId in titles then titles[row.ruleId] else row.ruleId;
    if row.cisControlId != "" {
      entries := entries + [Control(row.cisControlId, CIS, row.ruleId, status, title, findingIds, row.remediation)];
    }
    if row.nistId != "" {
      entries := entries + [Control(row.nistId, NIST, row.ruleId, status, title, findingIds, row.remediation)];
    }
  }

  method ControlRows(rows: seq<ComplianceRow>, ghost findings: seq<Finding>, byRule: map<string, seq<nat>>, titles: map<string, string>)
    returns (controls: seq<Control>)
    requires Groups(rows, findings, byRule)
    ensures controls == ControlsOf(SortBy(RuleOf, rows), findings, titles)
  {
    var sorted := SortBy(RuleOf, rows);
    controls := [];
    for i := 0 to |sorted|
      invariant controls == ControlsOf(sorted[..i], findings, titles)
    {
      PrefixStep(sorted, i);
      var row := sorted[i];
      SortByMember(RuleOf, rows, row);
      GroupedIds(rows, findings, byRule, row);
      var findingIds := if row.ruleId in byRule then byRule[row.ruleId] else [];
      var entries := RowEntries(row, findings, findingIds, titles);
      controls := controls + entries;
    }
    assert sorted[..|sorted|] == sorted;
  }

  // ---- _framework_summary ----

  function ControlKey(c: Control): (Framework, string, string) {
    (c.framework, c.controlId, c.ruleId)
  }

  function Counted(counts: Counts, status: Status): Counts {
    Counts(counts.passed + (if status == FAIL then 0 else 1), counts.failed + (if status == FAIL then 1 else 0), counts.total + 1)
  }

  function Bump(summary: Summary, c: Control): Summary {
    if c.framework == CIS then summary.(cis := Counted(summary.cis, c.status))
    else summary.(nist := Counted(summary.nist, c.status))
  }

  const NOTHING := Summary(Counts(0, 0, 0), Counts(0, 0, 0))

  /** Every control is counted once: a control whose key came before is skipped. */
  function SummaryOf(controls: seq<Control>): Summary {
    if controls == [] then NOTHING
    else
      var init, last := controls[..|controls| - 1], controls[|controls| - 1];
      if ControlKey(last) in Keys(ControlKey, init) then SummaryOf(init) else Bump(SummaryOf(init), last)
  }

  method FrameworkSummary(controls: seq<Control>) returns (summary: Summary)
    ensures summary == SummaryOf(controls)
  {
    summary := NOTHING;
    var seen: set<(Framework, string, string)> := {};
    for i := 0 to |controls|
      invariant seen == Keys(ControlKey, controls[..i])
      invariant summary == SummaryOf(controls[..i])
    {
      PrefixStep(controls, i);
      KeysAppend(ControlKey, controls[..i], controls[i]);
      var key := ControlKey(controls[i]);
      if key in seen {
        continue;
      }
      seen := seen + {key};
      summary := Bump(summary, controls[i]);
    }
    assert controls[..|controls|] == controls;
  }

  // ---- build_compliance ----

  function ReportFor(rows: seq<ComplianceRow>, findings: seq<Finding>, titles: map<string, string>): Report {
    var controls := ControlsOf(SortBy(RuleOf, rows), findings, titles);
    Report(SummaryOf(controls), controls)
  }

  method BuildCompliance(rows: seq<ComplianceRow>, findings: seq<Finding>, titles: map<string, string>) returns (report: Report)
    ensures report == ReportFor(rows, findings, titles)
  {
    var byRule := FindingIdsByRule(rows, findings);
    var controls := ControlRows(rows, findings, byRule, titles);
    var summary := FrameworkSummary(controls);
    report := Report(summary, controls);
  }

  // ---- Reference counts ----

  /** Rule ids are the primary key of the compliance map. */
  ghost predicate UniqueRules(rows: seq<ComplianceRow>) {
    forall i, j :: 0 <= i < j < |rows| ==> rows[i].ruleId != rows[j].ruleId
  }

  /** The rules that have a finding. */
  function FailingRules(findings: seq<Finding>): set<string> {
    set f | f in findings :: f.ruleId
  }

  function TotalOne(row: ComplianceRow, framework: Framework): nat {
    if ControlIdOf(row, framework) != "" then 1 else 0
  }

  function FailedOne(row: ComplianceRow, framework: Framework, failing: set<string>): nat {
    if ControlIdOf(row, framework) != "" && row.ruleId in failing then 1 else 0
  }

  function TotalRows(rows: seq<ComplianceRow>, framework: Framework): nat {
    if rows == [] then 0
    else TotalRows(rows[..|rows| - 1], framework) + TotalOne(rows[|rows| - 1], framework)
  }

  function FailedRows(rows: seq<ComplianceRow>, framework: Framework, failing: set<string>): nat {
    if rows == [] then 0
    else FailedRows(rows[..|rows| - 1], framework, failing) + FailedOne(rows[|rows| - 1], framework, failing)
  }

  lemma {:induction false} IdsOfRuleEmpty(findings: seq<Finding>, ruleId: string)
    ensures IdsOfRule(findings, ruleId) != [] <==> ruleId in FailingRules(findings)
  {
    if findings != [] {
      var init, f := findings[..|findings| - 1], findings[|findings| - 1];
      assert findings == init + [f];
      IdsOfRuleEmpty(init, ruleId);
      assert FailingRules(findings) == FailingRules(init) + {f.ruleId};
    }
  }

  lemma {:induction false} ControlsMember(rows: seq<ComplianceRow>, findings: seq<Finding>, titles: map<string, string>, c: Control)
    ensures c in ControlsOf(rows, findings, titles) <==>
            exists row :: row in rows && ControlIdOf(row, c.framework) != "" && c == ControlFor(row, c.framework, findings, titles)
  {
    if rows != [] {
      var init, row := rows[..|rows| - 1], rows[|rows| - 1];
      ControlsMember(init, findings, titles, c);
      RowControlsMember(row, findings, titles, c);
      assert forall r :: r in rows <==> r in init || r == row;
    }
  }

  lemma RowControlsMember(row: ComplianceRow, findings: seq<Finding>, titles: map<string, string>, c: Control)
    ensures c in RowControls(row, findings, titles) <==>
            ControlIdOf(row, c.framework) != "" && c == ControlFor(row, c.framework, findings, titles)
  {
  }

  /** With unique rules the duplicate check never fires, and the counts are the plain ones. */
  lemma {:induction false} SummaryCounts(rows: seq<ComplianceRow>, findings: seq<Finding>, titles: map<string, string>, framework: Framework)
    requires UniqueRules(rows)
    ensures var counts := SummaryOf(ControlsOf(rows, findings, titles)).At(framework);
            && counts.total == TotalRows(rows, framework)
            && counts.failed == FailedRows(rows, framework, FailingRules(findings))
            && counts.passed + counts.failed == counts.total
  {
    if rows != [] {
      var n := |rows| - 1;
      var init, row := rows[..n], rows[n];
      SummaryCounts(init, findings, titles, framework);
      IdsOfRuleEmpty(findings, row.ruleId);
      var before := ControlsOf(init, findings, titles);
      forall c | c in before
        ensures c.ruleId != row.ruleId
      {
        ControlsMember(init, findings, titles, c);
      }
      AddRow(before, row, findings, titles);
    }
  }

  /** The controls of a row whose rule has not been seen are all counted. */
  lemma AddRow(before: seq<Control>, row: ComplianceRow, findings: seq<Finding>, titles: map<string, string>)
    requires forall c :: c in before ==> c.ruleId != row.ruleId
    ensures var s, t := SummaryOf(before), SummaryOf(before + RowControls(row, findings, titles));
            var status := if IdsOfRule(findings, row.ruleId) != [] then FAIL else PASS;
            && t.cis == (if row.cisControlId != "" then Counted(s.cis, status) else s.cis)
            && t.nist == (if row.nistId != "" then Counted(s.nist, status) else s.nist)
  {
    var cis, nist := ControlFor(row, CIS, findings, titles), ControlFor(row, NIST, findings, titles);
    if row.cisControlId != "" {
      AddControl(before, cis);
    }
    if row.nistId != "" {
      AddControl(before, nist);
      AddControl(before + [cis], nist);
    }
    var added := RowControls(row, findings, titles);
    if row.cisControlId != "" && row.nistId != "" {
      assert before + added == before + [cis] + [nist];
    } else if row.cisControlId != "" {
      assert before + added == before + [cis];
    } else if row.nistId != "" {
      assert before + added == before + [nist];
    } else {
      assert before + added == before;
    }
  }

  lemma AddControl(before: seq<Control>, c: Control)
    requires forall d :: d in before ==> ControlKey(d) != ControlKey(c)
    ensures SummaryOf(before + [c]) == Bump(SummaryOf(before), c)
  {
  }

  // ---- Sorting the rows changes no count ----

  lemma CountsAppend(rows: seq<ComplianceRow>, row: ComplianceRow, framework: Framework, failing: set<string>)
    ensures TotalRows(rows + [row], framework) == TotalRows(rows, framework) + TotalOne(row, framework)
    ensures FailedRows(rows + [row], framework, failing) == FailedRows(rows, framework, failing) + FailedOne(row, framework, failing)
  {
  }

  lemma {:induction false} InsertKeepsCounts(row: ComplianceRow, rows: seq<ComplianceRow>, framework: Framework, failing: set<string>)
    ensures TotalRows(InsertBy(RuleOf, row, rows), framework) == TotalRows(rows, framework) + TotalOne(row, framework)
    ensures FailedRows(InsertBy(RuleOf, row, rows), framework, failing) ==
            FailedRows(rows, framework, failing) + FailedOne(row, framework, failing)
  {
    CountsAppend(rows, row, framework, failing);
    if rows == [] {
      assert [] + [row] == [row];
    } else {
      var init, last := rows[..|rows| - 1], rows[|rows| - 1];
      if !StrLe(RuleOf(last), RuleOf(row)) {
        InsertKeepsCounts(row, init, framework, failing);
        CountsAppend(InsertBy(RuleOf, row, init), last, framework, failing);
      }
    }
  }

  lemma {:induction false} SortKeepsCounts(rows: seq<ComplianceRow>, framework: Framework, failing: set<string>)
    ensures TotalRows(SortBy(RuleOf, rows), framework) == TotalRows(rows, framework)
    ensures FailedRows(SortBy(RuleOf, rows), framework, failing) == FailedRows(rows, framework, failing)
  {
    if rows != [] {
      var init := rows[..|rows| - 1];
      SortKeepsCounts(init, framework, failing);
      InsertKeepsCounts(rows[|rows| - 1], SortBy(RuleOf, init), framework, failing);
    }
  }

  lemma {:induction false} InsertKeepsUnique(row: ComplianceRow, rows: seq<ComplianceRow>)
    requires UniqueRules(rows) && forall r :: r in rows ==> r.ruleId != row.ruleId
    ensures UniqueRules(InsertBy(RuleOf, row, rows))
    ensures forall r :: r in InsertBy(RuleOf, row, rows) <==> r in rows || r == row
  {
    if rows != [] {
      var init, last := rows[..|rows| - 1], rows[|rows| - 1];
      assert rows == init + [last];
      if !StrLe(RuleOf(last), RuleOf(row)) {
        InsertKeepsUnique(row, init);
        var r := InsertBy(RuleOf, row, init);
        forall x | x in r
          ensures x.ruleId != last.ruleId
        {
          assert last in rows;
        }
        forall i, j | 0 <= i < j < |r + [last]|
          ensures (r + [last])[i].ruleId != (r + [last])[j].ruleId
        {
          assert r[i] in r;
        }
      }
    }
  }

  lemma {:induction false} SortKeepsUnique(rows: seq<ComplianceRow>)
    requires UniqueRules(rows)
    ensures UniqueRules(SortBy(RuleOf, rows))
  {
    if rows != [] {
      var init := rows[..|rows| - 1];
      SortKeepsUnique(init);
      forall r | r in SortBy(RuleOf, init)
        ensures r.ruleId != rows[|rows| - 1].ruleId
      {
        SortByMember(RuleOf, init, r);
      }
      InsertKeepsUnique(rows[|rows| - 1], SortBy(RuleOf, init));
    }
  }

  /**
   * The summary counts what it says: total the rows with a control id, failed those of them whose rule has
   * a finding, passed the rest.
   */
  lemma ReportCounts(rows: seq<ComplianceRow>, findings: seq<Finding>, titles: map<string, string>, framework: Framework)
    requires UniqueRules(rows)
    ensures var counts := ReportFor(rows, findings, titles).frameworks.At(framework);
            && counts.total == TotalRows(rows, framework)
            && counts.failed == FailedRows(rows, framework, FailingRules(findings))
            && counts.passed + counts.failed == counts.total
  {
    SortKeepsUnique(rows);
    SortKeepsCounts(rows, framework, FailingRules(findings));
    SummaryCounts(SortBy(RuleOf, rows), findings, titles, framework);
  }

  // ---- Distinct controls ----

  /** The control ids the map names in a framework. */
  ghost function ControlIds(rows: seq<ComplianceRow>, framework: Framework): set<string> {
    set row | row in rows && ControlIdOf(row, framework) != "" :: ControlIdOf(row, framework)
  }

  ghost predicate SharesId(rows: seq<ComplianceRow>, framework: Framework) {
    exists i, j :: 0 <= i < j < |rows| &&
      ControlIdOf(rows[i], framework) == ControlIdOf(rows[j], framework) && ControlIdOf(rows[i], framework) != ""
  }

  lemma SharesIdAppend(init: seq<ComplianceRow>, row: ComplianceRow, framework: Framework)
    ensures SharesId(init + [row], framework) <==>
            SharesId(init, framework) || ControlIdOf(row, framework) in ControlIds(init, framework)
  {
    var rows := init + [row];
    if i, j :| 0 <= i < j < |init| && ControlIdOf(init[i], framework) == ControlIdOf(init[j], framework)
               && ControlIdOf(init[i], framework) != "" {
      assert ControlIdOf(rows[i], framework) == ControlIdOf(rows[j], framework);
    }
    if i :| 0 <= i < |init| && ControlIdOf(init[i], framework) == ControlIdOf(row, framework)
            && ControlIdOf(row, framework) != "" {
      assert ControlIdOf(rows[i], framework) == ControlIdOf(rows[|init|], framework);
    }
  }

  lemma {:induction false} TotalRowsAndIds(rows: seq<ComplianceRow>, framework: Framework)
    ensures TotalRows(rows, framework) >= |ControlIds(rows, framework)|
    ensures TotalRows(rows, framework) == |ControlIds(rows, framework)| <==> !SharesId(rows, framework)
  {
    if rows == [] {
      assert ControlIds(rows, framework) == {};
    } else {
      var init, row := rows[..|rows| - 1], rows[|rows| - 1];
      assert rows == init + [row];
      TotalRowsAndIds(init, framework);
      SharesIdAppend(init, row, framework);
      ControlIdsAppend(init, row, framework);
    }
  }

  lemma ControlIdsAppend(init: seq<ComplianceRow>, row: ComplianceRow, framework: Framework)
    ensures ControlIds(init + [row], framework) ==
            ControlIds(init, framework) + (if ControlIdOf(row, framework) != "" then {ControlIdOf(row, framework)} else {})
  {
  }

  /** The reported total is the number of distinct control ids exactly when no two rows of the map share one. */
  lemma TotalIsDistinctExactly(rows: seq<ComplianceRow>, findings: seq<Finding>, titles: map<string, string>, framework: Framework)
    requires UniqueRules(rows)
    ensures var total := ReportFor(rows, findings, titles).frameworks.At(framework).total;
            && total >= |ControlIds(rows, framework)|
            && (total == |ControlIds(rows, framework)| <==> !SharesId(rows, framework))
  {
    ReportCounts(rows, findings, titles, framework);
    TotalRowsAndIds(rows, framework);
  }

  /** The rows seeded for the two wildcard rules: one CIS control and one NIST subcategory between them. */
  const WILDCARD_ACTIONS := ComplianceRow("CIS-AWS-003", "1.16", "PR.AC-4",
    "Replace wildcard actions with specific actions following the principle of least privilege.")
  const WILDCARD_PRINCIPALS := ComplianceRow("CIS-AWS-005", "1.16", "PR.AC-4",
    "Remove wildcard principals; grant access only to specific, trusted principals.")

  /** So a map that has both, as the shipped one does, reports more controls in each framework than it names. */
  lemma WildcardRulesCountTwice(rows: seq<ComplianceRow>, findings: seq<Finding>, titles: map<string, string>, framework: Framework)
    requires UniqueRules(rows) && WILDCARD_ACTIONS in rows && WILDCARD_PRINCIPALS in rows
    ensures ReportFor(rows, findings, titles).frameworks.At(framework).total > |ControlIds(rows, framework)|
  {
    TotalIsDistinctExactly(rows, findings, titles, framework);
    assert WILDCARD_ACTIONS.ruleId[10] != WILDCARD_PRINCIPALS.ruleId[10];
    var i, j :| 0 <= i < |rows| && 0 <= j < |rows| && rows[i] == WILDCARD_ACTIONS && rows[j] == WILDCARD_PRINCIPALS;
    var a, b := if i < j then i else j, if i < j then j else i;
    assert ControlIdOf(rows[a], framework) == ControlIdOf(rows[b], framework);
    assert ControlIdOf(rows[a], framework) != "";
  }

  /** The `seen` check of the summary never skips a control. */
  lemma NoControlIsSkipped(rows: seq<ComplianceRow>, findings: seq<Finding>, titles: map<string, string>)
    requires UniqueRules(rows)
    ensures forall i, j :: 0 <= i < j < |ReportFor(rows, findings, titles).controls| ==>
              ControlKey(ReportFor(rows, findings, titles).controls[i]) != ControlKey(ReportFor(rows, findings, titles).controls[j])
  {
    SortKeepsUnique(rows);
    ControlKeysDistinct(SortBy(RuleOf, rows), findings, titles);
  }

  lemma {:induction false} ControlKeysDistinct(rows: seq<ComplianceRow>, findings: seq<Finding>, titles: map<string, string>)
    requires UniqueRules(rows)
    ensures forall i, j :: 0 <= i < j < |ControlsOf(rows, findings, titles)| ==>
              ControlKey(ControlsOf(rows, findings, titles)[i]) != ControlKey(ControlsOf(rows, findings, titles)[j])
  {
    if rows != [] {
      var init, row := rows[..|rows| - 1], rows[|rows| - 1];
      ControlKeysDistinct(init, findings, titles);
      var before := ControlsOf(init, findings, titles);
      forall i | 0 <= i < |before|
        ensures before[i].ruleId != row.ruleId
      {
        ControlsMember(init, findings, titles, before[i]);
      }
    }
  }

  lemma {:induction false} FailedRowsMonotone(rows: seq<ComplianceRow>, framework: Framework, a: set<string>, b: set<string>)
    requires a <= b
    ensures FailedRows(rows, framework, a) <= FailedRows(rows, framework, b)
  {
    if rows != [] {
      FailedRowsMonotone(rows[..|rows| - 1], framework, a, b);
    }
  }

  /** More findings never lower the number of failed controls, in either framework. */
  lemma MoreFindingsFailMore(rows: seq<ComplianceRow>, fewer: seq<Finding>, more: seq<Finding>, titles: map<string, string>, framework: Framework)
    requires UniqueRules(rows)
    requires forall f :: f in fewer ==> f in more
    ensures ReportFor(rows, fewer, titles).frameworks.At(framework).failed <=
            ReportFor(rows, more, titles).frameworks.At(framework).failed
  {
    ReportCounts(rows, fewer, titles, framework);
    ReportCounts(rows, more, titles, framework);
    FailedRowsMonotone(rows, framework, FailingRules(fewer), FailingRules(more));
  }

  /** The lists differ in nothing but the finding ids. */
  ghost predicate AlikeButIds(a: seq<Control>, b: seq<Control>) {
    |a| == |b| && forall i :: 0 <= i < |a| ==> a[i].(findingIds := []) == b[i].(findingIds := [])
  }

  lemma RowStatusDependsOnFailing(row: ComplianceRow, a: seq<Finding>, b: seq<Finding>, titles: map<string, string>)
    requires FailingRules(a) == FailingRules(b)
    ensures AlikeButIds(RowControls(row, a, titles), RowControls(row, b, titles))
  {
    IdsOfRuleEmpty(a, row.ruleId);
    IdsOfRuleEmpty(b, row.ruleId);
  }

  lemma {:induction false} StatusesDependOnFailing(rows: seq<ComplianceRow>, a: seq<Finding>, b: seq<Finding>, titles: map<string, string>)
    requires FailingRules(a) == FailingRules(b)
    ensures AlikeButIds(ControlsOf(rows, a, titles), ControlsOf(rows, b, titles))
  {
    if rows != [] {
      StatusesDependOnFailing(rows[..|rows| - 1], a, b, titles);
      RowStatusDependsOnFailing(rows[|rows| - 1], a, b, titles);
    }
  }

  lemma {:induction false} SummaryIgnoresIds(a: seq<Control>, b: seq<Control>)
    requires AlikeButIds(a, b)
    ensures SummaryOf(a) == SummaryOf(b)
    ensures Keys(ControlKey, a) == Keys(ControlKey, b)
  {
    if a != [] {
      var n := |a| - 1;
      SummaryIgnoresIds(a[..n], b[..n]);
      assert a == a[..n] + [a[n]] && b == b[..n] + [b[n]];
      KeysAppend(ControlKey, a[..n], a[n]);
      KeysAppend(ControlKey, b[..n], b[n]);
      assert ControlKey(a[n]) == ControlKey(b[n]) by {
        assert a[n].(findingIds := []) == b[n].(findingIds := []);
      }
    }
  }

  /** Reordering the findings leaves every status and the whole summary unchanged; only the id lists are reordered. */
  lemma OrderOfFindingsIrrelevant(rows: seq<ComplianceRow>, a: seq<Finding>, b: seq<Finding>, titles: map<string, string>)
    requires multiset(a) == multiset(b)
    ensures ReportFor(rows, a, titles).frameworks == ReportFor(rows, b, titles).frameworks
    ensures |ReportFor(rows, a, titles).controls| == |ReportFor(rows, b, titles).controls|
    ensures forall i :: 0 <= i < |ReportFor(rows, a, titles).controls| ==>
              var c, d := ReportFor(rows, a, titles).controls[i], ReportFor(rows, b, titles).controls[i];
              c.(findingIds := []) == d.(findingIds := []) && multiset(c.findingIds) == multiset(d.findingIds)
  {
    assert forall f :: f in a <==> f in multiset(a);
    assert forall f :: f in b <==> f in multiset(b);
    assert FailingRules(a) == FailingRules(b);
    var sorted := SortBy(RuleOf, rows);
    StatusesDependOnFailing(sorted, a, b, titles);
    SummaryIgnoresIds(ControlsOf(sorted, a, titles), ControlsOf(sorted, b, titles));
    forall i | 0 <= i < |ControlsOf(sorted, a, titles)|
      ensures multiset(ControlsOf(sorted, a, titles)[i].findingIds) == multiset(ControlsOf(sorted, b, titles)[i].findingIds)
    {
      var c, d := ControlsOf(sorted, a, titles)[i], ControlsOf(sorted, b, titles)[i];
      ControlsMember(sorted, a, titles, c);
      ControlsMember(sorted, b, titles, d);
      assert c.(findingIds := []) == d.(findingIds := []);
      IdsOfRulePermuted(a, b, c.ruleId);
    }
  }

  lemma {:induction false} IdsOfRuleConcat(a: seq<Finding>, b: seq<Finding>, ruleId: string)
    ensures IdsOfRule(a + b, ruleId) == IdsOfRule(a, ruleId) + IdsOfRule(b, ruleId)
  {
    if b == [] {
      assert a + b == a;
    } else {
      IdsOfRuleConcat(a, b[..|b| - 1], ruleId);
      assert (a + b)[..|a + b| - 1] == a + b[..|b| - 1];
    }
  }

  lemma IdsOfRuleAround(before: seq<Finding>, f: Finding, after: seq<Finding>, ruleId: string)
    ensures multiset(IdsOfRule(before + [f] + after, ruleId)) ==
            multiset(IdsOfRule(before + after, ruleId)) + multiset(IdsOfRule([f], ruleId))
  {
    IdsOfRuleConcat(before, after, ruleId);
    IdsOfRuleConcat(before + [f], after, ruleId);
    IdsOfRuleConcat(before, [f], ruleId);
  }

  lemma {:induction false} IdsOfRulePermuted(a: seq<Finding>, b: seq<Finding>, ruleId: string)
    requires multiset(a) == multiset(b)
    ensures multiset(IdsOfRule(a, ruleId)) == multiset(IdsOfRule(b, ruleId))
  {
    if a == [] {
      assert |multiset(b)| == 0;
    } else {
      var n := |a| - 1;
      var f := a[n];
      assert a == a[..n] + [f];
      assert f in multiset(b);
      var k :| 0 <= k < |b| && b[k] == f;
      var before, after := b[..k], b[k + 1..];
      assert b == before + [f] + after;
      assert multiset(a[..n]) == multiset(a) - multiset{f};
      assert multiset(before + after) == multiset(b) - multiset{f};
      IdsOfRulePermuted(a[..n], before + after, ruleId);
      IdsOfRuleAround(before, f, after, ruleId);
      IdsOfRuleConcat(a[..n], [f], ruleId);
    }
  }

  // ---- Findings are conserved into the report ----

  function ListedIds(controls: seq<Control>, framework: Framework): nat {
    if controls == [] then 0
    else
      var c := controls[|controls| - 1];
      ListedIds(controls[..|controls| - 1], framework) + (if c.framework == framework then |c.findingIds| else 0)
  }

  predicate HasControl(rows: seq<ComplianceRow>, framework: Framework, ruleId: string) {
    exists row :: row in rows && row.ruleId == ruleId && ControlIdOf(row, framework) != ""
  }

  function CountWithControl(rows: seq<ComplianceRow>, framework: Framework, findings: seq<Finding>): nat {
    if findings == [] then 0
    else CountWithControl(rows, framework, findings[..|findings| - 1]) +
         (if HasControl(rows, framework, findings[|findings| - 1].ruleId) then 1 else 0)
  }

  lemma {:induction false} ListedConcat(a: seq<Control>, b: seq<Control>, framework: Framework)
    ensures ListedIds(a + b, framework) == ListedIds(a, framework) + ListedIds(b, framework)
  {
    if b == [] {
      assert a + b == a;
    } else {
      ListedConcat(a, b[..|b| - 1], framework);
      assert (a + b)[..|a + b| - 1] == a + b[..|b| - 1];
    }
  }

  lemma RowListed(row: ComplianceRow, findings: seq<Finding>, titles: map<string, string>, framework: Framework)
    ensures ListedIds(RowControls(row, findings, titles), framework) ==
            if ControlIdOf(row, framework) != "" then |IdsOfRule(findings, row.ruleId)| else 0
  {
    var cis := if row.cisControlId != "" then [ControlFor(row, CIS, findings, titles)] else [];
    var nist := if row.nistId != "" then [ControlFor(row, NIST, findings, titles)] else [];
    ListedConcat(cis, nist, framework);
    OneListed(ControlFor(row, CIS, findings, titles), framework);
    OneListed(ControlFor(row, NIST, findings, titles), framework);
  }

  lemma OneListed(c: Control, framework: Framework)
    ensures ListedIds([c], framework) == if c.framework == framework then |c.findingIds| else 0
  {
  }

  lemma OneMoreInRow(row: ComplianceRow, findings: seq<Finding>, f: Finding, titles: map<string, string>, framework: Framework)
    ensures ListedIds(RowControls(row, findings + [f], titles), framework) ==
            ListedIds(RowControls(row, findings, titles), framework) +
            (if row.ruleId == f.ruleId && ControlIdOf(row, framework) != "" then 1 else 0)
  {
    RowListed(row, findings, titles, framework);
    RowListed(row, findings + [f], titles, framework);
    assert (findings + [f])[..|findings|] == findings;
  }

  lemma HasControlAppend(init: seq<ComplianceRow>, row: ComplianceRow, framework: Framework, ruleId: string)
    ensures HasControl(init + [row], framework, ruleId) <==>
            HasControl(init, framework, ruleId) || (row.ruleId == ruleId && ControlIdOf(row, framework) != "")
  {
  }

  /** One more finding adds one listed id, if its rule has a control in the framework, and none otherwise. */
  lemma {:induction false} OneMoreFinding(rows: seq<ComplianceRow>, findings: seq<Finding>, f: Finding, titles: map<string, string>, framework: Framework)
    requires UniqueRules(rows)
    ensures ListedIds(ControlsOf(rows, findings + [f], titles), framework) ==
            ListedIds(ControlsOf(rows, findings, titles), framework) + (if HasControl(rows, framework, f.ruleId) then 1 else 0)
  {
    if rows != [] {
      var init, row := rows[..|rows| - 1], rows[|rows| - 1];
      assert rows == init + [row];
      OneMoreFinding(init, findings, f, titles, framework);
      ListedConcat(ControlsOf(init, findings, titles), RowControls(row, findings, titles), framework);
      ListedConcat(ControlsOf(init, findings + [f], titles), RowControls(row, findings + [f], titles), framework);
      OneMoreInRow(row, findings, f, titles, framework);
      HasControlAppend(init, row, framework, f.ruleId);
      assert row.ruleId == f.ruleId ==> !HasControl(init, framework, f.ruleId);
    }
  }

  lemma {:induction false} ListedIsCounted(rows: seq<ComplianceRow>, findings: seq<Finding>, titles: map<string, string>, framework: Framework)
    requires UniqueRules(rows)
    ensures ListedIds(ControlsOf(rows, findings, titles), framework) == CountWithControl(rows, framework, findings)
  {
    if findings == [] {
      NothingListed(rows, titles, framework);
    } else {
      var init, f := findings[..|findings| - 1], findings[|findings| - 1];
      assert findings == init + [f];
      ListedIsCounted(rows, init, titles, framework);
      OneMoreFinding(rows, init, f, titles, framework);
    }
  }

  lemma {:induction false} NothingListed(rows: seq<ComplianceRow>, titles: map<string, string>, framework: Framework)
    ensures ListedIds(ControlsOf(rows, [], titles), framework) == 0
  {
    if rows != [] {
      var init, row := rows[..|rows| - 1], rows[|rows| - 1];
      NothingListed(init, titles, framework);
      ListedConcat(ControlsOf(init, [], titles), RowControls(row, [], titles), framework);
      RowListed(row, [], titles, framework);
    }
  }

  lemma {:induction false} CountSorted(rows: seq<ComplianceRow>, framework: Framework, findings: seq<Finding>)
    ensures CountWithControl(SortBy(RuleOf, rows), framework, findings) == CountWithControl(rows, framework, findings)
  {
    if findings != [] {
      CountSorted(rows, framework, findings[..|findings| - 1]);
      forall row
        ensures row in SortBy(RuleOf, rows) <==> row in rows
      {
        SortByMember(RuleOf, rows, row);
      }
    }
  }

  /**
   * Findings are conserved: the ids listed over the controls of a framework are as many as the findings
   * whose rule has a control there, and each control lists exactly its own rule's ids, in order.
   */
  lemma FindingsConserved(rows: seq<ComplianceRow>, findings: seq<Finding>, titles: map<string, string>, framework: Framework)
    requires UniqueRules(rows)
    ensures ListedIds(ReportFor(rows, findings, titles).controls, framework) == CountWithControl(rows, framework, findings)
    ensures forall c :: c in ReportFor(rows, findings, titles).controls ==> c.findingIds == IdsOfRule(findings, c.ruleId)
  {
    SortKeepsUnique(rows);
    ListedIsCounted(SortBy(RuleOf, rows), findings, titles, framework);
    CountSorted(rows, framework, findings);
    forall c | c in ReportFor(rows, findings, titles).controls
      ensures c.findingIds == IdsOfRule(findings, c.ruleId)
    {
      ControlsMember(SortBy(RuleOf, rows), findings, titles, c);
    }
  }

  /** What a control of the report says, in terms of the compliance map and the findings alone. */
  ghost predicate Speaks(c: Control, row: ComplianceRow, findings: seq<Finding>, titles: map<string, string>) {
    && c.ruleId == row.ruleId && c.remediation == row.remediation
    && c.controlId == (match c.framework case CIS => row.cisControlId case NIST => row.nistId)
    && (c.status == FAIL <==> exists f :: f in findings && f.ruleId == row.ruleId)
    && c.title == (if row.ruleId in titles then titles[row.ruleId] else row.ruleId)
    && (forall id :: id in c.findingIds <==> exists f :: f in findings && f.ruleId == row.ruleId && f.findingId == id)
  }

  lemma {:induction false} IdsOfRuleMember(findings: seq<Finding>, ruleId: string, id: nat)
    ensures id in IdsOfRule(findings, ruleId) <==> exists f :: f in findings && f.ruleId == ruleId && f.findingId == id
  {
    if findings != [] {
      IdsOfRuleMember(findings[..|findings| - 1], ruleId, id);
      assert findings == findings[..|findings| - 1] + [findings[|findings| - 1]];
    }
  }

  lemma ControlSpeaks(row: ComplianceRow, framework: Framework, findings: seq<Finding>, titles: map<string, string>)
    ensures Speaks(ControlFor(row, framework, findings, titles), row, findings, titles)
  {
    IdsOfRuleEmpty(findings, row.ruleId);
    forall id
      ensures id in IdsOfRule(findings, row.ruleId) <==>
              exists f :: f in findings && f.ruleId == row.ruleId && f.findingId == id
    {
      IdsOfRuleMember(findings, row.ruleId, id);
    }
  }

  /** Each control speaks for a row of the map, and each row with a control id is spoken for. */
  lemma ReportSpeaksForTheMap(rows: seq<ComplianceRow>, findings: seq<Finding>, titles: map<string, string>)
    ensures forall c :: c in ReportFor(rows, findings, titles).controls ==>
              exists row :: row in rows && c.controlId != "" && Speaks(c, row, findings, titles)
    ensures forall row :: row in rows && row.cisControlId != "" ==> SpokenFor(rows, row, CIS, findings, titles)
    ensures forall row :: row in rows && row.nistId != "" ==> SpokenFor(rows, row, NIST, findings, titles)
  {
    var sorted := SortBy(RuleOf, rows);
    forall c | c in ReportFor(rows, findings, titles).controls
      ensures exists row :: row in rows && c.controlId != "" && Speaks(c, row, findings, titles)
    {
      ControlsMember(sorted, findings, titles, c);
      var row :| row in sorted && ControlIdOf(row, c.framework) != "" && c == ControlFor(row, c.framework, findings, titles);
      SortByMember(RuleOf, rows, row);
      ControlSpeaks(row, c.framework, findings, titles);
    }
    forall row, framework | row in rows && ControlIdOf(row, framework) != ""
      ensures SpokenFor(rows, row, framework, findings, titles)
    {
      var c := ControlFor(row, framework, findings, titles);
      SortByMember(RuleOf, rows, row);
      ControlsMember(sorted, findings, titles, c);
      ControlSpeaks(row, framework, findings, titles);
    }
    assert forall row: ComplianceRow :: row.cisControlId == ControlIdOf(row, CIS) && row.nistId == ControlIdOf(row, NIST);
  }

  ghost predicate SpokenFor(rows: seq<ComplianceRow>, row: ComplianceRow, framework: Framework, findings: seq<Finding>, titles: map<string, string>) {
    exists c :: c in ReportFor(rows, findings, titles).controls && c.framework == framework && Speaks(c, row, findings, titles)
  }
}
