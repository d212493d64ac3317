/** What a read may depend on. */
module Reads {
  import opened Prelude
  import opened Records
  import opened Compliance
  import opened Server
  import AttackRoute

  ghost predicate UniqueScans(s: State) {
    forall i, j :: 0 <= i < j < |s.scans| ==> s.scans[i].scanId != s.scans[j].scanId
  }

  lemma {:induction false} OwnScansMember(scans: seq<Scan>, userId: nat, x: Scan)
    ensures x in OwnScans(scans, userId) <==> x in scans && x.userId == userId
  {
    if scans != [] {
      OwnScansMember(scans[..|scans| - 1], userId, x);
      assert scans == scans[..|scans| - 1] + [scans[|scans| - 1]];
    }
  }

  lemma LoadOwnedIsOwn(s: State, user: User, scanId: nat)
    requires UniqueScans(s)
    ensures LoadOwnedScan(s, user, scanId).None? <==>
            forall x :: x in OwnScans(s.scans, user.userId) ==> x.scanId != scanId
    ensures LoadOwnedScan(s, user, scanId).Some? ==>
            LoadOwnedScan(s, user, scanId).value in OwnScans(s.scans, user.userId) &&
            LoadOwnedScan(s, user, scanId).value.scanId == scanId
  {
    forall x
      ensures x in OwnScans(s.scans, user.userId) <==> x in s.scans && x.userId == user.userId
    {
      OwnScansMember(s.scans, user.userId, x);
    }
    var r := ScanById(s.scans, scanId);
    if r.Some? {
      forall x | x in s.scans && x.scanId == scanId
        ensures x == r.value
      {
      }
    }
  }

  /** The states agree on what belongs to the user: own scans and their findings. */
  ghost predicate AgreeOn(s: State, t: State, userId: nat) {
    && OwnScans(s.scans, userId) == OwnScans(t.scans, userId)
    && forall x :: x in OwnScans(s.scans, userId) ==> FindingsOf(s.findings, x.scanId) == FindingsOf(t.findings, x.scanId)
  }

  /** What a read answers depends on nothing but the caller's own scans and findings. */
  lemma ReadsDependOnOwnData(cfg: Config, s: State, t: State, cookie: Option<Token>, query: Query, now: int)
    requires UniqueScans(s) && UniqueScans(t)
    requires CurrentUser(s, cookie, now) == CurrentUser(t, cookie, now)
    requires CurrentUser(s, cookie, now).Some? ==> AgreeOn(s, t, CurrentUser(s, cookie, now).value.userId)
    ensures Read(cfg, s, cookie, query, now).1 == Read(cfg, t, cookie, query, now).1
  {
    if CurrentUser(s, cookie, now).Some? && !query.ListScans? {
      var user := CurrentUser(s, cookie, now).value;
      LoadOwnedIsOwn(s, user, query.id);
      LoadOwnedIsOwn(t, user, query.id);
      var a, b := LoadOwnedScan(s, user, query.id), LoadOwnedScan(t, user, query.id);
      if a.Some? {
        SameOwnScan(s, user.userId, a.value, b.value);
      }
    }
  }

  lemma SameOwnScan(s: State, userId: nat, a: Scan, b: Scan)
    requires UniqueScans(s) && a in OwnScans(s.scans, userId) && b in OwnScans(s.scans, userId) && a.scanId == b.scanId
    ensures a == b
  {
    OwnScansMember(s.scans, userId, a);
    OwnScansMember(s.scans, userId, b);
  }

  /** A scan of somebody else and a scan that does not exist are answered, and logged, alike. */
  lemma ForeignLooksMissing(cfg: Config, s: State, cookie: Option<Token>, query: Query, now: int)
    requires UniqueScans(s) && !query.ListScans? && CurrentUser(s, cookie, now).Some?
    requires forall x :: x in s.scans && x.scanId == query.id ==> x.userId != CurrentUser(s, cookie, now).value.userId
    ensures Read(cfg, s, cookie, query, now) ==
            (Log(s, CurrentUser(s, cookie, now).value.userId, "scan_access_denied"), NotFound)
  {
  }

  // ---- Newest first ----

  ghost predicate Descending(scans: seq<Scan>) {
    forall i, j :: 0 <= i < j < |scans| ==> scans[i].timestamp >= scans[j].timestamp
  }

  lemma DescendingAppend(scans: seq<Scan>, last: Scan)
    requires Descending(scans) && forall x :: x in scans ==> x.timestamp >= last.timestamp
    ensures Descending(scans + [last])
  {
  }

  lemma {:induction false} InsertNewestProperties(scan: Scan, sorted: seq<Scan>)
    requires Descending(sorted)
    ensures Descending(InsertNewest(scan, sorted))
    ensures multiset(InsertNewest(scan, sorted)) == multiset(sorted) + multiset{scan}
  {
    if sorted != [] {
      var init, last := sorted[..|sorted| - 1], sorted[|sorted| - 1];
      assert sorted == init + [last];
      if last.timestamp < scan.timestamp {
        InsertNewestProperties(scan, init);
        var r := InsertNewest(scan, init);
        forall x | x in r
          ensures x.timestamp >= last.timestamp
        {
          assert x in multiset(r);
          assert x in multiset(init) ==> x in init;
        }
        DescendingAppend(r, last);
      } else {
        DescendingAppend(sorted, scan);
      }
    }
  }

  lemma {:induction false} NewestFirstProperties(scans: seq<Scan>)
    ensures Descending(NewestFirst(scans))
    ensures multiset(NewestFirst(scans)) == multiset(scans)
  {
    if scans != [] {
      var init := scans[..|scans| - 1];
      assert scans == init + [scans[|scans| - 1]];
      NewestFirstProperties(init);
      InsertNewestProperties(scans[|scans| - 1], NewestFirst(init));
    }
  }

  /** The scan list holds the caller's scans, all of them and no others, each once, newest first. */
  lemma ListAnswersOwnScans(cfg: Config, s: State, cookie: Option<Token>, now: int)
    requires CurrentUser(s, cookie, now).Some?
    ensures var reply := Read(cfg, s, cookie, ListScans, now).1;
            && reply.ScanList? && Descending(reply.scans)
            && multiset(reply.scans) == multiset(OwnScans(s.scans, CurrentUser(s, cookie, now).value.userId))
            && forall x :: x in reply.scans <==> x in s.scans && x.userId == CurrentUser(s, cookie, now).value.userId
  {
    var own := OwnScans(s.scans, CurrentUser(s, cookie, now).value.userId);
    NewestFirstProperties(own);
    forall x
      ensures x in NewestFirst(own) <==> x in s.scans && x.userId == CurrentUser(s, cookie, now).value.userId
    {
      OwnScansMember(s.scans, CurrentUser(s, cookie, now).value.userId, x);
      assert x in NewestFirst(own) <==> x in multiset(own);
    }
  }

  lemma {:induction false} FindingsOfMember(findings: seq<Finding>, scanId: nat, f: Finding)
    ensures f in FindingsOf(findings, scanId) <==> f in findings && f.scanId == scanId
  {
    if findings != [] {
      FindingsOfMember(findings[..|findings| - 1], scanId, f);
      assert findings == findings[..|findings| - 1] + [findings[|findings| - 1]];
    }
  }

  /** A findings request for an own scan answers with exactly the findings stored for it. */
  lemma FindingsAnswer(cfg: Config, s: State, cookie: Option<Token>, scan: Scan, f: Finding, now: int)
    requires UniqueScans(s) && scan in s.scans
    requires CurrentUser(s, cookie, now).Some? && CurrentUser(s, cookie, now).value.userId == scan.userId
    ensures var reply := Read(cfg, s, cookie, GetFindings(scan.scanId), now).1;
            reply.FindingList? && (f in reply.list <==> f in s.findings && f.scanId == scan.scanId)
  {
    var user := CurrentUser(s, cookie, now).value;
    LoadOwnedIsOwn(s, user, scan.scanId);
    OwnScansMember(s.scans, user.userId, scan);
    FindingsOfMember(s.findings, scan.scanId, f);
  }

  // ---- The four reads of an own scan ----

  /** `at` are the places of the scan's findings, all of them and in order, and `own` are those findings. */
  ghost predicate Selects(findings: seq<Finding>, scanId: nat, own: seq<Finding>, at: seq<int>) {
    && |at| == |own|
    && (forall k :: 0 <= k < |at| ==> 0 <= at[k] < |findings| && findings[at[k]] == own[k])
    && (forall a, b :: 0 <= a < b < |at| ==> at[a] < at[b])
    && (forall i :: i in at <==> 0 <= i < |findings| && findings[i].scanId == scanId)
  }

  lemma {:induction false} FindingsOfPlaces(findings: seq<Finding>, scanId: nat) returns (at: seq<int>)
    ensures Selects(findings, scanId, FindingsOf(findings, scanId), at)
  {
    at := [];
    if findings != [] {
      var n := |findings| - 1;
      at := FindingsOfPlaces(findings[..n], scanId);
      if findings[n].scanId == scanId {
        at := at + [n];
      }
    }
  }

  /** A list of the scan's findings, in stored order. */
  ghost predicate OwnFindings(s: State, scanId: nat, own: seq<Finding>) {
    exists at :: Selects(s.findings, scanId, own, at)
  }

  /** What the reads of the scan answer, given its findings. */
  ghost predicate AnswersFor(cfg: Config, scan: Scan, own: seq<Finding>, query: Query, reply: Reply) {
    match query
    case GetScan(_) => reply == ScanDetail(scan, own)
    case GetFindings(_) => reply == FindingList(own)
    case GetCompliance(_) => reply.ComplianceReport? && reply.report == ReportFor(cfg.rows, own, cfg.titles)
    case GetAttackPaths(_, collected) => reply.AttackPaths? && reply.response == AttackRoute.ResponseFor(scan.scanType, own, collected)
    case ListScans => false
  }

  /** Each read of an own scan is answered from that scan and its findings in stored order, and changes nothing. */
  lemma OwnScanAnswers(cfg: Config, s: State, cookie: Option<Token>, scan: Scan, query: Query, now: int)
    requires UniqueScans(s) && scan in s.scans && !query.ListScans? && query.id == scan.scanId
    requires CurrentUser(s, cookie, now).Some? && CurrentUser(s, cookie, now).value.userId == scan.userId
    ensures var (t, reply) := Read(cfg, s, cookie, query, now);
            t == s && exists own :: OwnFindings(s, scan.scanId, own) && AnswersFor(cfg, scan, own, query, reply)
  {
    var user := CurrentUser(s, cookie, now).value;
    OwnScansMember(s.scans, user.userId, scan);
    LoadOwnedIsOwn(s, user, scan.scanId);
    SameOwnScan(s, user.userId, LoadOwnedScan(s, user, scan.scanId).value, scan);
    var at := FindingsOfPlaces(s.findings, scan.scanId);
    assert OwnFindings(s, scan.scanId, FindingsOf(s.findings, scan.scanId));
  }
}
