/** From a live scan to its attack paths: what the collector found justifies every path that is shown. */
module LiveScans {
  import opened Prelude
  import opened Json
  import opened Records
  import opened Resources
  import opened Edges
  import opened AttackGraph
  import opened PathFinder
  import opened RuleEngine
  import opened Justification
  import opened Server
  import opened Uploads
  import opened Ownership
  import opened AccessControl
  import opened RouteMeaning
  import AttackRoute

  /** Among the stored findings is one for an open group attached to an instance of this id. */
  ghost predicate Evidence(cfg: Config, rs: seq<Resource>, stored: seq<Finding>, id: string) {
    exists group, x, f :: group in rs && x in rs && Attached(group, x) && x.id == id && f in stored && StoresFlag(cfg, f, group)
  }

  ghost predicate StoresFlag(cfg: Config, f: Finding, group: Resource) {
    && group.kind == GROUP && IsPublic(group)
    && f.ruleId == "CIS-AWS-002" && f.severity == High && cfg.asColumn(Str(group.id)) == Some(f.resourceId)
  }

  lemma StoredFlag(cfg: Config, stored: seq<Finding>, data: seq<FindingData>, d: FindingData, group: Resource) returns (f: Finding)
    requires StoredAsAll(cfg, stored, data) && d in data && FlagsGroup(d, group) && IsPublic(group)
    ensures f in stored && StoresFlag(cfg, f, group)
  {
    var k :| 0 <= k < |data| && data[k] == d;
    f := stored[k];
    assert StoredAs(cfg, f, d);
  }

  /** Each path of the deduplicated graph has its stored finding, on a group attached to the second node. */
  lemma StoredPathsAreJustified(cfg: Config, docs: seq<Json>, rs: seq<Resource>, stored: seq<Finding>, cutoff: int, p: Path)
    requires OPEN_GROUP_RULE in cfg.rules && SameResources(docs, rs)
    requires forall r :: r in rs ==> r.id != INTERNET
    requires StoredAsAll(cfg, stored, Findings(cfg.lib, cfg.rules, Normalize(List(docs))))
    requires p in AllPaths(GraphOf(AttackRoute.Distinct(rs)), cutoff)
    ensures |p| >= 2 && Evidence(cfg, rs, stored, p[1])
  {
    AttackRoute.DistinctProperties(rs);
    var e := FirstStepExposes(AttackRoute.Distinct(rs), cutoff, p);
    var group, x := Exposer(AttackRoute.Distinct(rs), e);
    var d := PublicGroupIsReported(cfg.lib, cfg.rules, docs, rs, group);
    var f := StoredFlag(cfg, stored, Findings(cfg.lib, cfg.rules, Normalize(List(docs))), d, group);
  }

  lemma StoredScanShowsPaths(cfg: Config, s: State, scan: Scan, data: seq<FindingData>, cookie: Option<Token>, collected: Option<seq<Resource>>, now: int)
    requires scan.scanId == s.nextId
    requires forall x :: x in s.scans ==> x.scanId < s.nextId
    requires forall f :: f in s.findings ==> f.scanId < s.nextId
    requires CurrentUser(s, cookie, now).Some? && CurrentUser(s, cookie, now).value.userId == scan.userId
    requires StoreFindings(cfg, WithScan(s, scan), scan.scanId, data).1.Uploaded?
    ensures var t := StoreFindings(cfg, WithScan(s, scan), scan.scanId, data).0;
            var stored := FindingsOf(t.findings, scan.scanId);
            && StoredAsAll(cfg, stored, data)
            && Read(cfg, t, cookie, GetAttackPaths(scan.scanId, collected), now).1 ==
               AttackPaths(AttackRoute.ResponseFor(scan.scanType, stored, collected))
  {
    var t := StoreFindings(cfg, WithScan(s, scan), scan.scanId, data).0;
    UploadConservesFindings(cfg, s, scan, data);
    NewScanAnswers(cfg, s, scan, data, cookie, GetAttackPaths(scan.scanId, collected), now);
  }

  /**
   * After a successful live scan in any run, each path in the scan owner's attack-path reply over the same
   * resources has a stored High finding of CIS-AWS-002 behind it: for an open security group attached to the
   * instance through which the path enters.
   */
  lemma LiveScanJustifiesItsPaths(
    cfg: Config, rs: seq<Request>, cookie: Option<Token>, docs: seq<Json>, resources: seq<Resource>, now: int, view: AttackRoute.PathView)
    requires Allowed(Run(cfg, rs), cookie, now) && OPEN_GROUP_RULE in cfg.rules
    requires SameResources(docs, resources) && forall r :: r in resources ==> r.id != INTERNET
    requires ScanCloud(cfg, Run(cfg, rs), cookie, Some(List(docs)), now).1.Uploaded?
    ensures var id := Run(cfg, rs).nextId;
            var t := ScanCloud(cfg, Run(cfg, rs), cookie, Some(List(docs)), now).0;
            var reply := Read(cfg, t, cookie, GetAttackPaths(id, Some(resources)), now).1;
            && reply.AttackPaths?
            && (view in reply.response.paths ==> |view.nodes| >= 2 && Evidence(cfg, resources, FindingsOf(t.findings, id), view.nodes[1]))
  {
    RunKeepsOwnership(cfg, rs);
    var s, data := Run(cfg, rs), Findings(cfg.lib, cfg.rules, Normalize(List(docs)));
    var scan := Scan(s.nextId, CurrentUser(s, cookie, now).value.userId, "Live Cloud Account", LIVE, now);
    StoredScanShowsPaths(cfg, s, scan, data, cookie, Some(resources), now);
    var stored := FindingsOf(ScanCloud(cfg, s, cookie, Some(List(docs)), now).0.findings, s.nextId);
    if view in AttackRoute.ResponseFor(LIVE, stored, Some(resources)).paths {
      AttackRoute.PathOfView(LIVE, stored, Some(resources), view);
      StoredPathsAreJustified(cfg, docs, resources, stored, DEFAULT_CUTOFF, view.nodes);
    }
  }

  /**
   * And the reply as a whole shows what was collected: each distinct resource with its last finding, the
   * links between them, and the attack paths, numbered and rated, all of them up to 100.
   */
  lemma LiveScanShowsWhatWasCollected(
    cfg: Config, rs: seq<Request>, cookie: Option<Token>, collected: Json, resources: seq<Resource>, now: int)
    requires Allowed(Run(cfg, rs), cookie, now)
    requires ScanCloud(cfg, Run(cfg, rs), cookie, Some(collected), now).1.Uploaded?
    ensures var id := Run(cfg, rs).nextId;
            var t := ScanCloud(cfg, Run(cfg, rs), cookie, Some(collected), now).0;
            var reply := Read(cfg, t, cookie, GetAttackPaths(id, Some(resources)), now).1;
            reply.AttackPaths? && Shows(FindingsOf(t.findings, id), reply.response, AttackRoute.Distinct(resources))
  {
    RunKeepsOwnership(cfg, rs);
    var s, data := Run(cfg, rs), Findings(cfg.lib, cfg.rules, Normalize(collected));
    var scan := Scan(s.nextId, CurrentUser(s, cookie, now).value.userId, "Live Cloud Account", LIVE, now);
    StoredScanShowsPaths(cfg, s, scan, data, cookie, Some(resources), now);
    LiveScanShows(FindingsOf(ScanCloud(cfg, s, cookie, Some(collected), now).0.findings, s.nextId), Some(resources));
  }
}
