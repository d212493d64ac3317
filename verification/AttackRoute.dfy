/** The attack-path endpoint: resource deduplication, path severity, and the response as a whole. */
module AttackRoute {
  import opened Prelude
  import opened Records
  import opened Resources
  import opened Edges
  import opened AttackGraph
  import opened PathFinder
  import opened Layering

  // ---- _deduplicate_resources ----

  function ResourceKey(r: Resource): (string, string) {
    (r.id, r.kind)
  }

  function WithId(rs: seq<Resource>): seq<Resource> {
    if rs == [] then []
    else if rs[|rs| - 1].id == "" then WithId(rs[..|rs| - 1])
    else WithId(rs[..|rs| - 1]) + [rs[|rs| - 1]]
  }

  function Distinct(rs: seq<Resource>): seq<Resource> {
    DedupBy(ResourceKey, WithId(rs))
  }

  method DeduplicateResources(rs: seq<Resource>) returns (result: seq<Resource>)
    ensures result == Distinct(rs)
  {
    var seen: set<(string, string)> := {};
    result := [];
    for i := 0 to |rs|
      invariant seen == Keys(ResourceKey, WithId(rs[..i]))
      invariant result == DedupBy(ResourceKey, WithId(rs[..i]))
    {
      PrefixStep(rs, i);
      var r := rs[i];
      if r.id == "" {
        continue;
      }
      KeysAppend(ResourceKey, WithId(rs[..i]), r);
      if ResourceKey(r) in seen {
        continue;
      }
      seen := seen + {ResourceKey(r)};
      result := result + [r];
    }
    assert rs[..|rs|] == rs;
  }

  lemma {:induction false} WithIdMember(rs: seq<Resource>, r: Resource)
    ensures r in WithId(rs) <==> r in rs && r.id != ""
  {
    if rs != [] {
      WithIdMember(rs[..|rs| - 1], r);
      assert rs == rs[..|rs| - 1] + [rs[|rs| - 1]];
    }
  }

  /** Non-empty ids, no (id, kind) twice, nothing new, and every (id, kind) with an id is still there. */
  lemma DistinctProperties(rs: seq<Resource>)
    ensures forall r :: r in Distinct(rs) ==> r in rs && r.id != ""
    ensures forall i, j :: 0 <= i < j < |Distinct(rs)| ==> ResourceKey(Distinct(rs)[i]) != ResourceKey(Distinct(rs)[j])
    ensures forall r :: r in rs && r.id != "" ==> exists q :: q in Distinct(rs) && ResourceKey(q) == ResourceKey(r)
  {
    DedupByKeys(ResourceKey, WithId(rs));
    forall r | r in Distinct(rs)
      ensures r in rs && r.id != ""
    {
      DedupByFirst(ResourceKey, WithId(rs), r);
      WithIdMember(rs, r);
    }
    forall r | r in rs && r.id != ""
      ensures exists q :: q in Distinct(rs) && ResourceKey(q) == ResourceKey(r)
    {
      WithIdMember(rs, r);
      assert ResourceKey(r) in Keys(ResourceKey, WithId(rs));
      assert ResourceKey(r) in Keys(ResourceKey, Distinct(rs));
    }
  }

  lemma FewerResourcesStayTyped(rs: seq<Resource>, sub: seq<Resource>)
    requires TypedIds(rs)
    requires forall r :: r in sub ==> r in rs
    ensures TypedIds(sub)
  {
  }

  /** Removing duplicates keeps ids typed. */
  lemma DistinctKeepsTypedIds(rs: seq<Resource>)
    requires TypedIds(rs)
    ensures TypedIds(Distinct(rs))
  {
    DistinctProperties(rs);
    FewerResourcesStayTyped(rs, Distinct(rs));
  }

  // ---- _path_severity ----

  /** `finding_by_resource`: the last finding listed for each resource id. */
  function FindingIndex(findings: seq<Finding>): map<string, Finding> {
    if findings == [] then map[]
    else FindingIndex(findings[..|findings| - 1])[findings[|findings| - 1].resourceId := findings[|findings| - 1]]
  }

  /** What the index holds for a resource is the last finding listed for it. */
  lemma {:induction false} FindingIndexMeaning(findings: seq<Finding>, id: string, f: Finding)
    ensures id in FindingIndex(findings) && FindingIndex(findings)[id] == f <==>
            LastFinding(findings, id, f)
  {
    if findings != [] {
      var n := |findings| - 1;
      var init := findings[..n];
      FindingIndexMeaning(init, id, f);
      if findings[n].resourceId == id {
        assert LastFindingAt(findings, id, n);
        assert forall k :: LastFindingAt(findings, id, k) ==> k == n;
      } else {
        assert forall k :: LastFindingAt(findings, id, k) <==> LastFindingAt(init, id, k);
      }
    }
  }

  ghost predicate LastFinding(findings: seq<Finding>, id: string, f: Finding) {
    exists k :: LastFindingAt(findings, id, k) && findings[k] == f
  }

  ghost predicate LastFindingAt(findings: seq<Finding>, id: string, k: int) {
    0 <= k < |findings| && findings[k].resourceId == id &&
    forall j :: k < j < |findings| ==> findings[j].resourceId != id
  }

  function SeveritiesOn(path: Path, index: map<string, Finding>): seq<Severity> {
    if path == [] then []
    else
      var before, n := SeveritiesOn(path[..|path| - 1], index), path[|path| - 1];
      if n in index then before + [index[n].severity] else before
  }

  method PathSeverity(path: Path, index: map<string, Finding>) returns (severity: Severity)
    ensures severity == HighestOn(path, index)
  {
    var severities: seq<Severity> := [];
    for i := 0 to |path|
      invariant severities == SeveritiesOn(path[..i], index)
    {
      PrefixStep(path, i);
      if path[i] in index {
        severities := severities + [index[path[i]].severity];
      }
    }
    assert path[..|path|] == path;
    if severities == [] {
      return Low;
    }
    return FirstMax(severities);
  }

  /** Python's `max(severities, key=...)`: the first of the highest. */
  function FirstMax(severities: seq<Severity>): Severity
    requires severities != []
  {
    var last := severities[|severities| - 1];
    if |severities| == 1 then last
    else
      var best := FirstMax(severities[..|severities| - 1]);
      if SeverityOrder(last) > SeverityOrder(best) then last else best
  }

  function HighestOn(path: Path, index: map<string, Finding>): Severity {
    var severities := SeveritiesOn(path, index);
    if severities == [] then Low else FirstMax(severities)
  }

  lemma {:induction false} SeveritiesOnMember(path: Path, index: map<string, Finding>, s: Severity)
    ensures s in SeveritiesOn(path, index) <==> exists n :: n in path && n in index && index[n].severity == s
  {
    if path != [] {
      SeveritiesOnMember(path[..|path| - 1], index, s);
      assert path == path[..|path| - 1] + [path[|path| - 1]];
    }
  }

  lemma {:induction false} FirstMaxIsMax(severities: seq<Severity>)
    requires severities != []
    ensures FirstMax(severities) in severities
    ensures forall s :: s in severities ==> SeverityOrder(s) <= SeverityOrder(FirstMax(severities))
  {
    if |severities| > 1 {
      FirstMaxIsMax(severities[..|severities| - 1]);
      assert severities == severities[..|severities| - 1] + [severities[|severities| - 1]];
    }
  }

  /** The path severity bounds every indexed finding on the path and is attained, or is Low without findings. */
  lemma HighestOnPath(path: Path, index: map<string, Finding>)
    ensures forall n :: n in path && n in index ==>
              SeverityOrder(index[n].severity) <= SeverityOrder(HighestOn(path, index))
    ensures (exists n :: n in path && n in index && index[n].severity == HighestOn(path, index)) ||
            (HighestOn(path, index) == Low && forall n :: n in path ==> n !in index)
  {
    var severities := SeveritiesOn(path, index);
    forall n | n in path && n in index
      ensures index[n].severity in severities
    {
      SeveritiesOnMember(path, index, index[n].severity);
    }
    if severities != [] {
      FirstMaxIsMax(severities);
      SeveritiesOnMember(path, index, FirstMax(severities));
    }
  }

  // ---- The response ----

  datatype NodeView = NodeView(id: string, kind: string, finding: Option<Finding>)

  datatype PathView = PathView(number: nat, nodes: Path, severity: Severity)

  datatype Response = Response(nodes: seq<NodeView>, links: seq<Edge>, paths: seq<PathView>)

  /** A static scan stores no relationships, only the id and kind of each finding's resource. */
  function StaticResources(findings: seq<Finding>): seq<Resource> {
    seq(|findings|, i requires 0 <= i < |findings| => Bare(findings[i].resourceId, findings[i].resourceType))
  }

  /** The resources of the scan; None stands for a failed collection. */
  function ScanResources(scanType: ScanType, findings: seq<Finding>, collected: Option<seq<Resource>>): seq<Resource> {
    Distinct(match scanType
             case LIVE => (match collected case Some(rs) => rs case None => [])
             case STATIC => StaticResources(findings))
  }

  function NodeViews(rs: seq<Resource>, index: map<string, Finding>): seq<NodeView> {
    seq(|rs|, i requires 0 <= i < |rs| =>
      NodeView(rs[i].id, rs[i].kind, if rs[i].id in index then Some(index[rs[i].id]) else None))
  }

  function PathViews(paths: seq<Path>, index: map<string, Finding>): seq<PathView> {
    seq(|paths|, i requires 0 <= i < |paths| => PathView(i + 1, paths[i], HighestOn(paths[i], index)))
  }

  function ResponseFor(scanType: ScanType, findings: seq<Finding>, collected: Option<seq<Resource>>): Response {
    var rs, index := ScanResources(scanType, findings, collected), FindingIndex(findings);
    Response(NodeViews(rs, index), LinksOf(GraphOf(rs)),
             PathViews(Take(AllPaths(GraphOf(rs), DEFAULT_CUTOFF), DEFAULT_MAX_PATHS), index))
  }

  method IndexFindings(findings: seq<Finding>) returns (index: map<string, Finding>)
    ensures index == FindingIndex(findings)
  {
    index := map[];
    for i := 0 to |findings|
      invariant index == FindingIndex(findings[..i])
    {
      PrefixStep(findings, i);
      index := index[findings[i].resourceId := findings[i]];
    }
    assert findings[..|findings|] == findings;
  }

  method BuildNodes(rs: seq<Resource>, index: map<string, Finding>) returns (nodes: seq<NodeView>)
    ensures nodes == NodeViews(rs, index)
  {
    nodes := [];
    for i := 0 to |rs|
      invariant nodes == NodeViews(rs, index)[..i]
    {
      var id := rs[i].id;
      nodes := nodes + [NodeView(id, rs[i].kind, if id in index then Some(index[id]) else None)];
    }
  }

  method BuildPathViews(rawPaths: seq<Path>, index: map<string, Finding>) returns (paths: seq<PathView>)
    ensures paths == PathViews(rawPaths, index)
  {
    paths := [];
    for i := 0 to |rawPaths|
      invariant paths == PathViews(rawPaths, index)[..i]
    {
      var severity := PathSeverity(rawPaths[i], index);
      paths := paths + [PathView(i + 1, rawPaths[i], severity)];
    }
  }

  method GetAttackPaths(scanType: ScanType, findings: seq<Finding>, collected: Option<seq<Resource>>)
    returns (response: Response)
    ensures response == ResponseFor(scanType, findings, collected)
  {
    var index := IndexFindings(findings);
    var resources := StaticResources(findings);
    if scanType == LIVE {
      resources := match collected case Some(rs) => rs case None => [];
    }
    resources := DeduplicateResources(resources);
    assert resources == ScanResources(scanType, findings, collected);
    var graph := BuildAttackGraph(resources);
    var nodes := BuildNodes(resources, index);
    var links := GraphToLinks(graph);
    var rawPaths := FindAttackPaths(graph, DEFAULT_CUTOFF, DEFAULT_MAX_PATHS);
    var paths := BuildPathViews(rawPaths, index);
    response := Response(nodes, links, paths);
  }

  /** A resource that carries no relation at all. */
  ghost predicate Unrelated(r: Resource) {
    r == Bare(r.id, r.kind)
  }

  lemma UnrelatedResourcesGiveNoEdges(rs: seq<Resource>, e: Edge)
    requires forall r :: r in rs ==> Unrelated(r)
    ensures !Related(rs, e)
  {
  }

  lemma UnrelatedResourcesGiveNothing(rs: seq<Resource>, cutoff: int)
    requires forall r :: r in rs ==> Unrelated(r)
    ensures LinksOf(GraphOf(rs)) == []
    ensures AllPaths(GraphOf(rs), cutoff) == []
  {
    var g := GraphOf(rs);
    GraphOfProperties(rs);
    EdgesOfIsRelation(rs);
    forall e
      ensures !Related(rs, e) && e !in LinksOf(g)
    {
      UnrelatedResourcesGiveNoEdges(rs, e);
      LinksAreLastEdges(rs, e);
    }
    NoMemberMeansEmpty(LinksOf(g));
    AllPathsCorrect(g, cutoff);
    forall p
      ensures p !in AllPaths(g, cutoff)
    {
      if |p| >= 2 {
        GraphHasEdge(rs, p[0], p[1]);
      }
    }
    NoMemberMeansEmpty(AllPaths(g, cutoff));
  }

  lemma StaticResourcesUnrelated(findings: seq<Finding>, r: Resource)
    requires r in ScanResources(STATIC, findings, None)
    ensures Unrelated(r)
  {
    DistinctProperties(StaticResources(findings));
    var i :| 0 <= i < |findings| && StaticResources(findings)[i] == r;
  }

  /** The endpoint never invents relationships for a static scan: no links and no paths, whatever was found. */
  lemma StaticScansHaveNoPaths(findings: seq<Finding>)
    ensures var response := ResponseFor(STATIC, findings, None);
            response.links == [] && response.paths == []
  {
    var rs := ScanResources(STATIC, findings, None);
    forall r | r in rs
      ensures Unrelated(r)
    {
      StaticResourcesUnrelated(findings, r);
    }
    UnrelatedResourcesGiveNothing(rs, DEFAULT_CUTOFF);
  }

  lemma SourceIsResource(rs: seq<Resource>, u: string, v: string)
    requires GraphOf(rs).HasEdge(u, v) && u != INTERNET
    ensures exists r :: r in rs && r.id == u
  {
    GraphHasEdge(rs, u, v);
    var e :| Related(rs, e) && Between(e, u, v);
    var r :| r in rs && Justifies(rs, r, e);
    assert r.id == u || exists q :: q in rs && q.id == u;
  }

  /** Every node of an attack path after the internet is one of the resources. */
  lemma PathNodeIsResource(rs: seq<Resource>, cutoff: int, p: Path, i: nat)
    requires p in AllPaths(GraphOf(rs), cutoff) && 0 < i < |p|
    ensures exists r :: r in rs && r.id == p[i]
  {
    GraphOfProperties(rs);
    AllPathsCorrect(GraphOf(rs), cutoff);
    if i == |p| - 1 {
      TargetIsNamed(rs, p[i]);
    } else {
      SourceIsResource(rs, p[i], p[i + 1]);
    }
  }

  lemma PathOfView(scanType: ScanType, findings: seq<Finding>, collected: Option<seq<Resource>>, view: PathView)
    requires view in ResponseFor(scanType, findings, collected).paths
    ensures view.nodes in AllPaths(GraphOf(ScanResources(scanType, findings, collected)), DEFAULT_CUTOFF)
  {
  }

  /** Each reported path, after the internet, runs through listed nodes only. */
  lemma PathsRunThroughListedNodes(scanType: ScanType, findings: seq<Finding>, collected: Option<seq<Resource>>, view: PathView, i: nat)
    requires view in ResponseFor(scanType, findings, collected).paths && 0 < i < |view.nodes|
    ensures exists node :: node in ResponseFor(scanType, findings, collected).nodes && node.id == view.nodes[i]
  {
    var rs, index := ScanResources(scanType, findings, collected), FindingIndex(findings);
    PathOfView(scanType, findings, collected, view);
    PathNodeIsResource(rs, DEFAULT_CUTOFF, view.nodes, i);
    var m :| 0 <= m < |rs| && rs[m].id == view.nodes[i];
    assert NodeViews(rs, index)[m] in NodeViews(rs, index);
  }

  /** And each of its steps is one of the returned links. */
  lemma PathsFollowLinks(scanType: ScanType, findings: seq<Finding>, collected: Option<seq<Resource>>, view: PathView, i: nat)
    requires view in ResponseFor(scanType, findings, collected).paths && i + 1 < |view.nodes|
    ensures exists link :: link in ResponseFor(scanType, findings, collected).links && Between(link, view.nodes[i], view.nodes[i + 1])
  {
    var g := GraphOf(ScanResources(scanType, findings, collected));
    var u, v := view.nodes[i], view.nodes[i + 1];
    PathOfView(scanType, findings, collected, view);
    GraphOfProperties(ScanResources(scanType, findings, collected));
    AllPathsAreWalks(g, DEFAULT_CUTOFF, view.nodes);
    assert g.HasEdge(u, v);
    LinksOverMember(g, g.nodes, Edge(u, v, g.labels[(u, v)]));
  }

  /** Each listed node is one distinct resource and shows the last finding listed for its id, if any. */
  lemma NodesShowLastFindings(scanType: ScanType, findings: seq<Finding>, collected: Option<seq<Resource>>, i: nat)
    requires i < |ScanResources(scanType, findings, collected)|
    ensures var node, r := ResponseFor(scanType, findings, collected).nodes[i], ScanResources(scanType, findings, collected)[i];
            && node.id == r.id && node.kind == r.kind
            && (forall f :: node.finding == Some(f) <==> LastFinding(findings, r.id, f))
  {
    var r := ScanResources(scanType, findings, collected)[i];
    forall f
      ensures r.id in FindingIndex(findings) && FindingIndex(findings)[r.id] == f <==> LastFinding(findings, r.id, f)
    {
      FindingIndexMeaning(findings, r.id, f);
    }
  }
}
