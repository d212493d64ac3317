/** What the attack-path response shows, entry by entry: nodes, links, and numbered and rated paths. */
module RouteMeaning {
  import opened Prelude
  import opened Records
  import opened Resources
  import opened AttackGraph
  import opened PathFinder
  import opened AttackRoute

  // ---- Which resources are kept ----

  /** No resource before the i-th has the same id and the same kind. */
  ghost predicate FirstListed(rs: seq<Resource>, i: int) {
    0 <= i < |rs| && rs[i].id != "" && forall j :: 0 <= j < i ==> rs[j].id != rs[i].id || rs[j].kind != rs[i].kind
  }

  lemma KeyListed(rs: seq<Resource>, r: Resource)
    requires r.id != ""
    ensures ResourceKey(r) in Keys(ResourceKey, WithId(rs)) <==> exists q :: q in rs && q.id == r.id && q.kind == r.kind
  {
    if q :| q in rs && q.id == r.id && q.kind == r.kind {
      WithIdMember(rs, q);
    }
    if ResourceKey(r) in Keys(ResourceKey, WithId(rs)) {
      var q :| q in WithId(rs) && ResourceKey(q) == ResourceKey(r);
      WithIdMember(rs, q);
    }
  }

  /** One more resource is kept exactly when it is the first of its id and kind. */
  lemma DistinctAppend(init: seq<Resource>, r: Resource)
    ensures Distinct(init + [r]) == if FirstListed(init + [r], |init|) then Distinct(init) + [r] else Distinct(init)
  {
    var rs := init + [r];
    assert rs[..|init|] == init;
    if r.id != "" {
      KeyListed(init, r);
      assert forall j :: 0 <= j < |init| ==> rs[j] in init;
    }
  }

  /** The i-th element of `kept` is the `at[i]`-th of `rs`; `at` are the first listings, all of them and in order. */
  ghost predicate KeepsFirst(rs: seq<Resource>, kept: seq<Resource>, at: seq<int>) {
    && |at| == |kept|
    && (forall i :: 0 <= i < |at| ==> FirstListed(rs, at[i]) && kept[i] == rs[at[i]])
    && (forall i, j :: 0 <= i < j < |at| ==> at[i] < at[j])
    && (forall k :: FirstListed(rs, k) ==> k in at)
  }

  lemma FirstListedAppend(init: seq<Resource>, r: Resource, k: int)
    requires k != |init|
    ensures FirstListed(init + [r], k) <==> FirstListed(init, k)
  {
    assert forall j :: 0 <= j < |init| ==> (init + [r])[j] == init[j];
  }

  lemma PlaceAppended(init: seq<Resource>, r: Resource, kept: seq<Resource>, at: seq<int>) returns (more: seq<int>)
    requires KeepsFirst(init, kept, at)
    ensures KeepsFirst(init + [r], if FirstListed(init + [r], |init|) then kept + [r] else kept, more)
  {
    var n := |init|;
    more := if FirstListed(init + [r], n) then at + [n] else at;
    forall k | k != n
      ensures FirstListed(init + [r], k) <==> FirstListed(init, k)
    {
      FirstListedAppend(init, r, k);
    }
  }

  lemma {:induction false} DistinctPlaces(rs: seq<Resource>) returns (at: seq<int>)
    ensures KeepsFirst(rs, Distinct(rs), at)
  {
    at := [];
    if rs != [] {
      var init, r := rs[..|rs| - 1], rs[|rs| - 1];
      assert rs == init + [r];
      at := DistinctPlaces(init);
      DistinctAppend(init, r);
      at := PlaceAppended(init, r, Distinct(init), at);
    }
  }

  /** Of each non-empty id and kind the first listing is kept, and nothing else, in listing order. */
  lemma DistinctKeepsFirst(rs: seq<Resource>)
    ensures exists at :: KeepsFirst(rs, Distinct(rs), at)
  {
    var at := DistinctPlaces(rs);
  }

  // ---- The rating of a path ----

  /** The highest severity among the last findings of the nodes, and Low without any. */
  ghost predicate Rates(findings: seq<Finding>, nodes: Path, severity: Severity) {
    && (forall n, f :: n in nodes && LastFinding(findings, n, f) ==> NoWorse(f.severity, severity))
    && (severity == Low || exists n, f :: n in nodes && LastFinding(findings, n, f) && f.severity == severity)
  }

  lemma HighestRates(findings: seq<Finding>, nodes: Path)
    ensures Rates(findings, nodes, HighestOn(nodes, FindingIndex(findings)))
  {
    var index := FindingIndex(findings);
    var severity := HighestOn(nodes, index);
    HighestOnPath(nodes, index);
    forall n, f | n in nodes && LastFinding(findings, n, f)
      ensures NoWorse(f.severity, severity)
    {
      FindingIndexMeaning(findings, n, f);
    }
    if severity != Low {
      var n :| n in nodes && n in index && index[n].severity == severity;
      FindingIndexMeaning(findings, n, index[n]);
    }
  }

  // ---- The response over the resources of a scan ----

  ghost predicate ShowsPaths(findings: seq<Finding>, views: seq<PathView>, paths: seq<Path>) {
    && |views| == (if |paths| < 100 then |paths| else 100)
    && forall k :: 0 <= k < |views| ==>
         views[k].number == k + 1 && views[k].nodes == paths[k] && Rates(findings, paths[k], views[k].severity)
  }

  ghost predicate ShowsNodes(findings: seq<Finding>, nodes: seq<NodeView>, rs: seq<Resource>) {
    && |nodes| == |rs|
    && forall i :: 0 <= i < |nodes| ==>
         nodes[i].id == rs[i].id && nodes[i].kind == rs[i].kind &&
         forall f :: nodes[i].finding == Some(f) <==> LastFinding(findings, rs[i].id, f)
  }

  /** Nodes, links and paths are those of the distinct resources; the paths are the first 100 with at most 5 edges. */
  ghost predicate Shows(findings: seq<Finding>, response: Response, rs: seq<Resource>) {
    && ShowsNodes(findings, response.nodes, rs)
    && response.links == LinksOf(GraphOf(rs))
    && ShowsPaths(findings, response.paths, AllPaths(GraphOf(rs), 5))
  }

  lemma PathsShown(scanType: ScanType, findings: seq<Finding>, collected: Option<seq<Resource>>)
    ensures ShowsPaths(findings, ResponseFor(scanType, findings, collected).paths,
                       AllPaths(GraphOf(ScanResources(scanType, findings, collected)), 5))
  {
    var views := ResponseFor(scanType, findings, collected).paths;
    var paths := AllPaths(GraphOf(ScanResources(scanType, findings, collected)), 5);
    forall k | 0 <= k < |views|
      ensures views[k].number == k + 1 && views[k].nodes == paths[k] && Rates(findings, paths[k], views[k].severity)
    {
      HighestRates(findings, paths[k]);
    }
  }

  lemma NodesShown(scanType: ScanType, findings: seq<Finding>, collected: Option<seq<Resource>>)
    ensures ShowsNodes(findings, ResponseFor(scanType, findings, collected).nodes, ScanResources(scanType, findings, collected))
  {
    forall i | 0 <= i < |ScanResources(scanType, findings, collected)|
      ensures var node, r := ResponseFor(scanType, findings, collected).nodes[i], ScanResources(scanType, findings, collected)[i];
              node.id == r.id && node.kind == r.kind && forall f :: node.finding == Some(f) <==> LastFinding(findings, r.id, f)
    {
      NodesShowLastFindings(scanType, findings, collected, i);
    }
  }

  /** A live scan shows what was collected, each resource once; a failed collection shows nothing. */
  lemma LiveScanShows(findings: seq<Finding>, collected: Option<seq<Resource>>)
    ensures Shows(findings, ResponseFor(LIVE, findings, collected), Distinct(if collected.Some? then collected.value else []))
  {
    NodesShown(LIVE, findings, collected);
    PathsShown(LIVE, findings, collected);
  }

  /** The resources a static scan stands for: one without relations per finding. */
  ghost predicate Mentions(findings: seq<Finding>, rs: seq<Resource>) {
    |rs| == |findings| &&
    forall i :: 0 <= i < |rs| ==>
      rs[i] == Resource(findings[i].resourceId, findings[i].resourceType, [], None, [], [], [], None)
  }

  /** A static scan shows the resources its findings mention, each once, and joins none of them. */
  lemma StaticScanShows(findings: seq<Finding>, collected: Option<seq<Resource>>, rs: seq<Resource>)
    requires Mentions(findings, rs)
    ensures var response := ResponseFor(STATIC, findings, collected);
            ShowsNodes(findings, response.nodes, Distinct(rs)) && response.links == [] && response.paths == []
  {
    assert StaticResources(findings) == rs;
    NodesShown(STATIC, findings, collected);
    StaticScansHaveNoPaths(findings);
  }
}
