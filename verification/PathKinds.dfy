/** Under typed ids the reported paths are exactly two kinds of chains in the edge list. */
module PathKinds {
  import opened Resources
  import opened Edges
  import opened AttackGraph
  import opened PathFinder
  import opened Layering

  /** internet -> instance -> role, and no edge leaves the role. */
  ghost predicate RoleChainOf(rs: seq<Resource>, p: Path) {
    && |p| == 3 && p[0] == "internet"
    && Edge(p[0], p[1], "EXPOSES") in EdgesOf(rs) && Edge(p[1], p[2], "ASSUMES") in EdgesOf(rs)
    && forall e :: e in EdgesOf(rs) ==> e.source != p[2]
  }

  /** internet -> instance -> role -> policy -> listed bucket. */
  ghost predicate BucketChainOf(rs: seq<Resource>, p: Path) {
    && |p| == 5 && p[0] == "internet"
    && Edge(p[0], p[1], "EXPOSES") in EdgesOf(rs) && Edge(p[1], p[2], "ASSUMES") in EdgesOf(rs)
    && Edge(p[2], p[3], "HAS_PERMISSION") in EdgesOf(rs) && Edge(p[3], p[4], "ACCESSES") in EdgesOf(rs)
    && exists r :: r in rs && r.id == p[4] && r.kind == "s3_bucket"
  }

  lemma EdgeIsStep(rs: seq<Resource>, e: Edge)
    requires e in EdgesOf(rs)
    ensures GraphOf(rs).HasEdge(e.source, e.target)
  {
    EdgesOfIsRelation(rs);
    assert Between(e, e.source, e.target);
    GraphHasEdge(rs, e.source, e.target);
  }

  lemma NoStepWithoutEdge(rs: seq<Resource>, u: string)
    requires forall e :: e in EdgesOf(rs) ==> e.source != u
    ensures forall v :: !GraphOf(rs).HasEdge(u, v)
  {
    EdgesOfIsRelation(rs);
    forall v
      ensures !GraphOf(rs).HasEdge(u, v)
    {
      GraphHasEdge(rs, u, v);
    }
  }

  /** A node that only resources of one kind are called has that type. */
  lemma OnlyKindIsType(rs: seq<Resource>, n: string, kind: string)
    requires n != "" && (exists r :: r in rs && r.id == n) && forall r :: r in rs && r.id == n ==> r.kind == kind
    ensures n in GraphOf(rs).types && GraphOf(rs).types[n] == kind
  {
    GraphOfProperties(rs);
    var k := LastListed(rs, n);
    assert rs[k] in rs;
    assert LastNamed(rs, n, kind);
  }

  lemma {:induction false} LastListed(rs: seq<Resource>, n: string) returns (k: nat)
    requires n != "" && exists r :: r in rs && r.id == n
    ensures LastNamedAt(rs, n, k)
  {
    k := |rs| - 1;
    if rs[k].id != n {
      var r :| r in rs && r.id == n;
      assert rs == rs[..k] + [rs[k]];
      assert r in rs[..k];
      k := LastListed(rs[..k], n);
    }
  }

  lemma WalkIsReported(rs: seq<Resource>, p: Path, kind: string)
    requires TypedIds(rs) && |p| >= 2 && p[0] == INTERNET && Walk(GraphOf(rs), p)
    requires var n := p[|p| - 1];
             && n != INTERNET && n in GraphOf(rs).types && GraphOf(rs).types[n] == kind
             && (kind == ROLE || kind == BUCKET) && forall v :: !GraphOf(rs).HasEdge(n, v)
    ensures p in AllPaths(GraphOf(rs), DEFAULT_CUTOFF)
  {
    var g, n := GraphOf(rs), p[|p| - 1];
    assert g.Successors(n) != [] ==> g.HasEdge(n, g.Successors(n)[0]);
    AttackPathsAreWalks(rs, p);
  }

  lemma AssumedIsRole(rs: seq<Resource>, u: string, v: string)
    requires TypedIds(rs) && Edge(u, v, ASSUMES) in EdgesOf(rs)
    ensures v != INTERNET && v in GraphOf(rs).types && GraphOf(rs).types[v] == ROLE
  {
    EdgesOfIsRelation(rs);
    EdgeEnds(rs, Edge(u, v, ASSUMES));
    OnlyKindIsType(rs, v, ROLE);
  }

  lemma AccessedIsBucket(rs: seq<Resource>, u: string, v: string)
    requires TypedIds(rs) && Edge(u, v, ACCESSES) in EdgesOf(rs)
    requires exists r :: r in rs && r.id == v && r.kind == BUCKET
    ensures v != INTERNET && Named(rs, v, BUCKET) && v in GraphOf(rs).types && GraphOf(rs).types[v] == BUCKET
  {
    var e := Edge(u, v, ACCESSES);
    EdgesOfIsRelation(rs);
    EdgeEnds(rs, e);
    var r :| r in rs && Justifies(rs, r, e);
    assert AccessBy(r, e);
    OnlyKindIsType(rs, v, BUCKET);
  }

  lemma RoleChainIsReported(rs: seq<Resource>, p: Path)
    requires TypedIds(rs) && RoleChainOf(rs, p)
    ensures p in AllPaths(GraphOf(rs), DEFAULT_CUTOFF)
  {
    EdgeIsStep(rs, Edge(p[0], p[1], EXPOSES));
    EdgeIsStep(rs, Edge(p[1], p[2], ASSUMES));
    AssumedIsRole(rs, p[1], p[2]);
    NoStepWithoutEdge(rs, p[2]);
    WalkIsReported(rs, p, ROLE);
  }

  lemma BucketLeadsNowhere(rs: seq<Resource>, n: string)
    requires TypedIds(rs) && n != INTERNET && Named(rs, n, BUCKET)
    ensures forall v :: !GraphOf(rs).HasEdge(n, v)
  {
    forall v
      ensures !GraphOf(rs).HasEdge(n, v)
    {
      if GraphOf(rs).HasEdge(n, v) {
        SourceIsNamed(rs, n, v);
      }
    }
  }

  lemma BucketChainIsReported(rs: seq<Resource>, p: Path)
    requires TypedIds(rs) && BucketChainOf(rs, p)
    ensures p in AllPaths(GraphOf(rs), DEFAULT_CUTOFF)
  {
    EdgeIsStep(rs, Edge(p[0], p[1], EXPOSES));
    EdgeIsStep(rs, Edge(p[1], p[2], ASSUMES));
    EdgeIsStep(rs, Edge(p[2], p[3], HAS_PERMISSION));
    EdgeIsStep(rs, Edge(p[3], p[4], ACCESSES));
    AccessedIsBucket(rs, p[3], p[4]);
    BucketLeadsNowhere(rs, p[4]);
    WalkIsReported(rs, p, BUCKET);
  }

  lemma ReportedIsChain(rs: seq<Resource>, p: Path)
    requires TypedIds(rs) && p in AllPaths(GraphOf(rs), DEFAULT_CUTOFF)
    ensures RoleChainOf(rs, p) || BucketChainOf(rs, p)
  {
    PathShape(rs, p);
    AttackPathsAreWalks(rs, p);
    GraphOfProperties(rs);
    if |p| == 3 {
      forall e | e in EdgesOf(rs)
        ensures e.source != p[2]
      {
        EdgeIsStep(rs, e);
      }
    }
  }

  /** Under typed ids a path is reported exactly when it is such a chain. */
  lemma PathsAreChains(rs: seq<Resource>, p: Path)
    requires TypedIds(rs)
    ensures p in AllPaths(GraphOf(rs), DEFAULT_CUTOFF) <==> RoleChainOf(rs, p) || BucketChainOf(rs, p)
  {
    if RoleChainOf(rs, p) {
      RoleChainIsReported(rs, p);
    } else if BucketChainOf(rs, p) {
      BucketChainIsReported(rs, p);
    } else if p in AllPaths(GraphOf(rs), DEFAULT_CUTOFF) {
      ReportedIsChain(rs, p);
    }
  }
}
