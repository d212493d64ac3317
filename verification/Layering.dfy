/** The layers internet -> instance -> role -> policy -> bucket, and what they imply for links and paths. */
module Layering {
  import opened Prelude
  import Json
  import opened Resources
  import opened Edges
  import opened AttackGraph
  import opened PathFinder

  // ---- Typed ids ----

  /** No resource is called "internet" and no id belongs to two kinds of resource. */
  ghost predicate DistinctIds(rs: seq<Resource>) {
    && (forall r :: r in rs ==> r.id != INTERNET)
    && (forall r, q :: r in rs && q in rs && r.id == q.id && r.id != "" ==> r.kind == q.kind)
  }

  /** `name` is not "internet", and it is either no resource at all or one of the given kind. */
  ghost predicate NamesOnly(rs: seq<Resource>, name: string, kind: string) {
    name != INTERNET && forall q :: q in rs && q.id == name && name != "" ==> q.kind == kind
  }

  ghost predicate TypedNames(rs: seq<Resource>) {
    && (forall r, arn :: r in rs && r.kind == ROLE && r.id != "" && arn in r.policyArns && arn != ""
          ==> NamesOnly(rs, ExtractName(arn), POLICY))
    && (forall r, id :: r in rs && r.kind == POLICY && r.id != "" && id != "" &&
          (BucketName(id) in r.buckets || BucketRecord(Some(id)) in r.buckets)
          ==> NamesOnly(rs, id, BUCKET))
  }

  ghost predicate TypedIds(rs: seq<Resource>) {
    DistinctIds(rs) && TypedNames(rs)
  }

  /** Some resource of the given kind carries the (non-empty) id. */
  ghost predicate Named(rs: seq<Resource>, n: string, kind: string) {
    n != "" && exists r :: r in rs && r.id == n && r.kind == kind
  }

  // ---- Links lose nothing ----

  /** The source alone determines the relationship. */
  lemma SourceDeterminesRelationship(rs: seq<Resource>, e: Edge, f: Edge)
    requires DistinctIds(rs) && Related(rs, e) && Related(rs, f) && e.source == f.source
    ensures e.relationship == f.relationship
  {
  }

  /** With distinct ids, the links of the graph are exactly the edges that were built. */
  lemma LinksAreEdges(rs: seq<Resource>)
    requires DistinctIds(rs)
    ensures forall e :: e in LinksOf(GraphOf(rs)) <==> e in EdgesOf(rs)
  {
    EdgesOfIsRelation(rs);
    LinksRoundTrip(rs);
    if Ambiguous(EdgesOf(rs)) {
      var e, f :| e in EdgesOf(rs) && f in EdgesOf(rs) && Between(f, e.source, e.target) && e != f;
      SourceDeterminesRelationship(rs, e, f);
      assert false;
    }
  }

  function Bare(id: string, kind: string): Resource {
    Resource(id, kind, [], None, [], [], [], None)
  }

  /** Whenever one pair carries two relationships, one of them is lost. */
  lemma AmbiguityLosesALink(rs: seq<Resource>)
    requires Ambiguous(EdgesOf(rs))
    ensures exists e :: e in EdgesOf(rs) && e !in LinksOf(GraphOf(rs))
  {
    LinksRoundTrip(rs);
    forall x
      ensures x in LinksOf(GraphOf(rs)) ==> x in EdgesOf(rs)
    {
      LinksAreLastEdges(rs, x);
    }
  }

  /** A role and a policy of one name that both point to "b". */
  function SharedIds(): seq<Resource> {
    [Bare("a", ROLE).(policyArns := ["b"]), Bare("a", POLICY).(buckets := [BucketName("b")])]
  }

  const ROLE_LINK := Edge("a", "b", HAS_PERMISSION)
  const POLICY_LINK := Edge("a", "b", ACCESSES)

  lemma SharedIdRawEdges()
    ensures RawEdges(SharedIds(), ProfileIndex(SharedIds()), SharedIds()) == [ROLE_LINK, POLICY_LINK]
  {
  }

  lemma TwoKeysStay(e: Edge, f: Edge)
    requires EdgeKey(e) != EdgeKey(f)
    ensures DedupBy(EdgeKey, [e, f]) == [e, f]
  {
    assert [e, f][..1] == [e] && [e][..0] == [];
    assert Keys(EdgeKey, [e]) == {EdgeKey(e)};
    assert DedupBy(EdgeKey, [e]) == [e];
  }

  lemma SharedIdEdges()
    ensures EdgesOf(SharedIds()) == [ROLE_LINK, POLICY_LINK]
  {
    SharedIdRawEdges();
    assert |HAS_PERMISSION| != |ACCESSES| && EdgeKey(ROLE_LINK).2 != EdgeKey(POLICY_LINK).2;
    TwoKeysStay(ROLE_LINK, POLICY_LINK);
  }

  /** Without distinct ids a link is lost: of the two edges of that list only the later one is left. */
  lemma SharedIdLosesALink()
    ensures ROLE_LINK in EdgesOf(SharedIds()) && ROLE_LINK !in LinksOf(GraphOf(SharedIds()))
    ensures POLICY_LINK in EdgesOf(SharedIds()) && POLICY_LINK in LinksOf(GraphOf(SharedIds()))
  {
    var es := EdgesOf(SharedIds());
    SharedIdEdges();
    assert Between(es[0], "a", "b") && Between(es[1], "a", "b");
    assert LastBetweenAt(es, "a", "b", 1);
    LinksAreLastEdges(SharedIds(), ROLE_LINK);
    LinksAreLastEdges(SharedIds(), POLICY_LINK);
  }

  // ---- Ranks ----

  ghost function Rank(rs: seq<Resource>, n: string): nat {
    if n == INTERNET then 4
    else if Named(rs, n, INSTANCE) then 3
    else if Named(rs, n, ROLE) then 2
    else if Named(rs, n, POLICY) then 1
    else 0
  }

  /** The kinds at the two ends of an edge, by relationship. */
  lemma EdgeEnds(rs: seq<Resource>, e: Edge)
    requires TypedIds(rs) && Related(rs, e)
    ensures e.relationship == EXPOSES ==> e.source == INTERNET && e.target != INTERNET && (e.target != "" ==> Named(rs, e.target, INSTANCE))
    ensures e.relationship == ASSUMES ==> Named(rs, e.source, INSTANCE) && Named(rs, e.target, ROLE)
    ensures e.relationship == HAS_PERMISSION ==> Named(rs, e.source, ROLE) && NamesOnly(rs, e.target, POLICY)
    ensures e.relationship == ACCESSES ==> Named(rs, e.source, POLICY) && NamesOnly(rs, e.target, BUCKET)
    ensures e.relationship == EXPOSES || e.relationship == ASSUMES || e.relationship == HAS_PERMISSION || e.relationship == ACCESSES
  {
  }

  /** Every edge leads to a strictly lower layer. */
  lemma LayersFall(rs: seq<Resource>)
    requires TypedIds(rs)
    ensures Ranks(GraphOf(rs), n => Rank(rs, n))
  {
    forall u, v | GraphOf(rs).HasEdge(u, v)
      ensures Rank(rs, v) < Rank(rs, u)
    {
      GraphHasEdge(rs, u, v);
      var e :| Related(rs, e) && Between(e, u, v);
      EdgeEnds(rs, e);
    }
  }

  /** Under typed ids every walk from the internet has at most four edges and never returns to a node. */
  lemma WalksAreShort(rs: seq<Resource>, p: Path)
    requires TypedIds(rs) && p != [] && p[0] == INTERNET && Walk(GraphOf(rs), p)
    ensures |p| - 1 <= 4
    ensures NoDup(p)
  {
    LayersFall(rs);
    WalkFallsInRank(GraphOf(rs), n => Rank(rs, n), p);
    forall i, j | 0 <= i < j < |p|
      ensures p[i] != p[j]
    {
      WalkFallsInRank(GraphOf(rs), n => Rank(rs, n), p[i..j + 1]);
    }
  }

  /** So the default cutoff drops no path: any cutoff of at least 4 gives the same list. */
  lemma DefaultCutoffDropsNothing(rs: seq<Resource>, cutoff: int)
    requires TypedIds(rs) && cutoff >= 4
    ensures AllPaths(GraphOf(rs), cutoff) == AllPaths(GraphOf(rs), DEFAULT_CUTOFF)
  {
    GraphOfProperties(rs);
    forall p | Reaches(GraphOf(rs), p)
      ensures |p| - 1 <= 4
    {
      WalksAreShort(rs, p);
    }
    CutoffDropsNothingExactly(GraphOf(rs), 4);
  }

  /** The reported paths are all the walks to a target, with no mention of simplicity or length: neither bound ever bites. */
  lemma AttackPathsAreWalks(rs: seq<Resource>, p: Path)
    requires TypedIds(rs)
    ensures p in AllPaths(GraphOf(rs), DEFAULT_CUTOFF) <==>
            |p| >= 2 && p[0] == INTERNET && Walk(GraphOf(rs), p) && IsTarget(GraphOf(rs), p[|p| - 1])
  {
    GraphOfProperties(rs);
    AllPathsCorrect(GraphOf(rs), DEFAULT_CUTOFF);
    if |p| >= 2 && p[0] == INTERNET && Walk(GraphOf(rs), p) {
      WalksAreShort(rs, p);
    }
  }

  // ---- The shape of a reported path ----

  ghost predicate StepIs(rs: seq<Resource>, p: Path, i: nat, relationship: string) {
    i + 1 < |p| && Edge(p[i], p[i + 1], relationship) in EdgesOf(rs)
  }

  lemma EdgeBelow(rs: seq<Resource>, u: string, v: string, kind: string) returns (e: Edge)
    requires TypedIds(rs) && GraphOf(rs).HasEdge(u, v)
    requires u == INTERNET || Named(rs, u, kind)
    ensures e in EdgesOf(rs) && Between(e, u, v)
    ensures e.relationship == EXPOSES <==> u == INTERNET
    ensures u != INTERNET ==> (e.relationship == ASSUMES <==> kind == INSTANCE)
    ensures u != INTERNET ==> (e.relationship == HAS_PERMISSION <==> kind == ROLE)
    ensures u != INTERNET ==> (e.relationship == ACCESSES <==> kind == POLICY)
  {
    GraphHasEdge(rs, u, v);
    EdgesOfIsRelation(rs);
    e :| Related(rs, e) && Between(e, u, v);
    EdgeEnds(rs, e);
  }

  /** A node with an outgoing edge is the internet or a named instance, role or policy. */
  lemma SourceIsNamed(rs: seq<Resource>, u: string, v: string)
    requires TypedIds(rs) && GraphOf(rs).HasEdge(u, v)
    ensures u == INTERNET || Named(rs, u, INSTANCE) || Named(rs, u, ROLE) || Named(rs, u, POLICY)
  {
    GraphHasEdge(rs, u, v);
    var e :| Related(rs, e) && Between(e, u, v);
    EdgeEnds(rs, e);
  }

  lemma TargetIsNamed(rs: seq<Resource>, n: string)
    requires IsTarget(GraphOf(rs), n)
    ensures Named(rs, n, ROLE) || Named(rs, n, BUCKET)
  {
    GraphOfProperties(rs);
    var kind := GraphOf(rs).types[n];
    assert LastNamed(rs, n, kind);
    var k :| LastNamedAt(rs, n, k) && rs[k].kind == kind;
    assert rs[k] in rs;
  }

  /**
   * A reported path is internet -> instance -> role, ending at a role without policies, or it runs through
   * a policy to a bucket; no other length or order occurs.
   */
  lemma PathShape(rs: seq<Resource>, p: Path)
    requires TypedIds(rs) && p in AllPaths(GraphOf(rs), DEFAULT_CUTOFF)
    ensures |p| == 3 || |p| == 5
    ensures Named(rs, p[1], INSTANCE) && Named(rs, p[2], ROLE)
    ensures StepIs(rs, p, 0, EXPOSES) && StepIs(rs, p, 1, ASSUMES)
    ensures |p| == 5 ==> Named(rs, p[3], POLICY) && Named(rs, p[4], BUCKET)
    ensures |p| == 5 ==> StepIs(rs, p, 2, HAS_PERMISSION) && StepIs(rs, p, 3, ACCESSES)
  {
    var g := GraphOf(rs);
    AttackPathsAreWalks(rs, p);
    WalksAreShort(rs, p);
    var last := p[|p| - 1];
    TargetIsNamed(rs, last);
    assert g.HasEdge(p[0], p[1]);
    var e0 := EdgeBelow(rs, p[0], p[1], "");
    EdgesOfIsRelation(rs);
    EdgeEnds(rs, e0);
    assert e0 == Edge(p[0], p[1], EXPOSES);
    if |p| == 2 {
      NamedIsNotBoth(rs, p[1], INSTANCE);
    }
    assert g.HasEdge(p[1], p[2]);
    SourceIsNamed(rs, p[1], p[2]);
    var e1 := EdgeBelow(rs, p[1], p[2], INSTANCE);
    EdgeEnds(rs, e1);
    assert e1 == Edge(p[1], p[2], ASSUMES);
    if |p| >= 4 {
      assert g.HasEdge(p[2], p[3]);
      var e2 := EdgeBelow(rs, p[2], p[3], ROLE);
      EdgeEnds(rs, e2);
      assert e2 == Edge(p[2], p[3], HAS_PERMISSION);
      if |p| == 4 {
        NamedIsNotBoth(rs, p[3], POLICY);
      }
      assert g.HasEdge(p[3], p[4]);
      SourceIsNamed(rs, p[3], p[4]);
      var e3 := EdgeBelow(rs, p[3], p[4], POLICY);
      EdgeEnds(rs, e3);
      assert e3 == Edge(p[3], p[4], ACCESSES);
    }
  }

  /** What only an instance, or only a policy, may be called is not the id of a role or a bucket. */
  lemma NamedIsNotBoth(rs: seq<Resource>, n: string, kind: string)
    requires DistinctIds(rs) && (Named(rs, n, kind) || NamesOnly(rs, n, kind))
    requires kind == INSTANCE || kind == POLICY
    ensures !Named(rs, n, ROLE) && !Named(rs, n, BUCKET)
  {
  }

  // ---- Without typed ids the cutoff does drop paths ----

  function RoleChain(): seq<Resource> {
    [ Bare("sg", GROUP).(ingress := Some(Json.Obj(map["cidr" := Json.Str(ANYWHERE)]))),
      Bare("i", INSTANCE).(securityGroups := ["sg"], profileArn := Some("p")),
      Bare("r1", ROLE).(profileArns := ["p"], policyArns := ["r2"]),
      Bare("r2", ROLE).(policyArns := ["r3"]),
      Bare("r3", ROLE).(policyArns := ["r4"]),
      Bare("r4", ROLE).(policyArns := ["r5"]),
      Bare("r5", ROLE) ]
  }

  lemma RoleChainEdge(k: nat, from: string, to: string)
    requires 2 <= k <= 5 && RoleChain()[k].id == from && RoleChain()[k].policyArns == [to]
    requires from == "r1" || from == "r2" || from == "r3" || from == "r4"
    requires to == "r2" || to == "r3" || to == "r4" || to == "r5"
    ensures GraphOf(RoleChain()).HasEdge(from, to)
  {
    var rs := RoleChain();
    var e := Edge(from, to, HAS_PERMISSION);
    assert ExtractName(to) == to;
    assert rs[k] in rs && to in rs[k].policyArns && Justifies(rs, rs[k], e);
    assert Related(rs, e) && Between(e, from, to);
    GraphHasEdge(rs, from, to);
  }

  lemma RoleChainExposure()
    ensures GraphOf(RoleChain()).HasEdge(INTERNET, "i")
  {
    var rs := RoleChain();
    var e := Edge(INTERNET, "i", EXPOSES);
    var group, x := rs[0], rs[1];
    assert IsPublic(group);
    assert group in rs && x in rs && "sg" in x.securityGroups;
    assert ExposureBy(rs, group, e);
    assert Justifies(rs, group, e);
    assert Related(rs, e) && Between(e, INTERNET, "i");
    GraphHasEdge(rs, INTERNET, "i");
  }

  lemma RoleChainAssumes()
    ensures GraphOf(RoleChain()).HasEdge("i", "r1")
  {
    var rs := RoleChain();
    var e := Edge("i", "r1", ASSUMES);
    var x := rs[1];
    assert Declares(rs[2], "p");
    assert forall j :: 2 < j < |rs| ==> rs[j].profileArns == [];
    assert LastDeclarerAt(rs, "p", 2);
    assert x in rs && Justifies(rs, x, e);
    assert Related(rs, e) && Between(e, "i", "r1");
    GraphHasEdge(rs, "i", "r1");
  }

  /** A role without policies is a target. */
  lemma BareRoleIsTarget(rs: seq<Resource>, n: string, k: nat)
    requires n != INTERNET && n != "" && LastNamedAt(rs, n, k) && rs[k].kind == ROLE
    requires forall r :: r in rs && r.id == n ==> r.kind == ROLE && r.policyArns == []
    ensures IsTarget(GraphOf(rs), n)
  {
    var g := GraphOf(rs);
    GraphOfProperties(rs);
    assert LastNamed(rs, n, ROLE);
    forall v
      ensures !g.HasEdge(n, v)
    {
      GraphHasEdge(rs, n, v);
      forall e, r | Between(e, n, v) && r in rs
        ensures !Justifies(rs, r, e)
      {
      }
    }
    if g.Successors(n) != [] {
      assert g.HasEdge(n, g.Successors(n)[0]);
    }
  }

  lemma RoleChainEnd()
    ensures IsTarget(GraphOf(RoleChain()), "r5")
  {
    var rs := RoleChain();
    assert rs[6].id == "r5" && rs[6].kind == ROLE && |rs| == 7;
    assert forall j :: 0 <= j < 6 ==> rs[j].id != "r5";
    assert LastNamedAt(rs, "r5", 6);
    BareRoleIsTarget(rs, "r5", 6);
  }

  const CHAIN_PATH: Path := [INTERNET, "i", "r1", "r2", "r3", "r4", "r5"]

  lemma RoleChainWalk()
    ensures Walk(GraphOf(RoleChain()), CHAIN_PATH)
  {
    var g, p := GraphOf(RoleChain()), CHAIN_PATH;
    RoleChainExposure();
    RoleChainAssumes();
    RoleChainEdge(2, "r1", "r2");
    RoleChainEdge(3, "r2", "r3");
    RoleChainEdge(4, "r3", "r4");
    RoleChainEdge(5, "r4", "r5");
    forall i | 0 <= i < |p| - 1
      ensures g.HasEdge(p[i], p[i + 1])
    {
    }
  }

  lemma RoleChainDistinct()
    ensures NoDup(CHAIN_PATH)
  {
  }

  /** Roles attached to one another by policy name: a path of six edges that the default cutoff of 5 hides. */
  lemma UntypedNamesOutgrowTheCutoff()
    ensures !TypedIds(RoleChain())
    ensures CHAIN_PATH in AllPaths(GraphOf(RoleChain()), 6)
    ensures CHAIN_PATH !in AllPaths(GraphOf(RoleChain()), DEFAULT_CUTOFF)
  {
    RoleChainWalk();
    RoleChainDistinct();
    RoleChainEnd();
    LongPathIsHidden(RoleChain(), CHAIN_PATH);
  }

  /** A repetition-free walk of six edges to a target is found with a cutoff of 6 and not with the default. */
  lemma LongPathIsHidden(rs: seq<Resource>, p: Path)
    requires |p| == 7 && p[0] == INTERNET && NoDup(p) && Walk(GraphOf(rs), p) && IsTarget(GraphOf(rs), p[6])
    ensures !TypedIds(rs)
    ensures p in AllPaths(GraphOf(rs), 6) && p !in AllPaths(GraphOf(rs), DEFAULT_CUTOFF)
  {
    GraphOfProperties(rs);
    LongPathIsLost(GraphOf(rs), DEFAULT_CUTOFF, p);
    if TypedIds(rs) {
      WalksAreShort(rs, p);
    }
  }
}
