/** The orders a NetworkX graph keeps: of its nodes, of each node's successors, and of the links read off it. */
module GraphOrder {
  import opened Prelude
  import opened Ordering
  import opened Resources
  import opened Edges
  import opened AttackGraph

  // ---- Nodes ----

  /** The ids the resources mention, in order. */
  function IdsOf(rs: seq<Resource>): seq<string> {
    if rs == [] then []
    else IdsOf(rs[..|rs| - 1]) + (if rs[|rs| - 1].id == "" then [] else [rs[|rs| - 1].id])
  }

  /** The ends the edges mention, in order. */
  function EndsOf(es: seq<Edge>): seq<string> {
    if es == [] then [] else EndsOf(es[..|es| - 1]) + [es[|es| - 1].source, es[|es| - 1].target]
  }

  /** The targets of the edges that leave `u`, in order. */
  function TargetsFrom(es: seq<Edge>, u: string): seq<string> {
    if es == [] then []
    else TargetsFrom(es[..|es| - 1], u) + (if es[|es| - 1].source == u then [es[|es| - 1].target] else [])
  }

  /** Each text once, where it is first mentioned. */
  function Once(xs: seq<string>): seq<string> {
    DedupBy(Identity, xs)
  }

  lemma OnceAppend(xs: seq<string>, x: string)
    ensures Once(xs + [x]) == if x in xs then Once(xs) else Once(xs) + [x]
    ensures x in Once(xs) <==> x in xs
  {
    DedupByKeys(Identity, xs);
    IdentityKeys(xs);
    IdentityKeys(Once(xs));
  }

  lemma IdentityKeys(xs: seq<string>)
    ensures forall x :: x in Keys(Identity, xs) <==> x in xs
  {
  }

  lemma NodeAppended(g: Graph, xs: seq<string>, n: string)
    requires g.WellFormed() && g.nodes == Once(xs)
    ensures WithNode(g, n).WellFormed() && WithNode(g, n).nodes == Once(xs + [n])
  {
    OnceAppend(xs, n);
    WithNodeWellFormed(g, n);
  }

  lemma {:induction false} ResourceNodes(rs: seq<Resource>)
    ensures WithResources(EMPTY, rs).WellFormed()
    ensures WithResources(EMPTY, rs).nodes == Once(IdsOf(rs))
    ensures forall u :: WithResources(EMPTY, rs).Successors(u) == []
  {
    if rs != [] {
      var init, r := rs[..|rs| - 1], rs[|rs| - 1];
      ResourceNodes(init);
      if r.id == "" {
        assert IdsOf(rs) == IdsOf(init);
      } else {
        TypedNodeAppended(WithResources(EMPTY, init), IdsOf(init), r.id, r.kind);
      }
    }
  }

  lemma TypedNodeAppended(g: Graph, xs: seq<string>, n: string, kind: string)
    requires g.WellFormed() && g.nodes == Once(xs) && forall u :: g.Successors(u) == []
    ensures var h := WithTypedNode(g, n, kind);
            h.WellFormed() && h.nodes == Once(xs + [n]) && forall u :: h.Successors(u) == []
  {
    var h, k := WithNode(g, n), WithTypedNode(g, n, kind);
    NodeAppended(g, xs, n);
    assert forall u, v :: k.HasEdge(u, v) <==> h.HasEdge(u, v);
    forall u
      ensures k.Successors(u) == []
    {
      assert g.Successors(u) == [];
    }
  }

  lemma EdgeNodes(g: Graph, xs: seq<string>, e: Edge)
    requires g.WellFormed() && g.nodes == Once(xs)
    ensures WithEdge(g, e.source, e.target, e.relationship).WellFormed()
    ensures WithEdge(g, e.source, e.target, e.relationship).nodes == Once(xs + [e.source, e.target])
  {
    NodeAppended(g, xs, e.source);
    NodeAppended(WithNode(g, e.source), xs + [e.source], e.target);
    assert xs + [e.source] + [e.target] == xs + [e.source, e.target];
    WithEdgeWellFormed(g, e.source, e.target, e.relationship);
  }

  lemma {:induction false} EdgesNodes(g: Graph, xs: seq<string>, es: seq<Edge>)
    requires g.WellFormed() && g.nodes == Once(xs)
    ensures WithEdges(g, es).WellFormed() && WithEdges(g, es).nodes == Once(xs + EndsOf(es))
  {
    if es == [] {
      assert xs + [] == xs;
    } else {
      var init, e := es[..|es| - 1], es[|es| - 1];
      EdgesNodes(g, xs, init);
      var h := WithEdges(g, init);
      EdgeNodes(h, xs + EndsOf(init), e);
      EndsAppend(xs, es);
      assert WithEdges(g, es) == WithEdge(h, e.source, e.target, e.relationship);
    }
  }

  lemma EndsAppend(xs: seq<string>, es: seq<Edge>)
    requires es != []
    ensures xs + EndsOf(es) == xs + EndsOf(es[..|es| - 1]) + [es[|es| - 1].source, es[|es| - 1].target]
  {
    ConcatAssociates(xs, EndsOf(es[..|es| - 1]), [es[|es| - 1].source, es[|es| - 1].target]);
  }

  lemma ConcatAssociates(a: seq<string>, b: seq<string>, c: seq<string>)
    ensures a + (b + c) == a + b + c
  {
  }

  /** Nodes stand in the order of first mention: the listed resources, then the ends of the edges. */
  lemma NodesInOrder(rs: seq<Resource>)
    ensures GraphOf(rs).nodes == Once(IdsOf(rs) + EndsOf(EdgesOf(rs)))
  {
    ResourceNodes(rs);
    EdgesNodes(WithResources(EMPTY, rs), IdsOf(rs), EdgesOf(rs));
  }

  // ---- Successors ----

  lemma EdgeSuccessors(g: Graph, e: Edge, u: string)
    requires g.WellFormed()
    ensures WithEdge(g, e.source, e.target, e.relationship).Successors(u) ==
            if e.source == u && e.target !in g.Successors(u) then g.Successors(u) + [e.target] else g.Successors(u)
  {
  }

  lemma {:induction false} EdgesSuccessors(g: Graph, es: seq<Edge>, u: string)
    requires g.WellFormed() && forall v :: g.Successors(v) == []
    ensures WithEdges(g, es).WellFormed() && WithEdges(g, es).Successors(u) == Once(TargetsFrom(es, u))
  {
    if es != [] {
      var init, e := es[..|es| - 1], es[|es| - 1];
      EdgesSuccessors(g, init, u);
      WithEdgeWellFormed(WithEdges(g, init), e.source, e.target, e.relationship);
      EdgeSuccessors(WithEdges(g, init), e, u);
      if e.source == u {
        OnceAppend(TargetsFrom(init, u), e.target);
      } else {
        assert TargetsFrom(es, u) == TargetsFrom(init, u);
      }
    }
  }

  /** The successors of a node stand in the order in which its edges are first listed. */
  lemma SuccessorsInOrder(rs: seq<Resource>, u: string)
    ensures GraphOf(rs).Successors(u) == Once(TargetsFrom(EdgesOf(rs), u))
  {
    ResourceNodes(rs);
    EdgesSuccessors(WithResources(EMPTY, rs), EdgesOf(rs), u);
  }

  // ---- Links ----

  /** The first link leaves an earlier node, or the same node for an earlier successor. */
  ghost predicate LinkedBefore(g: Graph, e: Edge, f: Edge) {
    || InOrder(g.nodes, e.source, f.source)
    || (e.source == f.source && InOrder(g.Successors(e.source), e.target, f.target))
  }

  ghost predicate InOrder(xs: seq<string>, x: string, y: string) {
    exists c, d :: 0 <= c < d < |xs| && xs[c] == x && xs[d] == y
  }

  lemma {:induction false} LinksOverInOrder(g: Graph, n: nat, i: nat, j: nat)
    requires g.WellFormed() && n <= |g.nodes| && i < j < |LinksOver(g, g.nodes[..n])|
    ensures LinkedBefore(g, LinksOver(g, g.nodes[..n])[i], LinksOver(g, g.nodes[..n])[j])
  {
    PrefixStep(g.nodes, n - 1);
    var u := g.nodes[n - 1];
    var before, row := LinksOver(g, g.nodes[..n - 1]), LinksFrom(g, u, g.Successors(u));
    LinksFromPairs(g, u, g.Successors(u));
    if j < |before| {
      LinksOverInOrder(g, n - 1, i, j);
    } else if i < |before| {
      LinksOverMember(g, g.nodes[..n - 1], before[i]);
      var a :| 0 <= a < n - 1 && g.nodes[a] == before[i].source;
      assert Between(row[j - |before|], u, g.Successors(u)[j - |before|]);
    } else {
      var c, d := i - |before|, j - |before|;
      assert Between(row[c], u, g.Successors(u)[c]) && Between(row[d], u, g.Successors(u)[d]);
    }
  }

  /** Links come node by node, and for each node successor by successor. */
  lemma LinksInOrder(rs: seq<Resource>, i: nat, j: nat)
    requires i < j < |LinksOf(GraphOf(rs))|
    ensures LinkedBefore(GraphOf(rs), LinksOf(GraphOf(rs))[i], LinksOf(GraphOf(rs))[j])
  {
    var g := GraphOf(rs);
    GraphOfProperties(rs);
    assert g.nodes[..|g.nodes|] == g.nodes;
    LinksOverInOrder(g, |g.nodes|, i, j);
  }
}
