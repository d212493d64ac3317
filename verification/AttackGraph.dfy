/** The directed graph of the attack paths, its construction from resources, and its links. */
module AttackGraph {
  import opened Prelude
  import opened Resources
  import opened Edges

  /**
   * The value of a NetworkX DiGraph as this code uses it: nodes in insertion order, the `resource_type`
   * attribute where it was set, successors in insertion order, one relationship per (source, target).
   */
  datatype Graph = Graph(
    nodes: seq<string>,
    types: map<string, string>,
    adjacent: map<string, seq<string>>,
    labels: map<(string, string), string>)
  {
    predicate HasEdge(u: string, v: string) {
      u in adjacent && v in adjacent[u]
    }

    function Successors(u: string): seq<string> {
      if u in adjacent then adjacent[u] else []
    }

    ghost predicate WellFormed() {
      && NoDup(nodes)
      && (forall n :: n in nodes <==> n in adjacent)
      && (forall n :: n in types ==> n in adjacent)
      && (forall u :: u in adjacent ==> NoDup(adjacent[u]))
      && (forall u, v :: HasEdge(u, v) ==> v in adjacent)
      && (forall u, v :: (u, v) in labels <==> HasEdge(u, v))
    }
  }

  const EMPTY := Graph([], map[], map[], map[])

  function WithNode(g: Graph, n: string): Graph {
    if n in g.adjacent then g
    else g.(nodes := g.nodes + [n], adjacent := g.adjacent[n := []])
  }

  function WithTypedNode(g: Graph, n: string, kind: string): Graph {
    var h := WithNode(g, n);
    h.(types := h.types[n := kind])
  }

  function WithEdge(g: Graph, u: string, v: string, relation: string): Graph {
    var h := WithNode(WithNode(g, u), v);
    h.(adjacent := if v in h.adjacent[u] then h.adjacent else h.adjacent[u := h.adjacent[u] + [v]],
       labels := h.labels[(u, v) := relation])
  }

  function WithResources(g: Graph, rs: seq<Resource>): Graph {
    if rs == [] then g
    else
      var h, r := WithResources(g, rs[..|rs| - 1]), rs[|rs| - 1];
      if r.id == "" then h else WithTypedNode(h, r.id, r.kind)
  }

  function WithEdges(g: Graph, es: seq<Edge>): Graph {
    if es == [] then g
    else
      var e := es[|es| - 1];
      WithEdge(WithEdges(g, es[..|es| - 1]), e.source, e.target, e.relationship)
  }

  function GraphOf(rs: seq<Resource>): Graph {
    WithEdges(WithResources(EMPTY, rs), EdgesOf(rs))
  }

  // ---- The mutable graph ----

  class DiGraph {
    var nodes: seq<string>
    var types: map<string, string>
    var adjacent: map<string, seq<string>>
    var labels: map<(string, string), string>

    function Value(): Graph
      reads this
    {
      Graph(nodes, types, adjacent, labels)
    }

    constructor ()
      ensures Value() == EMPTY
    {
      nodes, types, adjacent, labels := [], map[], map[], map[];
    }

    method AddNode(n: string)
      modifies this
      ensures Value() == WithNode(old(Value()), n)
    {
      if n !in adjacent {
        nodes := nodes + [n];
        adjacent := adjacent[n := []];
      }
    }

    method AddTypedNode(n: string, kind: string)
      modifies this
      ensures Value() == WithTypedNode(old(Value()), n, kind)
    {
      AddNode(n);
      types := types[n := kind];
    }

    method AddEdge(u: string, v: string, relation: string)
      modifies this
      ensures Value() == WithEdge(old(Value()), u, v, relation)
    {
      AddNode(u);
      AddNode(v);
      if v !in adjacent[u] {
        adjacent := adjacent[u := adjacent[u] + [v]];
      }
      labels := labels[(u, v) := relation];
    }
  }

  method BuildAttackGraph(rs: seq<Resource>) returns (graph: DiGraph)
    ensures fresh(graph)
    ensures graph.Value() == GraphOf(rs)
  {
    graph := new DiGraph();
    for i := 0 to |rs|
      invariant fresh(graph)
      invariant graph.Value() == WithResources(EMPTY, rs[..i])
    {
      PrefixStep(rs, i);
      if rs[i].id == "" {
        continue;
      }
      graph.AddTypedNode(rs[i].id, rs[i].kind);
    }
    assert rs[..|rs|] == rs;
    var edges := BuildEdges(rs);
    ghost var base := WithResources(EMPTY, rs);
    for i := 0 to |edges|
      invariant fresh(graph)
      invariant graph.Value() == WithEdges(base, edges[..i])
    {
      PrefixStep(edges, i);
      var e := edges[i];
      graph.AddNode(e.source);
      graph.AddNode(e.target);
      graph.AddEdge(e.source, e.target, e.relationship);
    }
    assert edges[..|edges|] == edges;
  }

  // ---- Links ----

  function LinksFrom(g: Graph, u: string, targets: seq<string>): seq<Edge> {
    if targets == [] then []
    else
      var v := targets[|targets| - 1];
      LinksFrom(g, u, targets[..|targets| - 1]) +
      [Edge(u, v, if (u, v) in g.labels then g.labels[(u, v)] else "")]
  }

  function LinksOver(g: Graph, sources: seq<string>): seq<Edge> {
    if sources == [] then []
    else
      var u := sources[|sources| - 1];
      LinksOver(g, sources[..|sources| - 1]) + LinksFrom(g, u, g.Successors(u))
  }

  function LinksOf(g: Graph): seq<Edge> {
    LinksOver(g, g.nodes)
  }

  method GraphToLinks(graph: DiGraph) returns (links: seq<Edge>)
    ensures links == LinksOf(graph.Value())
  {
    var g := graph.Value();
    links := [];
    for i := 0 to |g.nodes|
      invariant links == LinksOver(g, g.nodes[..i])
    {
      PrefixStep(g.nodes, i);
      var u := g.nodes[i];
      var targets := g.Successors(u);
      ghost var done := links;
      for j := 0 to |targets|
        invariant links == done + LinksFrom(g, u, targets[..j])
      {
        PrefixStep(targets, j);
        var pair := (u, targets[j]);
        links := links + [Edge(u, targets[j], if pair in g.labels then g.labels[pair] else "")];
      }
      assert targets[..|targets|] == targets;
    }
    assert g.nodes[..|g.nodes|] == g.nodes;
  }

  // ---- What the construction yields ----

  lemma WithNodeWellFormed(g: Graph, n: string)
    requires g.WellFormed()
    ensures WithNode(g, n).WellFormed()
  {
    var h := WithNode(g, n);
    forall u, v
      ensures h.HasEdge(u, v) <==> g.HasEdge(u, v)
    {
    }
  }

  /** Joining two nodes that are already there. */
  lemma JoinWellFormed(h: Graph, k: Graph, u: string, v: string, relation: string)
    requires h.WellFormed() && u in h.adjacent && v in h.adjacent
    requires k == h.(adjacent := if v in h.adjacent[u] then h.adjacent else h.adjacent[u := h.adjacent[u] + [v]],
                     labels := h.labels[(u, v) := relation])
    ensures k.WellFormed()
  {
    forall a, b
      ensures k.HasEdge(a, b) <==> h.HasEdge(a, b) || (a == u && b == v)
    {
    }
    assert v !in h.adjacent[u] ==> NoDup(h.adjacent[u] + [v]);
  }

  lemma WithEdgeWellFormed(g: Graph, u: string, v: string, relation: string)
    requires g.WellFormed()
    ensures WithEdge(g, u, v, relation).WellFormed()
  {
    WithNodeWellFormed(g, u);
    WithNodeWellFormed(WithNode(g, u), v);
    JoinWellFormed(WithNode(WithNode(g, u), v), WithEdge(g, u, v, relation), u, v, relation);
  }

  /** One relationship is recorded: all other edges and labels, and all types, stay as they were. */
  lemma WithEdgeEffect(g: Graph, u: string, v: string, relation: string, a: string, b: string)
    requires g.WellFormed()
    ensures var h := WithEdge(g, u, v, relation);
            && h.types == g.types
            && (h.HasEdge(a, b) <==> g.HasEdge(a, b) || (a == u && b == v))
            && (a == u && b == v ==> (a, b) in h.labels && h.labels[(a, b)] == relation)
            && (!(a == u && b == v) && g.HasEdge(a, b) ==> (a, b) in h.labels && h.labels[(a, b)] == g.labels[(a, b)])
  {
  }

  /** `r` is the last resource listed under the id `n`. */
  ghost predicate LastNamed(rs: seq<Resource>, n: string, kind: string) {
    exists k :: LastNamedAt(rs, n, k) && rs[k].kind == kind
  }

  ghost predicate LastNamedAt(rs: seq<Resource>, n: string, k: int) {
    0 <= k < |rs| && n != "" && rs[k].id == n && forall j :: k < j < |rs| ==> rs[j].id != n
  }

  lemma LastNamedAppend(init: seq<Resource>, r: Resource, n: string, kind: string)
    ensures LastNamed(init + [r], n, kind) <==>
            if n != "" && r.id == n then r.kind == kind else LastNamed(init, n, kind)
  {
    var rs, m := init + [r], |init|;
    if n != "" && r.id == n {
      assert rs[m].id == n && LastNamedAt(rs, n, m);
      forall k | LastNamedAt(rs, n, k)
        ensures k == m
      {
      }
    } else {
      forall k
        ensures LastNamedAt(rs, n, k) <==> LastNamedAt(init, n, k)
      {
        if LastNamedAt(rs, n, k) {
          assert forall j :: k < j < m ==> init[j] == rs[j];
        }
      }
    }
  }

  lemma {:induction false} WithResourcesProperties(rs: seq<Resource>, n: string, kind: string)
    ensures var g := WithResources(EMPTY, rs);
            && g.WellFormed()
            && g.labels == map[]
            && ((n in g.types && g.types[n] == kind) <==> LastNamed(rs, n, kind))
            && (n in g.adjacent <==> n in g.types)
  {
    if rs != [] {
      var init, r := rs[..|rs| - 1], rs[|rs| - 1];
      assert rs == init + [r];
      WithResourcesProperties(init, n, kind);
      LastNamedAppend(init, r, n, kind);
      WithNodeWellFormed(WithResources(EMPTY, init), r.id);
      var h, g := WithNode(WithResources(EMPTY, init), r.id), WithResources(EMPTY, rs);
      assert forall u, v :: g.HasEdge(u, v) ==> r.id != "" ==> h.HasEdge(u, v);
    }
  }

  /** `e` is the last edge of `es` between its endpoints. */
  ghost predicate LastBetween(es: seq<Edge>, e: Edge) {
    exists k :: LastBetweenAt(es, e.source, e.target, k) && es[k] == e
  }

  ghost predicate Between(e: Edge, u: string, v: string) {
    e.source == u && e.target == v
  }

  ghost predicate LastBetweenAt(es: seq<Edge>, u: string, v: string, k: int) {
    0 <= k < |es| && Between(es[k], u, v) && forall j :: k < j < |es| ==> !Between(es[j], u, v)
  }

  lemma LastBetweenAppend(init: seq<Edge>, last: Edge, e: Edge)
    ensures LastBetween(init + [last], e) <==>
            if Between(last, e.source, e.target) then e == last else LastBetween(init, e)
  {
    var es, m := init + [last], |init|;
    if Between(last, e.source, e.target) {
      assert Between(es[m], e.source, e.target) && LastBetweenAt(es, e.source, e.target, m);
      forall k | LastBetweenAt(es, e.source, e.target, k)
        ensures k == m
      {
      }
    } else {
      forall k
        ensures LastBetweenAt(es, e.source, e.target, k) <==> LastBetweenAt(init, e.source, e.target, k)
      {
        if LastBetweenAt(es, e.source, e.target, k) {
          assert forall j :: k < j < m ==> init[j] == es[j];
        }
      }
    }
  }

  lemma {:induction false} WithEdgesProperties(g: Graph, es: seq<Edge>, e: Edge)
    requires g.WellFormed() && g.labels == map[]
    ensures var h := WithEdges(g, es);
            && h.WellFormed()
            && h.types == g.types
            && ((h.HasEdge(e.source, e.target) && h.labels[(e.source, e.target)] == e.relationship) <==> LastBetween(es, e))
  {
    if es == [] {
      assert !g.HasEdge(e.source, e.target) by {
        assert (e.source, e.target) !in g.labels;
      }
    } else {
      var init, last := es[..|es| - 1], es[|es| - 1];
      assert es == init + [last];
      WithEdgesProperties(g, init, e);
      LastBetweenAppend(init, last, e);
      WithEdgeWellFormed(WithEdges(g, init), last.source, last.target, last.relationship);
      WithEdgeEffect(WithEdges(g, init), last.source, last.target, last.relationship, e.source, e.target);
    }
  }

  /** The attack graph: its type attribute is the last listed kind, its label the last edge between the pair. */
  lemma GraphOfProperties(rs: seq<Resource>)
    ensures GraphOf(rs).WellFormed()
    ensures forall n, kind :: (n in GraphOf(rs).types && GraphOf(rs).types[n] == kind) <==> LastNamed(rs, n, kind)
    ensures forall e: Edge ::
              (GraphOf(rs).HasEdge(e.source, e.target) && GraphOf(rs).labels[(e.source, e.target)] == e.relationship)
              <==> LastBetween(EdgesOf(rs), e)
  {
    var base := WithResources(EMPTY, rs);
    WithResourcesProperties(rs, "", "");
    WithEdgesProperties(base, EdgesOf(rs), Edge("", "", ""));
    forall n, kind
      ensures (n in GraphOf(rs).types && GraphOf(rs).types[n] == kind) <==> LastNamed(rs, n, kind)
    {
      WithResourcesProperties(rs, n, kind);
    }
    forall e: Edge
      ensures (GraphOf(rs).HasEdge(e.source, e.target) && GraphOf(rs).labels[(e.source, e.target)] == e.relationship)
              <==> LastBetween(EdgesOf(rs), e)
    {
      WithEdgesProperties(base, EdgesOf(rs), e);
    }
  }

  /** There is an edge between two nodes exactly when some related triple joins them. */
  lemma GraphHasEdge(rs: seq<Resource>, u: string, v: string)
    ensures GraphOf(rs).HasEdge(u, v) <==> exists e :: Related(rs, e) && Between(e, u, v)
  {
    GraphOfProperties(rs);
    EdgesOfIsRelation(rs);
    if GraphOf(rs).HasEdge(u, v) {
      var e := Edge(u, v, GraphOf(rs).labels[(u, v)]);
      assert LastBetween(EdgesOf(rs), e);
      assert e in EdgesOf(rs) && Between(e, u, v);
    }
    if e :| Related(rs, e) && Between(e, u, v) {
      var k := LastPosition(EdgesOf(rs), u, v);
      var last := EdgesOf(rs)[k];
      assert LastBetween(EdgesOf(rs), last) && Between(last, u, v);
    }
  }

  lemma {:induction false} LastPosition(es: seq<Edge>, u: string, v: string) returns (k: nat)
    requires exists e :: e in es && Between(e, u, v)
    ensures LastBetweenAt(es, u, v, k)
  {
    k := |es| - 1;
    if !Between(es[k], u, v) {
      var init := es[..k];
      var e :| e in es && Between(e, u, v);
      assert es == init + [es[k]];
      assert e in init;
      k := LastPosition(init, u, v);
    }
  }

  lemma {:induction false} LinksFromMember(g: Graph, u: string, targets: seq<string>, e: Edge)
    ensures e in LinksFrom(g, u, targets) <==>
            e.source == u && e.target in targets &&
            e.relationship == (if (u, e.target) in g.labels then g.labels[(u, e.target)] else "")
  {
    if targets != [] {
      LinksFromMember(g, u, targets[..|targets| - 1], e);
      assert targets == targets[..|targets| - 1] + [targets[|targets| - 1]];
    }
  }

  lemma {:induction false} LinksOverMember(g: Graph, sources: seq<string>, e: Edge)
    requires g.WellFormed()
    ensures e in LinksOver(g, sources) <==>
            e.source in sources && g.HasEdge(e.source, e.target) && g.labels[(e.source, e.target)] == e.relationship
  {
    if sources != [] {
      var u := sources[|sources| - 1];
      LinksOverMember(g, sources[..|sources| - 1], e);
      LinksFromMember(g, u, g.Successors(u), e);
      assert sources == sources[..|sources| - 1] + [u];
      assert (u, e.target) in g.labels <==> g.HasEdge(u, e.target);
    }
  }

  /** The links of the attack graph are, for each joined pair, the last edge `build_edges` lists for it. */
  lemma LinksAreLastEdges(rs: seq<Resource>, e: Edge)
    ensures e in LinksOf(GraphOf(rs)) <==> LastBetween(EdgesOf(rs), e)
  {
    GraphOfProperties(rs);
    LinksOverMember(GraphOf(rs), GraphOf(rs).nodes, e);
  }

  lemma {:induction false} LinksFromPairs(g: Graph, u: string, targets: seq<string>)
    requires NoDup(targets)
    ensures |LinksFrom(g, u, targets)| == |targets|
    ensures forall i :: 0 <= i < |targets| ==> Between(LinksFrom(g, u, targets)[i], u, targets[i])
  {
    if targets != [] {
      LinksFromPairs(g, u, targets[..|targets| - 1]);
    }
  }

  /** No pair of endpoints is linked twice. */
  lemma {:induction false} LinksOverPairs(g: Graph, sources: seq<string>)
    requires g.WellFormed() && NoDup(sources)
    ensures forall i, j :: 0 <= i < j < |LinksOver(g, sources)| ==>
              !Between(LinksOver(g, sources)[j], LinksOver(g, sources)[i].source, LinksOver(g, sources)[i].target)
  {
    if sources != [] {
      var u := sources[|sources| - 1];
      var init := sources[..|sources| - 1];
      LinksOverPairs(g, init);
      var before, row := LinksOver(g, init), LinksFrom(g, u, g.Successors(u));
      LinksFromPairs(g, u, g.Successors(u));
      forall i | 0 <= i < |before|
        ensures before[i].source != u
      {
        LinksOverMember(g, init, before[i]);
      }
    }
  }

  /** The links name every joined pair of nodes once. */
  lemma LinksNameEachPairOnce(rs: seq<Resource>)
    ensures forall i, j :: 0 <= i < j < |LinksOf(GraphOf(rs))| ==>
              !Between(LinksOf(GraphOf(rs))[j], LinksOf(GraphOf(rs))[i].source, LinksOf(GraphOf(rs))[i].target)
  {
    GraphOfProperties(rs);
    LinksOverPairs(GraphOf(rs), GraphOf(rs).nodes);
  }

  /** Two different relationships are listed for one pair. */
  ghost predicate Ambiguous(es: seq<Edge>) {
    exists e, f :: e in es && f in es && Between(f, e.source, e.target) && e != f
  }

  /** No two resources relate one pair in different ways. */
  ghost predicate OneRelationshipPerPair(rs: seq<Resource>) {
    forall e, f :: Related(rs, e) && Related(rs, f) && Between(f, e.source, e.target) ==> e == f
  }

  /** The one-label-per-pair graph loses nothing exactly when no pair of nodes is related in two ways. */
  lemma LinksRoundTrip(rs: seq<Resource>)
    ensures (forall e :: e in LinksOf(GraphOf(rs)) <==> e in EdgesOf(rs)) <==> OneRelationshipPerPair(rs)
    ensures OneRelationshipPerPair(rs) <==> !Ambiguous(EdgesOf(rs))
  {
    EdgesOfIsRelation(rs);
    var es, links := EdgesOf(rs), LinksOf(GraphOf(rs));
    forall e
      ensures e in links <==> LastBetween(es, e)
    {
      LinksAreLastEdges(rs, e);
    }
    if Ambiguous(es) {
      var e, f :| e in es && f in es && Between(f, e.source, e.target) && e != f;
      assert !(LastBetween(es, e) && LastBetween(es, f));
    } else {
      forall e | e in es
        ensures LastBetween(es, e)
      {
        var k := LastPosition(es, e.source, e.target);
        assert es[k] in es && Between(es[k], e.source, e.target);
      }
    }
  }
}
