/** Bounded attack paths: terminal sensitive targets, simple paths up to a cutoff, and the global cap. */
module PathFinder {
  import opened Prelude
  import opened Ordering
  import opened Resources
  import opened Edges
  import opened AttackGraph

  const DEFAULT_CUTOFF := 5
  const DEFAULT_MAX_PATHS := 100

  type Path = seq<string>

  // ---- Targets ----

  predicate IsTarget(g: Graph, n: string) {
    n != INTERNET && n in g.types && (g.types[n] == ROLE || g.types[n] == BUCKET) && |g.Successors(n)| == 0
  }

  function TargetsAmong(g: Graph, nodes: seq<string>): seq<string> {
    if nodes == [] then []
    else
      var before, n := TargetsAmong(g, nodes[..|nodes| - 1]), nodes[|nodes| - 1];
      if IsTarget(g, n) then before + [n] else before
  }

  method FindTargets(graph: DiGraph) returns (targets: seq<string>)
    ensures targets == TargetsAmong(graph.Value(), graph.nodes)
  {
    targets := [];
    for i := 0 to |graph.nodes|
      invariant targets == TargetsAmong(graph.Value(), graph.nodes[..i])
    {
      PrefixStep(graph.nodes, i);
      var n := graph.nodes[i];
      if n == INTERNET {
        continue;
      }
      if !(n in graph.types && (graph.types[n] == ROLE || graph.types[n] == BUCKET)) {
        continue;
      }
      if |graph.Value().Successors(n)| == 0 {
        targets := targets + [n];
      }
    }
    assert graph.nodes[..|graph.nodes|] == graph.nodes;
  }

  lemma {:induction false} TargetsAmongProperties(g: Graph, nodes: seq<string>)
    requires NoDup(nodes)
    ensures NoDup(TargetsAmong(g, nodes))
    ensures forall n :: n in TargetsAmong(g, nodes) <==> n in nodes && IsTarget(g, n)
  {
    if nodes != [] {
      TargetsAmongProperties(g, nodes[..|nodes| - 1]);
      assert nodes == nodes[..|nodes| - 1] + [nodes[|nodes| - 1]];
    }
  }

  // ---- all_simple_paths ----

  /**
   * `networkx.all_simple_paths(g, source, target, cutoff)` as the depth-first search it documents: the
   * current path doubles as the visited set, the budget is the number of edges still allowed, successors
   * are tried in insertion order, and a path is never extended beyond the target. The completeness proved
   * below is about this search.
   */
  function SearchFrom(g: Graph, path: Path, target: string, budget: nat): seq<Path>
    requires path != []
    decreases budget, 1
  {
    if budget == 0 then [] else SearchEach(g, path, g.Successors(path[|path| - 1]), target, budget)
  }

  function SearchEach(g: Graph, path: Path, nexts: seq<string>, target: string, budget: nat): seq<Path>
    requires path != [] && budget > 0
    decreases budget, 0, |nexts|
  {
    if nexts == [] then []
    else
      var n, rest := nexts[0], SearchEach(g, path, nexts[1..], target, budget);
      if n in path then rest
      else if n == target then [path + [n]] + rest
      else SearchFrom(g, path + [n], target, budget - 1) + rest
  }

  /** A negative cutoff allows no path at all, like 0. */
  function PathsTo(g: Graph, target: string, cutoff: int): seq<Path> {
    SearchFrom(g, [INTERNET], target, if cutoff < 0 then 0 else cutoff)
  }

  function PathGroups(g: Graph, targets: seq<string>, cutoff: int): seq<seq<Path>> {
    seq(|targets|, i requires 0 <= i < |targets| => PathsTo(g, targets[i], cutoff))
  }

  function SortedTargets(g: Graph): seq<string> {
    Sorted(TargetsAmong(g, g.nodes))
  }

  /** The uncapped search. */
  function AllPaths(g: Graph, cutoff: int): seq<Path> {
    if INTERNET !in g.nodes then []
    else Flatten(PathGroups(g, SortedTargets(g), cutoff))
  }

  lemma {:induction false} FlattenPrefix<T>(groups: seq<seq<T>>, i: nat, j: nat)
    requires i < |groups| && j <= |groups[i]|
    ensures Flatten(groups[..i]) + groups[i][..j] <= Flatten(groups)
  {
    var n := |groups| - 1;
    if i < n {
      FlattenPrefix(groups[..n], i, j);
      assert groups[..n][..i] == groups[..i];
    }
  }

  /** Stopping at the cap leaves exactly the capped list. */
  lemma CapReached(groups: seq<seq<Path>>, i: nat, j: nat, maxPaths: int)
    requires i < |groups| && j <= |groups[i]|
    requires |Flatten(groups[..i]) + groups[i][..j]| == if maxPaths < 0 then 0 else maxPaths
    ensures Flatten(groups[..i]) + groups[i][..j] == Take(Flatten(groups), maxPaths)
  {
    FlattenPrefix(groups, i, j);
  }

  method FindAttackPaths(graph: DiGraph, cutoff: int, maxPaths: int) returns (paths: seq<Path>)
    ensures paths == Take(AllPaths(graph.Value(), cutoff), maxPaths)
  {
    if INTERNET !in graph.nodes {
      return [];
    }
    var targets := FindTargets(graph);
    if targets == [] {
      assert Sorted(targets) == [];
      return [];
    }
    targets := Sorted(targets);
    var g := graph.Value();
    ghost var groups := PathGroups(g, targets, cutoff);
    paths := [];
    for i := 0 to |targets|
      invariant paths == Flatten(groups[..i])
      invariant |paths| <= if maxPaths < 0 then 0 else maxPaths
    {
      var targetPaths := PathsTo(g, targets[i], cutoff);
      for j := 0 to |targetPaths|
        invariant paths == Flatten(groups[..i]) + targetPaths[..j]
        invariant |paths| <= if maxPaths < 0 then 0 else maxPaths
      {
        PrefixStep(targetPaths, j);
        if |paths| >= maxPaths {
          CapReached(groups, i, j, maxPaths);
          return;
        }
        paths := paths + [targetPaths[j]];
      }
      assert targetPaths[..|targetPaths|] == targetPaths;
      PrefixStep(groups, i);
    }
    assert groups[..|targets|] == groups;
  }

  // ---- The search is sound, complete and duplicate-free ----

  ghost predicate Walk(g: Graph, p: Path) {
    forall i :: 0 <= i < |p| - 1 ==> g.HasEdge(p[i], p[i + 1])
  }

  /** `p` continues `path` by at least one and at most `budget` edges, without repetition, to `target`. */
  ghost predicate Continues(g: Graph, path: Path, target: string, budget: nat, p: Path)
    requires path != []
  {
    && path <= p
    && |path| < |p| <= |path| + budget
    && NoDup(p)
    && p[|p| - 1] == target
    && (forall i :: |path| - 1 <= i < |p| - 1 ==> g.HasEdge(p[i], p[i + 1]))
  }

  lemma {:induction false} SearchFromCorrect(g: Graph, path: Path, target: string, budget: nat, p: Path)
    requires path != [] && NoDup(path)
    ensures p in SearchFrom(g, path, target, budget) <==> Continues(g, path, target, budget, p)
    decreases budget, 1
  {
    if budget > 0 {
      SearchEachCorrect(g, path, g.Successors(path[|path| - 1]), target, budget, p);
      if Continues(g, path, target, budget, p) {
        assert g.HasEdge(p[|path| - 1], p[|path|]);
      }
    }
  }

  lemma {:induction false} SearchEachCorrect(g: Graph, path: Path, nexts: seq<string>, target: string, budget: nat, p: Path)
    requires path != [] && NoDup(path) && budget > 0
    requires forall n :: n in nexts ==> g.HasEdge(path[|path| - 1], n)
    ensures p in SearchEach(g, path, nexts, target, budget) <==>
            Continues(g, path, target, budget, p) && p[|path|] in nexts
    decreases budget, 0, |nexts|
  {
    if nexts != [] {
      var n := nexts[0];
      assert nexts == [n] + nexts[1..] && n in nexts;
      assert forall m :: m in nexts[1..] ==> m in nexts;
      SearchEachCorrect(g, path, nexts[1..], target, budget, p);
      if n !in path {
        NoDupConcat(path, [n]);
        if n == target {
          FinalStep(g, path, n, budget, p);
        } else {
          SearchFromCorrect(g, path + [n], target, budget - 1, p);
          FurtherStep(g, path, n, target, budget, p);
        }
      } else if Continues(g, path, target, budget, p) {
        RepeatedStep(g, path, n, target, budget, p);
      }
    }
  }

  lemma RepeatedStep(g: Graph, path: Path, n: string, target: string, budget: nat, p: Path)
    requires path != [] && n in path && Continues(g, path, target, budget, p)
    ensures p[|path|] != n
  {
  }

  lemma FinalStep(g: Graph, path: Path, n: string, budget: nat, p: Path)
    requires path != [] && NoDup(path + [n]) && budget > 0 && g.HasEdge(path[|path| - 1], n)
    ensures p == path + [n] <==> Continues(g, path, n, budget, p) && p[|path|] == n
  {
  }

  lemma FurtherStep(g: Graph, path: Path, n: string, target: string, budget: nat, p: Path)
    requires path != [] && budget > 0 && n != target && g.HasEdge(path[|path| - 1], n)
    ensures Continues(g, path + [n], target, budget - 1, p) <==>
            Continues(g, path, target, budget, p) && p[|path|] == n
  {
  }

  lemma {:induction false} SearchFromNoDup(g: Graph, path: Path, target: string, budget: nat)
    requires g.WellFormed() && path != [] && NoDup(path)
    ensures NoDup(SearchFrom(g, path, target, budget))
    decreases budget, 1
  {
    if budget > 0 {
      SearchEachNoDup(g, path, g.Successors(path[|path| - 1]), target, budget);
    }
  }

  lemma {:induction false} SearchEachNoDup(g: Graph, path: Path, nexts: seq<string>, target: string, budget: nat)
    requires g.WellFormed() && path != [] && NoDup(path) && budget > 0 && NoDup(nexts)
    requires forall n :: n in nexts ==> g.HasEdge(path[|path| - 1], n)
    ensures NoDup(SearchEach(g, path, nexts, target, budget))
    decreases budget, 0, |nexts|
  {
    if nexts != [] {
      var n := nexts[0];
      assert nexts == [n] + nexts[1..] && n in nexts;
      assert forall m :: m in nexts[1..] ==> m in nexts;
      SearchEachNoDup(g, path, nexts[1..], target, budget);
      var rest := SearchEach(g, path, nexts[1..], target, budget);
      if n !in path {
        NoDupConcat(path, [n]);
        var head := if n == target then [path + [n]] else SearchFrom(g, path + [n], target, budget - 1);
        if n != target {
          SearchFromNoDup(g, path + [n], target, budget - 1);
        }
        forall p | p in head
          ensures p !in rest
        {
          SearchEachCorrect(g, path, nexts[1..], target, budget, p);
          if n != target {
            SearchFromCorrect(g, path + [n], target, budget - 1, p);
            FurtherStep(g, path, n, target, budget, p);
          }
        }
        NoDupConcat(head, rest);
      }
    }
  }

  /** A path without repetition from the internet to a target, of any length. */
  ghost predicate Reaches(g: Graph, p: Path) {
    && |p| >= 2 && p[0] == INTERNET
    && NoDup(p) && Walk(g, p)
    && IsTarget(g, p[|p| - 1])
  }

  /** What the code promises to report. */
  ghost predicate IsAttackPath(g: Graph, cutoff: int, p: Path) {
    Reaches(g, p) && |p| - 1 <= cutoff
  }

  lemma PathsToCorrect(g: Graph, target: string, cutoff: int, p: Path)
    ensures p in PathsTo(g, target, cutoff) <==>
            |p| >= 2 && p[0] == INTERNET && |p| - 1 <= cutoff && NoDup(p) && Walk(g, p) && p[|p| - 1] == target
  {
    var budget: nat := if cutoff < 0 then 0 else cutoff;
    SearchFromCorrect(g, [INTERNET], target, budget, p);
    if |p| >= 2 && p[0] == INTERNET {
      assert [INTERNET] <= p;
    }
  }

  /** Uncapped, the search reports exactly the attack paths, each once. */
  lemma AllPathsCorrect(g: Graph, cutoff: int)
    requires g.WellFormed()
    ensures forall p :: p in AllPaths(g, cutoff) <==> IsAttackPath(g, cutoff, p)
    ensures NoDup(AllPaths(g, cutoff))
  {
    var targets := SortedTargets(g);
    var groups := PathGroups(g, targets, cutoff);
    TargetsAmongProperties(g, g.nodes);
    SortedProperties(TargetsAmong(g, g.nodes));
    forall p
      ensures p in AllPaths(g, cutoff) <==> IsAttackPath(g, cutoff, p)
    {
      FlattenMember(groups, p);
      if p in AllPaths(g, cutoff) {
        var i :| 0 <= i < |groups| && p in groups[i];
        PathsToCorrect(g, targets[i], cutoff, p);
        assert targets[i] in targets;
      }
      if IsAttackPath(g, cutoff, p) {
        var t := p[|p| - 1];
        PathsToCorrect(g, t, cutoff, p);
        assert g.HasEdge(p[0], p[1]);
        assert t in targets;
        var i :| 0 <= i < |targets| && targets[i] == t;
        assert p in groups[i];
      }
    }
    forall i | 0 <= i < |groups|
      ensures NoDup(groups[i])
    {
      SearchFromNoDup(g, [INTERNET], targets[i], if cutoff < 0 then 0 else cutoff);
    }
    forall i, j, p | 0 <= i < j < |groups| && p in groups[i]
      ensures p !in groups[j]
    {
      PathsToCorrect(g, targets[i], cutoff, p);
      PathsToCorrect(g, targets[j], cutoff, p);
    }
    FlattenNoDup(groups);
  }

  lemma {:induction false} GroupedByTarget(g: Graph, targets: seq<string>, cutoff: int, a: nat, b: nat)
    requires forall i, j :: 0 <= i < j < |targets| ==> StrLe(targets[i], targets[j])
    requires a < b < |Flatten(PathGroups(g, targets, cutoff))|
    ensures var all := Flatten(PathGroups(g, targets, cutoff));
            all[a] != [] && all[b] != [] && StrLe(all[a][|all[a]| - 1], all[b][|all[b]| - 1])
  {
    var n := |targets| - 1;
    var groups, init := PathGroups(g, targets, cutoff), PathGroups(g, targets[..n], cutoff);
    assert groups[..n] == init;
    var all := Flatten(groups);
    if b < |Flatten(init)| {
      GroupedByTarget(g, targets[..n], cutoff, a, b);
    } else {
      PathsToCorrect(g, targets[n], cutoff, all[b]);
      if a < |Flatten(init)| {
        FlattenMember(init, all[a]);
        var i :| 0 <= i < |init| && all[a] in init[i];
        PathsToCorrect(g, targets[i], cutoff, all[a]);
      } else {
        PathsToCorrect(g, targets[n], cutoff, all[a]);
        StrLeTotal(targets[n], targets[n]);
      }
    }
  }

  /** Paths come in the string order of their targets. */
  lemma AllPathsSortedByTarget(g: Graph, cutoff: int, a: nat, b: nat)
    requires a < b < |AllPaths(g, cutoff)|
    ensures var all := AllPaths(g, cutoff);
            all[a] != [] && all[b] != [] && StrLe(all[a][|all[a]| - 1], all[b][|all[b]| - 1])
  {
    SortedProperties(TargetsAmong(g, g.nodes));
    GroupedByTarget(g, SortedTargets(g), cutoff, a, b);
  }

  /** And grouped: between two paths to one target stand only paths to that target. */
  lemma AllPathsGroupedByTarget(g: Graph, cutoff: int, a: nat, b: nat, c: nat)
    requires a < b < c < |AllPaths(g, cutoff)|
    ensures var all := AllPaths(g, cutoff);
            && all[a] != [] && all[b] != [] && all[c] != []
            && (all[a][|all[a]| - 1] == all[c][|all[c]| - 1] ==> all[b][|all[b]| - 1] == all[a][|all[a]| - 1])
  {
    AllPathsSortedByTarget(g, cutoff, a, b);
    AllPathsSortedByTarget(g, cutoff, b, c);
    var all := AllPaths(g, cutoff);
    var x, y := all[a][|all[a]| - 1], all[b][|all[b]| - 1];
    if x == all[c][|all[c]| - 1] {
      StrLeAntisymmetric(x, y);
    }
  }

  /**
   * Whatever the cap, the report holds attack paths only, each once, and all of them when they fit. A larger
   * cap only appends.
   */
  lemma CappedReport(g: Graph, cutoff: int, maxPaths: int)
    requires g.WellFormed()
    ensures var all, report := AllPaths(g, cutoff), Take(AllPaths(g, cutoff), maxPaths);
            && NoDup(report) && (report == [] || |report| <= maxPaths)
            && (forall p :: p in report ==> IsAttackPath(g, cutoff, p))
            && (|report| < maxPaths || |all| <= maxPaths ==> forall p :: IsAttackPath(g, cutoff, p) ==> p in report)
            && (forall m :: m >= maxPaths ==> report <= Take(all, m))
  {
    AllPathsCorrect(g, cutoff);
    var all, report := AllPaths(g, cutoff), Take(AllPaths(g, cutoff), maxPaths);
    assert forall p :: p in report ==> p in all;
    assert |report| < maxPaths || |all| <= maxPaths ==> report == all;
  }

  /** What the cap hides goes to targets no earlier in string order than any reported one. */
  lemma CapHidesLastTargets(g: Graph, cutoff: int, maxPaths: int, p: Path, q: Path)
    requires g.WellFormed() && p in Take(AllPaths(g, cutoff), maxPaths)
    requires IsAttackPath(g, cutoff, q) && q !in Take(AllPaths(g, cutoff), maxPaths)
    ensures p != [] && q != [] && StrLe(p[|p| - 1], q[|q| - 1])
  {
    AllPathsCorrect(g, cutoff);
    HiddenGoesLater(g, cutoff, |Take(AllPaths(g, cutoff), maxPaths)|, p, q);
  }

  lemma HiddenGoesLater(g: Graph, cutoff: int, m: nat, p: Path, q: Path)
    requires m <= |AllPaths(g, cutoff)| && p in AllPaths(g, cutoff)[..m]
    requires q in AllPaths(g, cutoff) && q !in AllPaths(g, cutoff)[..m]
    ensures p != [] && q != [] && StrLe(p[|p| - 1], q[|q| - 1])
  {
    var all := AllPaths(g, cutoff);
    var i :| 0 <= i < m && all[i] == p;
    var j :| 0 <= j < |all| && all[j] == q;
    assert forall k :: 0 <= k < m ==> all[k] in all[..m];
    AllPathsSortedByTarget(g, cutoff, i, j);
  }

  // ---- A smaller cutoff removes exactly the longer paths ----

  /** The paths of at most `n` nodes, in order. */
  function Short(paths: seq<Path>, n: int): seq<Path> {
    if paths == [] then []
    else
      var before, p := Short(paths[..|paths| - 1], n), paths[|paths| - 1];
      if |p| <= n then before + [p] else before
  }

  lemma {:induction false} ShortConcat(a: seq<Path>, b: seq<Path>, n: int)
    ensures Short(a + b, n) == Short(a, n) + Short(b, n)
  {
    if b == [] {
      assert a + b == a;
    } else {
      ShortConcat(a, b[..|b| - 1], n);
      assert (a + b)[..|a + b| - 1] == a + b[..|b| - 1];
    }
  }

  lemma {:induction false} ShortAll(paths: seq<Path>, n: int)
    requires forall p :: p in paths ==> |p| <= n
    ensures Short(paths, n) == paths
  {
    if paths != [] {
      var init := paths[..|paths| - 1];
      assert paths == init + [paths[|paths| - 1]];
      ShortAll(init, n);
    }
  }

  lemma {:induction false} ShortNone(paths: seq<Path>, n: int)
    requires forall p :: p in paths ==> |p| > n
    ensures Short(paths, n) == []
  {
    if paths != [] {
      var init := paths[..|paths| - 1];
      assert paths == init + [paths[|paths| - 1]];
      ShortNone(init, n);
    }
  }

  lemma ShortOne(p: Path, n: int)
    ensures Short([p], n) == if |p| <= n then [p] else []
  {
  }

  lemma {:induction false} SearchFromShort(g: Graph, path: Path, target: string, a: nat, b: nat)
    requires path != [] && NoDup(path) && a <= b
    ensures SearchFrom(g, path, target, a) == Short(SearchFrom(g, path, target, b), |path| + a)
    decreases a, 1
  {
    if a == 0 {
      forall p | p in SearchFrom(g, path, target, b)
        ensures |p| > |path|
      {
        SearchFromCorrect(g, path, target, b, p);
      }
      ShortNone(SearchFrom(g, path, target, b), |path|);
    } else {
      SearchEachShort(g, path, g.Successors(path[|path| - 1]), target, a, b);
    }
  }

  /** What one successor contributes to the search. */
  function SearchVia(g: Graph, path: Path, n: string, target: string, budget: nat): seq<Path>
    requires path != [] && budget > 0
  {
    if n in path then []
    else if n == target then [path + [n]]
    else SearchFrom(g, path + [n], target, budget - 1)
  }

  lemma SearchEachVia(g: Graph, path: Path, nexts: seq<string>, target: string, budget: nat)
    requires path != [] && budget > 0 && nexts != []
    ensures SearchEach(g, path, nexts, target, budget) ==
            SearchVia(g, path, nexts[0], target, budget) + SearchEach(g, path, nexts[1..], target, budget)
  {
  }

  lemma {:induction false} SearchViaShort(g: Graph, path: Path, n: string, target: string, a: nat, b: nat)
    requires path != [] && NoDup(path) && 0 < a <= b
    ensures SearchVia(g, path, n, target, a) == Short(SearchVia(g, path, n, target, b), |path| + a)
    decreases a, 0, 0, 0
  {
    if n !in path {
      NoDupConcat(path, [n]);
      if n == target {
        ShortOne(path + [n], |path| + a);
      } else {
        SearchFromShort(g, path + [n], target, a - 1, b - 1);
      }
    }
  }

  lemma {:induction false} SearchEachShort(g: Graph, path: Path, nexts: seq<string>, target: string, a: nat, b: nat)
    requires path != [] && NoDup(path) && 0 < a <= b
    ensures SearchEach(g, path, nexts, target, a) == Short(SearchEach(g, path, nexts, target, b), |path| + a)
    decreases a, 0, |nexts|, 1
  {
    if nexts != [] {
      SearchEachVia(g, path, nexts, target, a);
      SearchEachVia(g, path, nexts, target, b);
      SearchViaShort(g, path, nexts[0], target, a, b);
      SearchEachShort(g, path, nexts[1..], target, a, b);
      ShortConcat(SearchVia(g, path, nexts[0], target, b), SearchEach(g, path, nexts[1..], target, b), |path| + a);
    }
  }

  lemma PathsToShort(g: Graph, target: string, a: int, b: int)
    requires a <= b
    ensures PathsTo(g, target, a) == Short(PathsTo(g, target, b), a + 1)
  {
    if a >= 0 {
      SearchFromShort(g, [INTERNET], target, a, b);
    } else {
      forall p | p in PathsTo(g, target, b)
        ensures |p| > a + 1
      {
        PathsToCorrect(g, target, b, p);
      }
      ShortNone(PathsTo(g, target, b), a + 1);
    }
  }

  lemma {:induction false} GroupsShort(g: Graph, targets: seq<string>, a: int, b: int)
    requires a <= b
    ensures Flatten(PathGroups(g, targets, a)) == Short(Flatten(PathGroups(g, targets, b)), a + 1)
  {
    if targets != [] {
      var n := |targets| - 1;
      GroupsShort(g, targets[..n], a, b);
      PathsToShort(g, targets[n], a, b);
      assert PathGroups(g, targets, a)[..n] == PathGroups(g, targets[..n], a);
      assert PathGroups(g, targets, b)[..n] == PathGroups(g, targets[..n], b);
      ShortConcat(Flatten(PathGroups(g, targets[..n], b)), PathsTo(g, targets[n], b), a + 1);
    }
  }

  /**
   * For every graph, cyclic ones included: a smaller cutoff gives the list of a larger one with exactly the
   * paths of too many edges removed, order kept.
   */
  lemma CutoffRemovesLongPaths(g: Graph, a: int, b: int)
    requires a <= b
    ensures AllPaths(g, a) == Short(AllPaths(g, b), a + 1)
  {
    if INTERNET in g.nodes {
      GroupsShort(g, SortedTargets(g), a, b);
    }
  }

  lemma EnoughCutoff(g: Graph, cutoff: nat, c: int)
    requires g.WellFormed() && c >= cutoff && forall p :: Reaches(g, p) ==> |p| - 1 <= cutoff
    ensures AllPaths(g, c) == AllPaths(g, cutoff)
  {
    AllPathsCorrect(g, c);
    CutoffRemovesLongPaths(g, cutoff, c);
    ShortAll(AllPaths(g, c), cutoff + 1);
  }

  lemma LongPathIsLost(g: Graph, cutoff: nat, p: Path)
    requires g.WellFormed() && Reaches(g, p) && |p| - 1 > cutoff
    ensures p in AllPaths(g, |p| - 1) && p !in AllPaths(g, cutoff)
  {
    AllPathsCorrect(g, |p| - 1);
    AllPathsCorrect(g, cutoff);
  }

  /** A cutoff gives the same list as every larger one exactly when no path to a target is longer than it. */
  lemma CutoffDropsNothingExactly(g: Graph, cutoff: nat)
    requires g.WellFormed()
    ensures (forall c: int :: c >= cutoff ==> AllPaths(g, c) == AllPaths(g, cutoff)) <==>
            (forall p :: Reaches(g, p) ==> |p| - 1 <= cutoff)
  {
    if p :| Reaches(g, p) && |p| - 1 > cutoff {
      LongPathIsLost(g, cutoff, p);
      assert AllPaths(g, |p| - 1) != AllPaths(g, cutoff);
    } else {
      forall c: int | c >= cutoff
        ensures AllPaths(g, c) == AllPaths(g, cutoff)
      {
        EnoughCutoff(g, cutoff, c);
      }
    }
  }

  /** For the default: it hides a path, against some larger cutoff, exactly when some path to a target has six edges or more. */
  lemma DefaultCutoffExactly(g: Graph)
    requires g.WellFormed()
    ensures (forall c: int :: c >= DEFAULT_CUTOFF ==> AllPaths(g, c) == AllPaths(g, DEFAULT_CUTOFF)) <==>
            !exists p :: Reaches(g, p) && |p| >= 7
  {
    CutoffDropsNothingExactly(g, DEFAULT_CUTOFF);
  }

  // ---- A rank that falls along every edge makes the cutoff irrelevant ----

  ghost predicate Ranks(g: Graph, rank: string -> nat) {
    forall u, v :: g.HasEdge(u, v) ==> rank(v) < rank(u)
  }

  lemma {:induction false} WalkFallsInRank(g: Graph, rank: string -> nat, p: Path)
    requires Ranks(g, rank) && p != [] && Walk(g, p)
    ensures |p| - 1 + rank(p[|p| - 1]) <= rank(p[0])
  {
    var n := |p| - 1;
    if n > 0 {
      WalkFallsInRank(g, rank, p[..n]);
      assert g.HasEdge(p[n - 1], p[n]);
    }
  }

  lemma AllPathsAreWalks(g: Graph, cutoff: int, p: Path)
    requires p in AllPaths(g, cutoff)
    ensures |p| >= 2 && p[0] == INTERNET && Walk(g, p)
  {
    var groups := PathGroups(g, SortedTargets(g), cutoff);
    FlattenMember(groups, p);
    var i :| 0 <= i < |groups| && p in groups[i];
    PathsToCorrect(g, SortedTargets(g)[i], cutoff, p);
  }

  lemma RankBoundsPaths(g: Graph, rank: string -> nat, c: int)
    requires Ranks(g, rank) && rank(INTERNET) <= c
    ensures AllPaths(g, c) == AllPaths(g, rank(INTERNET))
  {
    forall p | p in AllPaths(g, c)
      ensures |p| <= rank(INTERNET) + 1
    {
      AllPathsAreWalks(g, c, p);
      WalkFallsInRank(g, rank, p);
    }
    CutoffRemovesLongPaths(g, rank(INTERNET), c);
    ShortAll(AllPaths(g, c), rank(INTERNET) + 1);
  }

  /** So on a ranked graph any two cutoffs no smaller than the rank of the entry point give the same list, order included. */
  lemma CutoffIrrelevant(g: Graph, rank: string -> nat, c: int, d: int)
    requires Ranks(g, rank) && rank(INTERNET) <= c && rank(INTERNET) <= d
    ensures AllPaths(g, c) == AllPaths(g, d)
  {
    RankBoundsPaths(g, rank, c);
    RankBoundsPaths(g, rank, d);
  }
}
