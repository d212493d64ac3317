/** Which paths are reported, in the texts of the code, and in what order the search finds them. */
module PathOrder {
  import opened Prelude
  import opened Ordering
  import opened Edges
  import opened AttackGraph
  import opened GraphOrder
  import opened PathFinder

  // ---- Targets and paths, spelled out ----

  /** A role or bucket, not the internet itself, that leads nowhere. */
  ghost predicate TerminalSensitive(g: Graph, n: string) {
    && n != "internet" && n in g.types && (g.types[n] == "iam_role" || g.types[n] == "s3_bucket")
    && (forall v :: !g.HasEdge(n, v))
  }

  lemma TargetsAreTerminalSensitive(g: Graph, n: string)
    requires g.WellFormed()
    ensures n in TargetsAmong(g, g.nodes) <==> TerminalSensitive(g, n)
  {
    TargetsAmongProperties(g, g.nodes);
    if g.Successors(n) != [] {
      assert g.HasEdge(n, g.Successors(n)[0]);
    }
  }

  /**
   * Without the cap a path is reported exactly when it leads from "internet" along at most `cutoff` edges,
   * repeating no node, to a role or bucket from which no edge leads on.
   */
  lemma ReportedPaths(g: Graph, cutoff: int, p: Path)
    requires g.WellFormed()
    ensures p in AllPaths(g, cutoff) <==>
            && 2 <= |p| <= cutoff + 1 && p[0] == "internet" && TerminalSensitive(g, p[|p| - 1])
            && (forall i :: 0 <= i < |p| - 1 ==> g.HasEdge(p[i], p[i + 1]))
            && (forall i, j :: 0 <= i < j < |p| ==> p[i] != p[j])
  {
    AllPathsCorrect(g, cutoff);
    if |p| >= 2 {
      TargetsAmongProperties(g, g.nodes);
      TargetsAreTerminalSensitive(g, p[|p| - 1]);
    }
  }

  // ---- The order of the search ----

  /** The paths part at some node, and there the first takes the earlier successor. */
  ghost predicate Precedes(g: Graph, p: Path, q: Path) {
    exists i :: PartsAt(g, p, q, i)
  }

  ghost predicate PartsAt(g: Graph, p: Path, q: Path, i: int) {
    0 < i < |p| && i < |q| && p[..i] == q[..i] && InOrder(g.Successors(p[i - 1]), p[i], q[i])
  }

  lemma {:induction false} SearchFromInOrder(g: Graph, path: Path, target: string, budget: nat, a: nat, b: nat)
    requires path != [] && NoDup(path)
    requires a < b < |SearchFrom(g, path, target, budget)|
    ensures Precedes(g, SearchFrom(g, path, target, budget)[a], SearchFrom(g, path, target, budget)[b])
    decreases budget, 1
  {
    SearchEachInOrder(g, path, 0, target, budget, a, b);
  }

  lemma {:induction false} SearchEachInOrder(g: Graph, path: Path, k: nat, target: string, budget: nat, a: nat, b: nat)
    requires path != [] && NoDup(path) && budget > 0 && k <= |g.Successors(path[|path| - 1])|
    requires a < b < |SearchEach(g, path, g.Successors(path[|path| - 1])[k..], target, budget)|
    ensures var found := SearchEach(g, path, g.Successors(path[|path| - 1])[k..], target, budget);
            Precedes(g, found[a], found[b])
    decreases budget, 0, |g.Successors(path[|path| - 1])| - k
  {
    var all := g.Successors(path[|path| - 1]);
    var nexts := all[k..];
    var n, rest := nexts[0], SearchEach(g, path, nexts[1..], target, budget);
    assert nexts[1..] == all[k + 1..] && n == all[k];
    if n in path {
      SearchEachInOrder(g, path, k + 1, target, budget, a, b);
    } else {
      NoDupConcat(path, [n]);
      var head := if n == target then [path + [n]] else SearchFrom(g, path + [n], target, budget - 1);
      if a >= |head| {
        SearchEachInOrder(g, path, k + 1, target, budget, a - |head|, b - |head|);
      } else if b < |head| {
        SearchFromInOrder(g, path + [n], target, budget - 1, a, b);
      } else {
        EarlierNext(g, path, k, target, budget, head[a], rest[b - |head|]);
      }
    }
  }

  lemma EarlierNext(g: Graph, path: Path, k: nat, target: string, budget: nat, p: Path, q: Path)
    requires path != [] && NoDup(path) && budget > 0 && k < |g.Successors(path[|path| - 1])|
    requires var n := g.Successors(path[|path| - 1])[k];
             n !in path && p in (if n == target then [path + [n]] else SearchFrom(g, path + [n], target, budget - 1))
    requires q in SearchEach(g, path, g.Successors(path[|path| - 1])[k + 1..], target, budget)
    ensures Precedes(g, p, q)
  {
    var all := g.Successors(path[|path| - 1]);
    var n := all[k];
    NoDupConcat(path, [n]);
    if n != target {
      SearchFromCorrect(g, path + [n], target, budget - 1, p);
    }
    assert path + [n] <= p;
    SearchEachCorrect(g, path, all[k + 1..], target, budget, q);
    var j :| 0 <= j < |all[k + 1..]| && all[k + 1..][j] == q[|path|];
    assert all[k + 1 + j] == q[|path|] && p[|path|] == n;
    assert PartsAt(g, p, q, |path|);
  }

  lemma {:induction false} GroupInOrder(g: Graph, targets: seq<string>, cutoff: int, a: nat, b: nat)
    requires NoDup(targets) && a < b < |Flatten(PathGroups(g, targets, cutoff))|
    ensures var p, q := Flatten(PathGroups(g, targets, cutoff))[a], Flatten(PathGroups(g, targets, cutoff))[b];
            p != [] && q != [] && (p[|p| - 1] == q[|q| - 1] ==> Precedes(g, p, q))
  {
    var n := |targets| - 1;
    var groups, init := PathGroups(g, targets, cutoff), PathGroups(g, targets[..n], cutoff);
    assert groups[..n] == init;
    var all, before := Flatten(groups), Flatten(init);
    if b < |before| {
      GroupInOrder(g, targets[..n], cutoff, a, b);
    } else {
      PathsToCorrect(g, targets[n], cutoff, all[b]);
      if a < |before| {
        FlattenMember(init, all[a]);
        var i :| 0 <= i < |init| && all[a] in init[i];
        PathsToCorrect(g, targets[i], cutoff, all[a]);
      } else {
        PathsToCorrect(g, targets[n], cutoff, all[a]);
        SearchFromInOrder(g, [INTERNET], targets[n], if cutoff < 0 then 0 else cutoff, a - |before|, b - |before|);
      }
    }
  }

  /** Paths to one target come depth first: where two part, the one with the earlier successor comes first. */
  lemma PathsInOrder(g: Graph, cutoff: int, a: nat, b: nat)
    requires g.WellFormed() && a < b < |AllPaths(g, cutoff)|
    ensures var p, q := AllPaths(g, cutoff)[a], AllPaths(g, cutoff)[b];
            p != [] && q != [] && (p[|p| - 1] == q[|q| - 1] ==> Precedes(g, p, q))
  {
    TargetsAmongProperties(g, g.nodes);
    SortedProperties(TargetsAmong(g, g.nodes));
    GroupInOrder(g, SortedTargets(g), cutoff, a, b);
  }
}
