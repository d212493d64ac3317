/** Attack-path relationships: `build_edges` against a declarative account of each relationship. */
module Edges {
  import opened Prelude
  import opened Json
  import opened Resources

  datatype Edge = Edge(source: string, target: string, relationship: string)

  const INTERNET := "internet"
  const ASSUMES := "ASSUMES"
  const HAS_PERMISSION := "HAS_PERMISSION"
  const ACCESSES := "ACCESSES"
  const EXPOSES := "EXPOSES"
  const ANYWHERE := "0.0.0.0/0"

  // ---- Pure helpers ----

  /** What follows the last `separator`, or the whole text. */
  function AfterLast(value: string, separator: char): string {
    if separator !in value then value
    else if value[|value| - 1] == separator then ""
    else AfterLast(value[..|value| - 1], separator) + [value[|value| - 1]]
  }

  function ExtractName(value: string): string {
    if '/' in value then AfterLast(value, '/')
    else if ':' in value then AfterLast(value, ':')
    else value
  }

  lemma {:induction false} AfterLastProperties(value: string, separator: char)
    requires separator in value
    ensures separator !in AfterLast(value, separator)
    ensures |AfterLast(value, separator)| < |value|
    ensures value == value[..|value| - |AfterLast(value, separator)| - 1] + [separator] + AfterLast(value, separator)
  {
    var n := |value| - 1;
    if value[n] != separator {
      assert value == value[..n] + [value[n]];
      AfterLastProperties(value[..n], separator);
      var r := AfterLast(value[..n], separator);
      assert value[..n][..n - |r| - 1] == value[..n - |r| - 1];
    }
  }

  /** The name is the final component of the ARN: the text after the last slash, else after the last colon. */
  lemma ExtractNameIsFinalComponent(value: string)
    ensures var name := ExtractName(value);
            if '/' in value then '/' !in name && exists head :: value == head + "/" + name
            else if ':' in value then ':' !in name && exists head :: value == head + ":" + name
            else name == value
  {
    if '/' in value {
      AfterLastProperties(value, '/');
    } else if ':' in value {
      AfterLastProperties(value, ':');
    }
  }

  predicate IsPublic(r: Resource) {
    match r.ingress
    case Some(Obj(fields)) => PyEqual(Get(fields, "cidr"), Str(ANYWHERE))
    case _ => false
  }

  // ---- The declarative relation ----

  /** A role that can be found through the instance profile `arn`. */
  ghost predicate Declares(r: Resource, arn: string) {
    r.kind == "iam_role" && r.id != "" && arn != "" && arn in r.profileArns
  }

  /** `role` is the id of the last listed role that declares `arn`. */
  ghost predicate LastDeclarer(rs: seq<Resource>, arn: string, role: string) {
    exists k :: LastDeclarerAt(rs, arn, k) && rs[k].id == role
  }

  ghost predicate LastDeclarerAt(rs: seq<Resource>, arn: string, k: int) {
    0 <= k < |rs| && Declares(rs[k], arn) && forall j :: k < j < |rs| ==> !Declares(rs[j], arn)
  }

  ghost predicate AssumesBy(rs: seq<Resource>, r: Resource, e: Edge) {
    r.kind == INSTANCE && r.profileArn.Some? && r.profileArn.value != "" &&
    e.source == r.id && LastDeclarer(rs, r.profileArn.value, e.target) && e.relationship == ASSUMES
  }

  ghost predicate PermissionBy(r: Resource, e: Edge) {
    r.kind == ROLE && e.source == r.id && e.relationship == HAS_PERMISSION &&
    exists arn :: arn in r.policyArns && arn != "" && e.target == ExtractName(arn)
  }

  ghost predicate AccessBy(r: Resource, e: Edge) {
    r.kind == POLICY && e.source == r.id && e.relationship == ACCESSES && e.target != "" &&
    (BucketName(e.target) in r.buckets || BucketRecord(Some(e.target)) in r.buckets)
  }

  ghost predicate ExposureBy(rs: seq<Resource>, r: Resource, e: Edge) {
    r.kind == GROUP && IsPublic(r) && e.source == INTERNET && e.relationship == EXPOSES &&
    exists x :: x in rs && x.kind == INSTANCE && r.id in x.securityGroups && e.target == x.id
  }

  /** Resource `r` of `rs` gives rise to `e`. */
  ghost predicate Justifies(rs: seq<Resource>, r: Resource, e: Edge) {
    r.id != "" && (AssumesBy(rs, r, e) || PermissionBy(r, e) || AccessBy(r, e) || ExposureBy(rs, r, e))
  }

  ghost predicate Related(rs: seq<Resource>, e: Edge) {
    exists r :: r in rs && Justifies(rs, r, e)
  }

  // ---- What the loops compute ----

  function IndexProfiles(role: Resource, arns: seq<string>, index: map<string, string>): map<string, string> {
    if arns == [] then index
    else
      var before := IndexProfiles(role, arns[..|arns| - 1], index);
      var arn := arns[|arns| - 1];
      if role.id != "" && arn != "" then before[arn := role.id] else before
  }

  function ProfileIndex(rs: seq<Resource>): map<string, string> {
    if rs == [] then map[]
    else
      var before, r := ProfileIndex(rs[..|rs| - 1]), rs[|rs| - 1];
      if r.kind == ROLE then IndexProfiles(r, r.profileArns, before) else before
  }

  function PermissionEdges(id: string, arns: seq<string>): seq<Edge> {
    if arns == [] then []
    else
      var before, arn := PermissionEdges(id, arns[..|arns| - 1]), arns[|arns| - 1];
      if arn == "" then before else before + [Edge(id, ExtractName(arn), HAS_PERMISSION)]
  }

  function AccessEdges(id: string, buckets: seq<BucketRef>): seq<Edge> {
    if buckets == [] then []
    else
      var before, bucket := AccessEdges(id, buckets[..|buckets| - 1]), BucketId(buckets[|buckets| - 1]);
      if bucket == "" then before else before + [Edge(id, bucket, ACCESSES)]
  }

  function ExposureEdges(group: string, instances: seq<Resource>): seq<Edge> {
    if instances == [] then []
    else
      var before, x := ExposureEdges(group, instances[..|instances| - 1]), instances[|instances| - 1];
      if x.kind == INSTANCE && group in x.securityGroups then before + [Edge(INTERNET, x.id, EXPOSES)] else before
  }

  function ResourceEdges(rs: seq<Resource>, index: map<string, string>, r: Resource): seq<Edge> {
    if r.id == "" then []
    else if r.kind == INSTANCE then
      if r.profileArn.Some? && r.profileArn.value != "" &&
         r.profileArn.value in index && index[r.profileArn.value] != ""
      then [Edge(r.id, index[r.profileArn.value], ASSUMES)] else []
    else if r.kind == ROLE then PermissionEdges(r.id, r.policyArns)
    else if r.kind == POLICY then AccessEdges(r.id, r.buckets)
    else if r.kind == GROUP && IsPublic(r) then ExposureEdges(r.id, rs)
    else []
  }

  function RawEdges(rs: seq<Resource>, index: map<string, string>, upTo: seq<Resource>): seq<Edge> {
    if upTo == [] then []
    else RawEdges(rs, index, upTo[..|upTo| - 1]) + ResourceEdges(rs, index, upTo[|upTo| - 1])
  }

  function EdgeKey(e: Edge): (string, string, string) {
    (e.source, e.target, e.relationship)
  }

  function EdgesOf(rs: seq<Resource>): seq<Edge> {
    DedupBy(EdgeKey, RawEdges(rs, ProfileIndex(rs), rs))
  }

  // ---- The loops ----

  method BuildProfileIndex(rs: seq<Resource>) returns (index: map<string, string>)
    ensures index == ProfileIndex(rs)
  {
    index := map[];
    for i := 0 to |rs|
      invariant index == ProfileIndex(rs[..i])
    {
      PrefixStep(rs, i);
      var r := rs[i];
      if r.kind != ROLE {
        continue;
      }
      var arns := r.profileArns;
      for j := 0 to |arns|
        invariant index == IndexProfiles(r, arns[..j], ProfileIndex(rs[..i]))
      {
        PrefixStep(arns, j);
        if r.id != "" && arns[j] != "" {
          index := index[arns[j] := r.id];
        }
      }
      assert arns[..|arns|] == arns;
    }
    assert rs[..|rs|] == rs;
  }

  method DeduplicateEdges(edges: seq<Edge>) returns (result: seq<Edge>)
    ensures result == DedupBy(EdgeKey, edges)
  {
    var seen: set<(string, string, string)> := {};
    result := [];
    for i := 0 to |edges|
      invariant seen == Keys(EdgeKey, edges[..i])
      invariant result == DedupBy(EdgeKey, edges[..i])
    {
      PrefixStep(edges, i);
      KeysAppend(EdgeKey, edges[..i], edges[i]);
      var key := EdgeKey(edges[i]);
      if key in seen {
        continue;
      }
      seen := seen + {key};
      result := result + [edges[i]];
    }
    assert edges[..|edges|] == edges;
  }

  /** The body of the loop over the resources. */
  method AppendEdges(rs: seq<Resource>, index: map<string, string>, r: Resource, before: seq<Edge>) returns (edges: seq<Edge>)
    ensures edges == before + ResourceEdges(rs, index, r)
  {
    edges := before;
    if r.id == "" {
      return;
    }
    if r.kind == INSTANCE {
      if r.profileArn.Some? && r.profileArn.value != "" {
        if r.profileArn.value in index && index[r.profileArn.value] != "" {
          edges := edges + [Edge(r.id, index[r.profileArn.value], ASSUMES)];
        }
      }
    } else if r.kind == ROLE {
      var arns := r.policyArns;
      for j := 0 to |arns|
        invariant edges == before + PermissionEdges(r.id, arns[..j])
      {
        PrefixStep(arns, j);
        if arns[j] == "" {
          continue;
        }
        edges := edges + [Edge(r.id, ExtractName(arns[j]), HAS_PERMISSION)];
      }
      assert arns[..|arns|] == arns;
    } else if r.kind == POLICY {
      var buckets := r.buckets;
      for j := 0 to |buckets|
        invariant edges == before + AccessEdges(r.id, buckets[..j])
      {
        PrefixStep(buckets, j);
        var bucket := BucketId(buckets[j]);
        if bucket != "" {
          edges := edges + [Edge(r.id, bucket, ACCESSES)];
        }
      }
      assert buckets[..|buckets|] == buckets;
    } else if r.kind == GROUP {
      if !IsPublic(r) {
        return;
      }
      for j := 0 to |rs|
        invariant edges == before + ExposureEdges(r.id, rs[..j])
      {
        PrefixStep(rs, j);
        if rs[j].kind != INSTANCE {
          continue;
        }
        if r.id in rs[j].securityGroups {
          edges := edges + [Edge(INTERNET, rs[j].id, EXPOSES)];
        }
      }
      assert rs[..|rs|] == rs;
    }
  }

  method BuildEdges(rs: seq<Resource>) returns (result: seq<Edge>)
    ensures result == EdgesOf(rs)
  {
    var edges: seq<Edge> := [];
    var index := BuildProfileIndex(rs);
    for i := 0 to |rs|
      invariant edges == RawEdges(rs, index, rs[..i])
    {
      PrefixStep(rs, i);
      edges := AppendEdges(rs, index, rs[i], edges);
    }
    assert rs[..|rs|] == rs;
    result := DeduplicateEdges(edges);
  }

  // ---- The loops compute the relation ----

  lemma {:induction false} IndexProfilesMeaning(role: Resource, arns: seq<string>, index: map<string, string>, arn: string)
    ensures var after := IndexProfiles(role, arns, index);
            if role.id != "" && arn != "" && arn in arns then arn in after && after[arn] == role.id
            else (arn in after <==> arn in index) && (arn in index ==> after[arn] == index[arn])
  {
    if arns != [] {
      IndexProfilesMeaning(role, arns[..|arns| - 1], index, arn);
      assert arns == arns[..|arns| - 1] + [arns[|arns| - 1]];
    }
  }

  lemma LastDeclarerAppend(init: seq<Resource>, r: Resource, arn: string, role: string)
    ensures LastDeclarer(init + [r], arn, role) <==>
            if Declares(r, arn) then r.id == role else LastDeclarer(init, arn, role)
  {
    var rs, n := init + [r], |init|;
    if Declares(r, arn) {
      assert Declares(rs[n], arn) && LastDeclarerAt(rs, arn, n);
      forall k | LastDeclarerAt(rs, arn, k)
        ensures k == n
      {
      }
    } else {
      forall k
        ensures LastDeclarerAt(rs, arn, k) <==> LastDeclarerAt(init, arn, k)
      {
        if LastDeclarerAt(init, arn, k) {
          assert forall j :: k < j < |rs| ==> !Declares(rs[j], arn);
        }
        if LastDeclarerAt(rs, arn, k) {
          assert k != n;
          assert forall j :: k < j < n ==> init[j] == rs[j];
        }
      }
    }
  }

  /** The index maps an ARN exactly to the last listed role that declares it. */
  lemma {:induction false} ProfileIndexMeaning(rs: seq<Resource>, arn: string, role: string)
    ensures (arn in ProfileIndex(rs) && ProfileIndex(rs)[arn] == role) <==> LastDeclarer(rs, arn, role)
  {
    if rs != [] {
      var n := |rs| - 1;
      var init, r := rs[..n], rs[n];
      assert rs == init + [r];
      ProfileIndexMeaning(init, arn, role);
      IndexProfilesMeaning(r, r.profileArns, ProfileIndex(init), arn);
      LastDeclarerAppend(init, r, arn, role);
    }
  }

  lemma {:induction false} PermissionEdgesMember(id: string, arns: seq<string>, e: Edge)
    ensures e in PermissionEdges(id, arns) <==>
            exists arn :: arn in arns && arn != "" && e == Edge(id, ExtractName(arn), HAS_PERMISSION)
  {
    if arns != [] {
      PermissionEdgesMember(id, arns[..|arns| - 1], e);
      assert arns == arns[..|arns| - 1] + [arns[|arns| - 1]];
    }
  }

  lemma {:induction false} AccessEdgesMember(id: string, buckets: seq<BucketRef>, e: Edge)
    ensures e in AccessEdges(id, buckets) <==>
            e.source == id && e.target != "" && e.relationship == ACCESSES &&
            (BucketName(e.target) in buckets || BucketRecord(Some(e.target)) in buckets)
  {
    if buckets != [] {
      AccessEdgesMember(id, buckets[..|buckets| - 1], e);
      assert buckets == buckets[..|buckets| - 1] + [buckets[|buckets| - 1]];
    }
  }

  lemma {:induction false} ExposureEdgesMember(group: string, instances: seq<Resource>, e: Edge)
    ensures e in ExposureEdges(group, instances) <==>
            exists x :: x in instances && x.kind == INSTANCE && group in x.securityGroups &&
                        e == Edge(INTERNET, x.id, EXPOSES)
  {
    if instances != [] {
      ExposureEdgesMember(group, instances[..|instances| - 1], e);
      assert instances == instances[..|instances| - 1] + [instances[|instances| - 1]];
    }
  }

  lemma ResourceEdgesMember(rs: seq<Resource>, r: Resource, e: Edge)
    ensures e in ResourceEdges(rs, ProfileIndex(rs), r) <==> Justifies(rs, r, e)
  {
    var index := ProfileIndex(rs);
    if r.kind == INSTANCE {
      if r.profileArn.Some? {
        var arn := r.profileArn.value;
        ProfileIndexMeaning(rs, arn, e.target);
        if arn in index {
          ProfileIndexMeaning(rs, arn, index[arn]);
        }
      }
    } else if r.kind == ROLE {
      PermissionEdgesMember(r.id, r.policyArns, e);
    } else if r.kind == POLICY {
      AccessEdgesMember(r.id, r.buckets, e);
    } else if r.kind == GROUP {
      ExposureEdgesMember(r.id, rs, e);
    }
  }

  lemma {:induction false} RawEdgesMember(rs: seq<Resource>, upTo: seq<Resource>, e: Edge)
    ensures e in RawEdges(rs, ProfileIndex(rs), upTo) <==> exists r :: r in upTo && Justifies(rs, r, e)
  {
    if upTo != [] {
      var init, last := upTo[..|upTo| - 1], upTo[|upTo| - 1];
      RawEdgesMember(rs, init, e);
      ResourceEdgesMember(rs, last, e);
      assert upTo == init + [last];
    }
  }

  /** `build_edges` invents nothing and misses nothing: it lists each related triple, once. */
  lemma EdgesOfIsRelation(rs: seq<Resource>)
    ensures NoDup(EdgesOf(rs))
    ensures forall e :: e in EdgesOf(rs) <==> Related(rs, e)
  {
    var raw := RawEdges(rs, ProfileIndex(rs), rs);
    DedupByKeys(EdgeKey, raw);
    forall e
      ensures e in EdgesOf(rs) <==> Related(rs, e)
    {
      RawEdgesMember(rs, rs, e);
      SameMembers(raw, e);
    }
  }

  lemma SameMembers(raw: seq<Edge>, e: Edge)
    ensures e in DedupBy(EdgeKey, raw) <==> e in raw
  {
  }
}
