/** `build_edges` once more, entry by entry: which list entry makes which edge, and in what order they come out. */
module EdgeOrder {
  import opened Prelude
  import opened Json
  import opened Resources
  import opened Edges

  // ---- Which entry makes which edge ----

  /** The `cidr` of the group's ingress rule is the whole internet. */
  ghost predicate OpenToAll(r: Resource) {
    && r.ingress.Some? && r.ingress.value.Obj?
    && "cidr" in r.ingress.value.fields && r.ingress.value.fields["cidr"] == Str("0.0.0.0/0")
  }

  ghost predicate BucketEntry(b: BucketRef, id: string) {
    id != "" && (b == BucketName(id) || b == BucketRecord(Some(id)))
  }

  /** The m-th entry of the resource's relation makes the edge; an instance has one entry, its profile. */
  ghost predicate EntryMakes(rs: seq<Resource>, r: Resource, m: int, e: Edge) {
    r.id != "" &&
    ( || (r.kind == "ec2_instance" && m == 0 && r.profileArn.Some? && r.profileArn.value != "" &&
          LastDeclarer(rs, r.profileArn.value, e.target) && e.source == r.id && e.relationship == "ASSUMES")
      || (r.kind == "iam_role" && 0 <= m < |r.policyArns| && r.policyArns[m] != "" &&
          e == Edge(r.id, ExtractName(r.policyArns[m]), "HAS_PERMISSION"))
      || (r.kind == "iam_policy" && 0 <= m < |r.buckets| && BucketEntry(r.buckets[m], e.target) &&
          e.source == r.id && e.relationship == "ACCESSES")
      || (r.kind == "security_group" && OpenToAll(r) && 0 <= m < |rs| &&
          rs[m].kind == "ec2_instance" && r.id in rs[m].securityGroups && e == Edge("internet", rs[m].id, "EXPOSES")))
  }

  ghost predicate Makes(rs: seq<Resource>, at: (int, int), e: Edge) {
    0 <= at.0 < |rs| && EntryMakes(rs, rs[at.0], at.1, e)
  }

  ghost predicate Before(a: (int, int), b: (int, int)) {
    a.0 < b.0 || (a.0 == b.0 && a.1 < b.1)
  }

  ghost predicate FirstMakes(rs: seq<Resource>, at: (int, int), e: Edge) {
    Makes(rs, at, e) && forall b :: Makes(rs, b, e) ==> !Before(b, at)
  }

  // ---- The loops visit the entries in order ----

  /** `ms` are the entries of `r` that make the edges `es`, all of them and in increasing order. */
  ghost predicate Enumerates(rs: seq<Resource>, r: Resource, count: int, es: seq<Edge>, ms: seq<int>) {
    && |ms| == |es|
    && (forall i :: 0 <= i < |ms| ==> ms[i] < count && EntryMakes(rs, r, ms[i], es[i]))
    && (forall i, j :: 0 <= i < j < |ms| ==> ms[i] < ms[j])
    && (forall m, e :: m < count && EntryMakes(rs, r, m, e) ==> Occurs(es, ms, m, e))
  }

  ghost predicate Occurs(es: seq<Edge>, ms: seq<int>, m: int, e: Edge)
    requires |ms| == |es|
  {
    exists i :: 0 <= i < |ms| && ms[i] == m && es[i] == e
  }

  lemma OccursAppend(es: seq<Edge>, ms: seq<int>, e: Edge, m: int, f: Edge, n: int)
    requires |ms| == |es|
    ensures Occurs(es + [e], ms + [m], n, f) <==> Occurs(es, ms, n, f) || (n == m && f == e)
  {
    if n == m && f == e {
      assert (ms + [m])[|ms|] == m && (es + [e])[|es|] == e;
    }
    if i :| 0 <= i < |ms| && ms[i] == n && es[i] == f {
      assert (ms + [m])[i] == n && (es + [e])[i] == f;
    }
  }

  /** One more entry: it makes one edge, or none. */
  lemma NextEntry(rs: seq<Resource>, r: Resource, n: nat, es: seq<Edge>, ms: seq<int>, made: Option<Edge>) returns (more: seq<int>)
    requires Enumerates(rs, r, n, es, ms)
    requires forall e :: EntryMakes(rs, r, n, e) <==> made == Some(e)
    ensures Enumerates(rs, r, n + 1, if made.Some? then es + [made.value] else es, more)
  {
    more := if made.Some? then ms + [n] else ms;
    var after := if made.Some? then es + [made.value] else es;
    forall m, e | m < n + 1 && EntryMakes(rs, r, m, e)
      ensures Occurs(after, more, m, e)
    {
      assert m < n ==> Occurs(es, ms, m, e);
      if made.Some? {
        OccursAppend(es, ms, made.value, n, e, m);
      }
    }
  }

  lemma {:induction false} PermissionEntries(rs: seq<Resource>, r: Resource, n: nat) returns (ms: seq<int>)
    requires r.kind == ROLE && r.id != "" && n <= |r.policyArns|
    ensures Enumerates(rs, r, n, PermissionEdges(r.id, r.policyArns[..n]), ms)
  {
    ms := [];
    if n > 0 {
      PrefixStep(r.policyArns, n - 1);
      ms := PermissionEntries(rs, r, n - 1);
      var arn := r.policyArns[n - 1];
      ms := NextEntry(rs, r, n - 1, PermissionEdges(r.id, r.policyArns[..n - 1]), ms,
                      if arn == "" then None else Some(Edge(r.id, ExtractName(arn), HAS_PERMISSION)));
    }
  }

  lemma {:induction false} AccessEntries(rs: seq<Resource>, r: Resource, n: nat) returns (ms: seq<int>)
    requires r.kind == POLICY && r.id != "" && n <= |r.buckets|
    ensures Enumerates(rs, r, n, AccessEdges(r.id, r.buckets[..n]), ms)
  {
    ms := [];
    if n > 0 {
      PrefixStep(r.buckets, n - 1);
      ms := AccessEntries(rs, r, n - 1);
      var bucket := BucketId(r.buckets[n - 1]);
      ms := NextEntry(rs, r, n - 1, AccessEdges(r.id, r.buckets[..n - 1]), ms,
                      if bucket == "" then None else Some(Edge(r.id, bucket, ACCESSES)));
    }
  }

  lemma PublicMeansOpen(r: Resource)
    ensures IsPublic(r) <==> OpenToAll(r)
  {
  }

  lemma {:induction false} ExposureEntries(rs: seq<Resource>, r: Resource, n: nat) returns (ms: seq<int>)
    requires r.kind == GROUP && r.id != "" && IsPublic(r) && n <= |rs|
    ensures Enumerates(rs, r, n, ExposureEdges(r.id, rs[..n]), ms)
  {
    ms := [];
    if n > 0 {
      PrefixStep(rs, n - 1);
      ms := ExposureEntries(rs, r, n - 1);
      PublicMeansOpen(r);
      var x := rs[n - 1];
      ms := NextEntry(rs, r, n - 1, ExposureEdges(r.id, rs[..n - 1]), ms,
                      if x.kind == INSTANCE && r.id in x.securityGroups then Some(Edge(INTERNET, x.id, EXPOSES)) else None);
    }
  }

  lemma AssumesEntry(rs: seq<Resource>, r: Resource) returns (ms: seq<int>)
    requires r.kind == INSTANCE && r.id != ""
    ensures Enumerates(rs, r, 1, ResourceEdges(rs, ProfileIndex(rs), r), ms)
  {
    var es := ResourceEdges(rs, ProfileIndex(rs), r);
    var made := if es == [] then None else Some(es[0]);
    forall e
      ensures EntryMakes(rs, r, 0, e) <==> made == Some(e)
    {
      ResourceEdgesMember(rs, r, e);
    }
    ms := NextEntry(rs, r, 0, [], [], made);
  }

  lemma ResourceEntries(rs: seq<Resource>, r: Resource) returns (count: nat, ms: seq<int>)
    ensures Enumerates(rs, r, count, ResourceEdges(rs, ProfileIndex(rs), r), ms)
    ensures forall m, e :: EntryMakes(rs, r, m, e) ==> m < count
  {
    count, ms := 0, [];
    if r.id != "" {
      if r.kind == INSTANCE {
        count := 1;
        ms := AssumesEntry(rs, r);
      } else if r.kind == ROLE {
        count := |r.policyArns|;
        assert r.policyArns[..count] == r.policyArns;
        ms := PermissionEntries(rs, r, count);
      } else if r.kind == POLICY {
        count := |r.buckets|;
        assert r.buckets[..count] == r.buckets;
        ms := AccessEntries(rs, r, count);
      } else if r.kind == GROUP && IsPublic(r) {
        count := |rs|;
        assert rs[..count] == rs;
        ms := ExposureEntries(rs, r, count);
      } else {
        PublicMeansOpen(r);
      }
    }
  }

  /** `at` are the entries of the first `n` resources that make the edges `es`, all of them and in order. */
  ghost predicate Places(rs: seq<Resource>, n: int, es: seq<Edge>, at: seq<(int, int)>) {
    && |at| == |es|
    && (forall i :: 0 <= i < |at| ==> at[i].0 < n && Makes(rs, at[i], es[i]))
    && (forall i, j :: 0 <= i < j < |at| ==> Before(at[i], at[j]))
    && (forall p: (int, int), e :: p.0 < n && Makes(rs, p, e) ==> Placed(es, at, p, e))
  }

  ghost predicate Placed(es: seq<Edge>, at: seq<(int, int)>, p: (int, int), e: Edge)
    requires |at| == |es|
  {
    exists i :: 0 <= i < |at| && at[i] == p && es[i] == e
  }

  lemma PlacedConcat(es: seq<Edge>, at: seq<(int, int)>, fs: seq<Edge>, bt: seq<(int, int)>, p: (int, int), e: Edge)
    requires |at| == |es| && |bt| == |fs| && (Placed(es, at, p, e) || Placed(fs, bt, p, e))
    ensures Placed(es + fs, at + bt, p, e)
  {
    if i :| 0 <= i < |at| && at[i] == p && es[i] == e {
      assert (at + bt)[i] == p && (es + fs)[i] == e;
    } else {
      var i :| 0 <= i < |bt| && bt[i] == p && fs[i] == e;
      assert (at + bt)[|at| + i] == p && (es + fs)[|at| + i] == e;
    }
  }

  lemma RowIsPlaced(rs: seq<Resource>, n: nat, fs: seq<Edge>, count: nat, ms: seq<int>, row: seq<(int, int)>, p: (int, int), e: Edge)
    requires n < |rs| && Enumerates(rs, rs[n], count, fs, ms)
    requires |row| == |ms| && forall i :: 0 <= i < |ms| ==> row[i] == (n, ms[i])
    requires p.0 == n && p.1 < count && Makes(rs, p, e)
    ensures Placed(fs, row, p, e)
  {
  }

  lemma NextResource(rs: seq<Resource>, n: nat, es: seq<Edge>, at: seq<(int, int)>, fs: seq<Edge>, count: nat, ms: seq<int>)
    returns (more: seq<(int, int)>)
    requires n < |rs| && Places(rs, n, es, at) && Enumerates(rs, rs[n], count, fs, ms)
    requires forall m, e :: EntryMakes(rs, rs[n], m, e) ==> m < count
    ensures Places(rs, n + 1, es + fs, more)
  {
    var row := seq(|ms|, i requires 0 <= i < |ms| => (n, ms[i]));
    more := at + row;
    forall p: (int, int), e | p.0 < n + 1 && Makes(rs, p, e)
      ensures Placed(es + fs, more, p, e)
    {
      if p.0 == n {
        RowIsPlaced(rs, n, fs, count, ms, row, p, e);
      }
      PlacedConcat(es, at, fs, row, p, e);
    }
    RowsInOrder(at, row, n);
  }

  lemma RowsInOrder(at: seq<(int, int)>, row: seq<(int, int)>, n: int)
    requires forall i, j :: 0 <= i < j < |at| ==> Before(at[i], at[j])
    requires forall i, j :: 0 <= i < j < |row| ==> Before(row[i], row[j])
    requires (forall i :: 0 <= i < |at| ==> at[i].0 < n) && forall i :: 0 <= i < |row| ==> row[i].0 == n
    ensures forall i, j :: 0 <= i < j < |at + row| ==> Before((at + row)[i], (at + row)[j])
  {
  }

  lemma {:induction false} RawPlaces(rs: seq<Resource>, n: nat) returns (at: seq<(int, int)>)
    requires n <= |rs|
    ensures Places(rs, n, RawEdges(rs, ProfileIndex(rs), rs[..n]), at)
  {
    at := [];
    if n > 0 {
      PrefixStep(rs, n - 1);
      at := RawPlaces(rs, n - 1);
      var count, ms := ResourceEntries(rs, rs[n - 1]);
      at := NextResource(rs, n - 1, RawEdges(rs, ProfileIndex(rs), rs[..n - 1]), at,
                         ResourceEdges(rs, ProfileIndex(rs), rs[n - 1]), count, ms);
    }
  }

  lemma FirstPlace(rs: seq<Resource>, raw: seq<Edge>, at: seq<(int, int)>, i: int)
    requires Places(rs, |rs|, raw, at) && FirstAt(EdgeKey, raw, i)
    ensures FirstMakes(rs, at[i], raw[i])
  {
    forall b | Makes(rs, b, raw[i])
      ensures !Before(b, at[i])
    {
      assert Placed(raw, at, b, raw[i]);
      var j :| 0 <= j < |at| && at[j] == b && raw[j] == raw[i];
      assert i < j ==> Before(at[i], at[j]);
    }
  }

  // ---- The edge list ----

  /** The edges are exactly those that some entry makes. */
  lemma EdgesAreMade(rs: seq<Resource>, e: Edge)
    ensures e in EdgesOf(rs) <==> exists at :: Makes(rs, at, e)
  {
    var raw := RawEdges(rs, ProfileIndex(rs), rs);
    assert rs[..|rs|] == rs;
    var at := RawPlaces(rs, |rs|);
    SameMembers(raw, e);
    if e in raw {
      var i :| 0 <= i < |raw| && raw[i] == e;
      assert Makes(rs, at[i], e);
    }
    if p :| Makes(rs, p, e) {
      assert Placed(raw, at, p, e);
    }
  }

  /** And they come in the order in which the entries that first make them are listed. */
  lemma EdgesFollowEntries(rs: seq<Resource>, a: nat, b: nat)
    requires a < b < |EdgesOf(rs)|
    ensures exists p, q :: FirstMakes(rs, p, EdgesOf(rs)[a]) && FirstMakes(rs, q, EdgesOf(rs)[b]) && Before(p, q)
  {
    var raw := RawEdges(rs, ProfileIndex(rs), rs);
    assert rs[..|rs|] == rs;
    var at := RawPlaces(rs, |rs|);
    var i, j := DedupInOrder(EdgeKey, raw, a, b);
    FirstPlace(rs, raw, at, i);
    FirstPlace(rs, raw, at, j);
    assert Before(at[i], at[j]);
  }
}
