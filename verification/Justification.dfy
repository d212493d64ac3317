/** Every attack path is backed by a finding of the rule engine on the same resources. */
module Justification {
  import opened Prelude
  import opened Json
  import opened Resources
  import opened Edges
  import opened AttackGraph
  import opened PathFinder
  import opened RuleEngine

  /** rules/security_group_open.yaml */
  const OPEN_GROUP_RULE := Rule(
    "CIS-AWS-002", "High", "Restrict inbound access to trusted IP ranges instead of 0.0.0.0/0.",
    Condition(Str(GROUP), Some("ingress" + "." + "cidr"), Some(Str(ANYWHERE)), None, None, None, None))

  lemma LookupTwo(data: Json, a: string, b: string)
    requires '.' !in a && '.' !in b
    ensures ValueAt(data, a + "." + b) ==
            match Descend(data, a)
            case None => Null
            case Some(next) => (match Descend(next, b) case None => Null case Some(last) => last)
  {
    SplitConcat(a, b);
    SplitWithoutDot(a);
    SplitWithoutDot(b);
    var parts := [a, b];
    assert Split(a + "." + b) == parts;
    assert parts[1..] == [b] && [b][1..] == [];
    match Descend(data, a)
    case None =>
    case Some(next) =>
      assert Lookup(data, parts) == Lookup(next, [b]);
      match Descend(next, b)
      case None =>
      case Some(last) => assert Lookup(next, [b]) == Lookup(last, []);
  }

  lemma NotANumber(text: string)
    requires text != [] && !IsSpace(text[0]) && !IsSpace(text[|text| - 1]) && !IsDigit(text[|text| - 1])
    ensures PyInt(text) == None
  {
  }

  /** A two-segment path into a dict, when the second segment is no list index. */
  lemma KeyInKey(fields: map<string, Json>, a: string, b: string)
    requires '.' !in a && '.' !in b && PyInt(b) == None
    ensures ValueAt(Obj(fields), a + "." + b) ==
            (match Get(fields, a) case Obj(inner) => Get(inner, b) case _ => Null)
  {
    LookupTwo(Obj(fields), a, b);
  }

  /** For any JSON ingress value, the rule fires exactly on the groups the graph treats as public. */
  lemma OpenGroupRuleFires(lib: Library, fields: map<string, Json>, r: Resource)
    requires Describes(fields, r)
    ensures Fires(lib, Obj(fields), OPEN_GROUP_RULE) <==> r.kind == GROUP && IsPublic(r)
  {
    NotANumber("cidr");
    KeyInKey(fields, "ingress", "cidr");
    PyEqualString(Str(GROUP), r.kind);
    PyEqualString(ValueAt(Obj(fields), "ingress" + "." + "cidr"), ANYWHERE);
  }

  /** The documents list the same resources, one for one. */
  ghost predicate SameResources(docs: seq<Json>, rs: seq<Resource>) {
    |docs| == |rs| && forall i :: 0 <= i < |rs| ==> docs[i].Obj? && Describes(docs[i].fields, rs[i])
  }

  /** Some listed document of this group fires the rule. */
  ghost predicate Flagged(lib: Library, docs: seq<Json>, group: Resource) {
    exists doc :: doc in docs && doc.Obj? && Describes(doc.fields, group) && Fires(lib, doc, OPEN_GROUP_RULE)
  }

  lemma FlaggedIsPublic(lib: Library, docs: seq<Json>, rs: seq<Resource>, group: Resource)
    requires SameResources(docs, rs) && group in rs
    ensures Flagged(lib, docs, group) <==> group.kind == GROUP && IsPublic(group)
  {
    var i :| 0 <= i < |rs| && rs[i] == group;
    OpenGroupRuleFires(lib, docs[i].fields, group);
    assert docs[i] in docs && Describes(docs[i].fields, group);
    if doc :| doc in docs && doc.Obj? && Describes(doc.fields, group) && Fires(lib, doc, OPEN_GROUP_RULE) {
      OpenGroupRuleFires(lib, doc.fields, group);
    }
  }

  /** The internet reaches a node exactly when a flagged group is attached to an instance of that id. */
  lemma ExposureIsFlagged(lib: Library, docs: seq<Json>, rs: seq<Resource>, target: string)
    requires SameResources(docs, rs)
    ensures Edge(INTERNET, target, EXPOSES) in EdgesOf(rs) <==>
            exists group, x :: group in rs && x in rs && Attached(group, x) && x.id == target && Flagged(lib, docs, group)
  {
    EdgesOfIsRelation(rs);
    var e := Edge(INTERNET, target, EXPOSES);
    forall group | group in rs
      ensures Flagged(lib, docs, group) <==> group.kind == GROUP && IsPublic(group)
    {
      FlaggedIsPublic(lib, docs, rs, group);
    }
    if e in EdgesOf(rs) {
      var group, x := Exposer(rs, e);
    }
    if group, x :| group in rs && x in rs && Attached(group, x) && x.id == target && Flagged(lib, docs, group) {
      assert ExposureBy(rs, group, e);
      assert Justifies(rs, group, e);
    }
  }

  /** The instance lists the group among its security groups. */
  ghost predicate Attached(group: Resource, x: Resource) {
    group.id != "" && x.kind == INSTANCE && group.id in x.securityGroups
  }

  lemma Exposer(rs: seq<Resource>, e: Edge) returns (group: Resource, x: Resource)
    requires Related(rs, e) && e.relationship == EXPOSES
    ensures group in rs && x in rs && group.kind == GROUP && IsPublic(group) && Attached(group, x) && x.id == e.target
  {
    group :| group in rs && Justifies(rs, group, e);
    assert ExposureBy(rs, group, e);
    x :| x in rs && x.kind == INSTANCE && group.id in x.securityGroups && e.target == x.id;
  }

  lemma FirstStepExposes(rs: seq<Resource>, cutoff: int, p: Path) returns (e: Edge)
    requires forall r :: r in rs ==> r.id != INTERNET
    requires p in AllPaths(GraphOf(rs), cutoff)
    ensures |p| >= 2 && e == Edge(INTERNET, p[1], EXPOSES) && Related(rs, e)
  {
    GraphOfProperties(rs);
    AllPathsCorrect(GraphOf(rs), cutoff);
    assert GraphOf(rs).HasEdge(p[0], p[1]);
    GraphHasEdge(rs, p[0], p[1]);
    e :| Related(rs, e) && Between(e, p[0], p[1]);
    var r :| r in rs && Justifies(rs, r, e);
  }

  /**
   * Every reported path is justified by the rule engine: a security group attached to the instance the
   * internet reaches has a CIS-AWS-002 finding among those `evaluate` reports for the same resources.
   */
  lemma PathsAreJustified(lib: Library, rules: seq<Rule>, docs: seq<Json>, rs: seq<Resource>, cutoff: int, p: Path)
    requires OPEN_GROUP_RULE in rules && SameResources(docs, rs)
    requires forall r :: r in rs ==> r.id != INTERNET
    requires p in AllPaths(GraphOf(rs), cutoff)
    ensures |p| >= 2
    ensures exists group, x, f :: group in rs && x in rs && Attached(group, x) && x.id == p[1] &&
              f in Findings(lib, rules, Normalize(List(docs))) && FlagsGroup(f, group)
  {
    var e := FirstStepExposes(rs, cutoff, p);
    var group, x := Exposer(rs, e);
    var f := PublicGroupIsReported(lib, rules, docs, rs, group);
  }

  lemma PublicGroupIsReported(lib: Library, rules: seq<Rule>, docs: seq<Json>, rs: seq<Resource>, group: Resource) returns (f: FindingData)
    requires OPEN_GROUP_RULE in rules && SameResources(docs, rs)
    requires group in rs && group.kind == GROUP && IsPublic(group)
    ensures f in Findings(lib, rules, Normalize(List(docs))) && FlagsGroup(f, group)
  {
    var i :| 0 <= i < |rs| && rs[i] == group;
    OpenGroupRuleFires(lib, docs[i].fields, group);
    f := FindingFor(docs[i], OPEN_GROUP_RULE);
    FindingsMember(lib, rules, docs, f);
    assert docs[i] in docs && Reported(lib, rules, docs[i], f);
  }

  ghost predicate FlagsGroup(f: FindingData, group: Resource) {
    && f.ruleId == "CIS-AWS-002" && f.severity == "High"
    && f.message == "Restrict inbound access to trusted IP ranges instead of 0.0.0.0/0."
    && f.resourceId == Str(group.id) && f.resourceType == Str(GROUP) && group.kind == GROUP
  }
}
