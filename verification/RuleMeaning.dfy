/** What `evaluate` means, with every shape of document, comparison, operator and reported field spelled out. */
module RuleMeaning {
  import opened Prelude
  import opened Json
  import opened RuleEngine

  // ---- Python's == ----

  /** Equality of parsed values: numbers and booleans by numeric value, containers element by element. */
  ghost predicate SameValue(a: Json, b: Json)
    decreases a
  {
    match a
    case Null => b == Null
    case Str(_) => b == a
    case List(xs) => b.List? && |xs| == |b.items| && forall i :: 0 <= i < |xs| ==> SameValue(xs[i], b.items[i])
    case Obj(fields) =>
      b.Obj? && (forall k :: k in fields <==> k in b.fields) && forall k :: k in fields ==> SameValue(fields[k], b.fields[k])
    case _ => IsNumber(b) && NumberOf(a) == NumberOf(b)
  }

  ghost predicate IsNumber(j: Json) {
    j.Bool? || j.Num?
  }

  ghost function NumberOf(j: Json): real
    requires IsNumber(j)
  {
    if j == Bool(true) then 1.0 else if j == Bool(false) then 0.0 else j.number
  }

  lemma {:induction false} PyEqualIsSameValue(a: Json, b: Json)
    ensures PyEqual(a, b) <==> SameValue(a, b)
    decreases a
  {
    match (a, b)
    case (List(xs), List(ys)) =>
      forall i | 0 <= i < |xs| && |xs| == |ys|
        ensures Canonical(xs[i]) == Canonical(ys[i]) <==> SameValue(xs[i], ys[i])
      {
        PyEqualIsSameValue(xs[i], ys[i]);
      }
      SameItems(xs, ys);
    case (Obj(fields), Obj(others)) =>
      forall k | k in fields && k in others
        ensures Canonical(fields[k]) == Canonical(others[k]) <==> SameValue(fields[k], others[k])
      {
        PyEqualIsSameValue(fields[k], others[k]);
      }
      SameFields(fields, others);
    case _ =>
  }

  lemma SameItems(xs: seq<Json>, ys: seq<Json>)
    ensures PyEqual(List(xs), List(ys)) <==>
            |xs| == |ys| && forall i :: 0 <= i < |xs| ==> Canonical(xs[i]) == Canonical(ys[i])
  {
    var cx, cy := Canonical(List(xs)).items, Canonical(List(ys)).items;
    assert forall i :: 0 <= i < |xs| ==> cx[i] == Canonical(xs[i]);
    assert forall i :: 0 <= i < |ys| ==> cy[i] == Canonical(ys[i]);
  }

  lemma SameFields(fields: map<string, Json>, others: map<string, Json>)
    ensures PyEqual(Obj(fields), Obj(others)) <==>
            (forall k :: k in fields <==> k in others) && forall k :: k in fields && k in others ==> Canonical(fields[k]) == Canonical(others[k])
  {
    var cf, co := Canonical(Obj(fields)).fields, Canonical(Obj(others)).fields;
    assert forall k :: k in fields ==> k in cf && cf[k] == Canonical(fields[k]);
    assert forall k :: k in others ==> k in co && co[k] == Canonical(others[k]);
    assert forall k :: (k in cf <==> k in fields) && (k in co <==> k in others);
  }

  // ---- Documents ----

  /** The resources a document lists: a list itself, the list under `resources`, a single dict, or none. */
  ghost predicate Lists(document: Json, resources: seq<Json>) {
    || document == List(resources)
    || (document.Obj? && "resources" in document.fields && document.fields["resources"] == List(resources))
    || (document.Obj? && !("resources" in document.fields && document.fields["resources"].List?) && resources == [document])
    || (!document.List? && !document.Obj? && resources == [])
  }

  /** Every document lists exactly what the engine evaluates. */
  lemma NormalizeLists(document: Json, resources: seq<Json>)
    ensures Normalize(document) == resources <==> Lists(document, resources)
  {
  }

  // ---- Operators ----

  /** The first operator present decides; a value of None satisfies `equals` only. */
  ghost predicate Satisfies(lib: Library, value: Json, c: Condition) {
    if c.equals.Some? then SameValue(value, c.equals.value)
    else if c.contains.Some? then value != Null && lib.contains(c.contains.value, value)
    else if c.regex.Some? then value != Null && lib.search(c.regex.value, value)
    else if c.gte.Some? then Bounded(lib.toFloat(c.gte.value), lib.toFloat(value))
    else c.lte.Some? && Bounded(lib.toFloat(value), lib.toFloat(c.lte.value))
  }

  /** Both are numbers, the first no greater. */
  ghost predicate Bounded(low: Option<real>, high: Option<real>) {
    low.Some? && high.Some? && low.value <= high.value
  }

  /** The rule is about the resource's type, has a path, and what the path finds satisfies its operator. */
  ghost predicate Violates(lib: Library, resource: Json, rule: Rule) {
    && resource.Obj?
    && SameValue(rule.condition.resourceType, if "resource_type" in resource.fields then resource.fields["resource_type"] else Null)
    && rule.condition.evalPath.Some? && |rule.condition.evalPath.value| > 0
    && Satisfies(lib, ValueAt(resource, rule.condition.evalPath.value), rule.condition)
  }

  /** The finding names the resource, or "Unknown", and carries the rule's texts. */
  ghost predicate Reports(d: FindingData, resource: Json, rule: Rule) {
    && resource.Obj?
    && d.resourceId == (if "resource_id" in resource.fields then resource.fields["resource_id"] else Str("Unknown"))
    && d.resourceType == (if "resource_type" in resource.fields then resource.fields["resource_type"] else Null)
    && d.severity == rule.severity && d.ruleId == rule.ruleId && d.message == rule.remediation
  }

  lemma MatchIsSatisfies(lib: Library, value: Json, c: Condition)
    ensures Match(lib, value, c) <==> Satisfies(lib, value, c)
  {
    if c.equals.Some? {
      PyEqualIsSameValue(value, c.equals.value);
    }
  }

  lemma FiresIsViolates(lib: Library, resource: Json, rule: Rule)
    ensures Fires(lib, resource, rule) <==> Violates(lib, resource, rule)
  {
    if resource.Obj? {
      PyEqualIsSameValue(rule.condition.resourceType, Get(resource.fields, "resource_type"));
      if rule.condition.evalPath.Some? {
        MatchIsSatisfies(lib, ValueAt(resource, rule.condition.evalPath.value), rule.condition);
      }
    }
  }

  lemma FindingReports(resource: Json, rule: Rule)
    requires resource.Obj?
    ensures Reports(FindingFor(resource, rule), resource, rule)
  {
  }

  // ---- evaluate ----

  /** `at` are the (resource, rule) positions of violations, all of them in reading order, and the findings report them. */
  ghost predicate Comprehends(lib: Library, rules: seq<Rule>, resources: seq<Json>, found: seq<FindingData>, at: seq<(nat, nat)>) {
    && |at| == |found|
    && (forall k :: 0 <= k < |at| ==> at[k].0 < |resources| && at[k].1 < |rules| && Reports(found[k], resources[at[k].0], rules[at[k].1]))
    && (forall a, b :: 0 <= a < b < |at| ==> at[a].0 < at[b].0 || (at[a].0 == at[b].0 && at[a].1 < at[b].1))
    && (forall i: nat, j: nat :: (i, j) in at <==> i < |resources| && j < |rules| && Violates(lib, resources[i], rules[j]))
  }

  /** `evaluate` reports exactly the violations of the rules by the listed resources, in reading order. */
  lemma EvaluationExactly(lib: Library, rules: seq<Rule>, document: Json, resources: seq<Json>)
    requires Lists(document, resources)
    ensures exists at :: Comprehends(lib, rules, resources, Findings(lib, rules, Normalize(document)), at)
  {
    NormalizeLists(document, resources);
    var at := Hits(lib, rules, resources);
    FindingsAreOrderedComprehension(lib, rules, resources);
    forall i: nat, j: nat
      ensures (i, j) in at <==> i < |resources| && j < |rules| && Violates(lib, resources[i], rules[j])
    {
      HitsMember(lib, rules, resources, i, j);
      if i < |resources| && j < |rules| {
        FiresIsViolates(lib, resources[i], rules[j]);
      }
    }
    var found := Findings(lib, rules, resources);
    forall k | 0 <= k < |at|
      ensures at[k].0 < |resources| && at[k].1 < |rules| && Reports(found[k], resources[at[k].0], rules[at[k].1])
    {
      FindingReports(resources[at[k].0], rules[at[k].1]);
    }
    assert Comprehends(lib, rules, resources, found, at);
  }
}
