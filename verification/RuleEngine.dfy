/** The declarative rule engine: path lookup, operators, and evaluation of every rule on every resource. */
module RuleEngine {
  import opened Prelude
  import opened Json

  /**
   * The Python library calls a condition may reach. They stay uninterpreted: `needle in str(value)`,
   * `re.search(pattern, str(value)) is not None`, and `float(value)` (None where it raises).
   */
  datatype Library = Library(
    contains: (string, Json) -> bool,
    search: (string, Json) -> bool,
    toFloat: Json -> Option<real>)

  /** A rule's condition; a field that is None is a key absent from the YAML mapping. */
  datatype Condition = Condition(
    resourceType: Json,
    evalPath: Option<string>,
    equals: Option<Json>,
    contains: Option<string>,
    regex: Option<string>,
    gte: Option<Json>,
    lte: Option<Json>)

  datatype Rule = Rule(ruleId: string, severity: string, remediation: string, condition: Condition)

  datatype FindingData = FindingData(
    resourceId: Json, resourceType: Json, severity: string, ruleId: string, message: string)

  // ---- Dotted paths ----

  /** Python's `path.split(".")`. */
  function Split(path: string): (parts: seq<string>)
    ensures |parts| >= 1
  {
    if path == [] then [[]]
    else Attach(path[0], Split(path[1..]))
  }

  /** One more character in front: a dot opens a new part, anything else extends the first part. */
  function Attach(c: char, parts: seq<string>): (r: seq<string>)
    requires |parts| >= 1
    ensures |r| >= 1
  {
    if c == '.' then [[]] + parts else [[c] + parts[0]] + parts[1..]
  }

  function Join(parts: seq<string>): string
    requires |parts| >= 1
  {
    if |parts| == 1 then parts[0] else parts[0] + "." + Join(parts[1..])
  }

  /** Splitting loses nothing and leaves no dot in any part. */
  lemma {:induction false} SplitJoin(path: string)
    ensures Join(Split(path)) == path
    ensures forall i :: 0 <= i < |Split(path)| ==> '.' !in Split(path)[i]
  {
    if path != [] {
      SplitJoin(path[1..]);
      var rest := Split(path[1..]);
      if path[0] == '.' {
        assert ([[]] + rest)[1..] == rest;
      } else {
        var parts := [[path[0]] + rest[0]] + rest[1..];
        if |rest| > 1 {
          assert parts[1..] == rest[1..];
        }
      }
    }
  }

  lemma AttachConcat(c: char, a: seq<string>, b: seq<string>)
    requires |a| >= 1
    ensures Attach(c, a + b) == Attach(c, a) + b
  {
  }

  lemma {:induction false} SplitConcat(p: string, q: string)
    ensures Split(p + "." + q) == Split(p) + Split(q)
  {
    var whole := p + "." + q;
    if p == [] {
      assert whole[0] == '.' && whole[1..] == q;
    } else {
      SplitConcat(p[1..], q);
      assert whole[0] == p[0] && whole[1..] == p[1..] + "." + q;
      AttachConcat(p[0], Split(p[1..]), Split(q));
    }
  }

  lemma {:induction false} SplitWithoutDot(p: string)
    requires '.' !in p
    ensures Split(p) == [p]
  {
    if p != [] {
      SplitWithoutDot(p[1..]);
      assert [p[0]] + p[1..] == p;
    }
  }

  // ---- Python's int(text), ASCII digits ----

  predicate IsSpace(c: char) {
    c == ' ' || '\t' <= c <= '\r' || '\U{1c}' <= c <= '\U{1f}'
  }

  predicate IsDigit(c: char) {
    '0' <= c <= '9'
  }

  function StripLeft(s: string): string {
    if s != [] && IsSpace(s[0]) then StripLeft(s[1..]) else s
  }

  function StripRight(s: string): string {
    if s != [] && IsSpace(s[|s| - 1]) then StripRight(s[..|s| - 1]) else s
  }

  /** Digits with single underscores between them. */
  predicate IsNumeral(s: string) {
    s != [] && IsDigit(s[|s| - 1]) &&
    (|s| == 1 ||
     IsNumeral(if s[|s| - 2] == '_' then s[..|s| - 2] else s[..|s| - 1]))
  }

  function NumeralValue(s: string): nat {
    if s == [] then 0
    else if IsDigit(s[|s| - 1]) then 10 * NumeralValue(s[..|s| - 1]) + (s[|s| - 1] as int - '0' as int)
    else NumeralValue(s[..|s| - 1])
  }

  function PyInt(text: string): Option<int> {
    var s := StripRight(StripLeft(text));
    var negative := s != [] && s[0] == '-';
    var digits := if s != [] && (s[0] == '-' || s[0] == '+') then s[1..] else s;
    if !IsNumeral(digits) then None
    else
      var magnitude: int := NumeralValue(digits);
      Some(if negative then -magnitude else magnitude)
  }

  /** Decimal notation of a natural, the text an index is written with. */
  function Decimal(n: nat): (s: string)
    ensures s != [] && forall i :: 0 <= i < |s| ==> IsDigit(s[i])
  {
    var last := ['0' + (n % 10) as char];
    if n < 10 then last else Decimal(n / 10) + last
  }

  lemma {:induction false} DecimalValue(n: nat)
    ensures IsNumeral(Decimal(n)) && NumeralValue(Decimal(n)) == n
  {
    var s := Decimal(n);
    if n >= 10 {
      DecimalValue(n / 10);
      assert s[..|s| - 1] == Decimal(n / 10);
      assert s[|s| - 2] != '_';
    } else {
      assert s[..0] == [];
    }
  }

  lemma NumeralIsRead(s: string)
    requires IsNumeral(s) && IsDigit(s[0])
    ensures PyInt(s) == Some(NumeralValue(s))
  {
  }

  lemma NegatedNumeralIsRead(s: string, t: string)
    requires IsNumeral(s) && |t| == |s| + 1 && t[0] == '-' && t[1..] == s
    ensures var value: int := NumeralValue(s); PyInt(t) == Some(-value)
  {
  }

  /** Reading back a written index, with or without a minus sign, gives the index. */
  lemma PyIntReadsDecimal(n: nat)
    ensures PyInt(Decimal(n)) == Some(n)
    ensures var value: int := n; PyInt("-" + Decimal(n)) == Some(-value)
  {
    DecimalValue(n);
    NumeralIsRead(Decimal(n));
    NegatedNumeralIsRead(Decimal(n), "-" + Decimal(n));
  }

  // ---- get_value ----

  /** One segment of a path; None where the code returns None at once. */
  function Descend(current: Json, part: string): (next: Option<Json>)
    ensures next.Some? ==> next.value in Children(current)
  {
    match current
    case Obj(fields) => if part in fields then Some(fields[part]) else None
    case List(items) =>
      (match PyInt(part)
       case None => None
       case Some(index) =>
         if 0 <= index < |items| then Some(items[index])
         else if -|items| <= index < 0 then Some(items[|items| + index])
         else None)
    case _ => None
  }

  /** List segments index as Python lists do: from the front, from the back with a minus, None beyond either end. */
  lemma ListSegments(items: seq<Json>, n: nat)
    ensures Descend(List(items), Decimal(n)) == if n < |items| then Some(items[n]) else None
    ensures n > 0 ==> Descend(List(items), "-" + Decimal(n)) == if n <= |items| then Some(items[|items| - n]) else None
  {
    PyIntReadsDecimal(n);
  }

  function Lookup(data: Json, parts: seq<string>): Json {
    if parts == [] then data
    else
      match Descend(data, parts[0])
      case None => Null
      case Some(next) => Lookup(next, parts[1..])
  }

  function ValueAt(data: Json, path: string): Json {
    Lookup(data, Split(path))
  }

  method GetValue(data: Json, path: string) returns (value: Json)
    ensures value == ValueAt(data, path)
  {
    var parts := Split(path);
    var current := data;
    for i := 0 to |parts|
      invariant Lookup(current, parts[i..]) == Lookup(data, parts)
    {
      assert parts[i..][1..] == parts[i + 1..];
      match Descend(current, parts[i])
      case None => return Null;
      case Some(next) => current := next;
    }
    return current;
  }

  lemma {:induction false} LookupConcat(data: Json, first: seq<string>, second: seq<string>)
    requires second != []
    ensures Lookup(data, first + second) == Lookup(Lookup(data, first), second)
  {
    var whole := first + second;
    if first == [] {
      assert whole == second;
    } else {
      assert whole[1..] == first[1..] + second;
      match Descend(data, first[0])
      case None =>
      case Some(next) => LookupConcat(next, first[1..], second);
    }
  }

  /** Path lookup composes, for every value and all paths, including lookups that fail half way. */
  lemma ValueAtComposes(data: Json, p: string, q: string)
    ensures ValueAt(data, p + "." + q) == ValueAt(ValueAt(data, p), q)
  {
    SplitConcat(p, q);
    LookupConcat(data, Split(p), Split(q));
  }

  /** A path with as many segments as the document is high runs out of document. */
  lemma {:induction false} LookupBeyondHeight(data: Json, parts: seq<string>)
    requires |parts| >= Height(data)
    ensures Lookup(data, parts) == Null
  {
    match Descend(data, parts[0])
    case None =>
    case Some(next) =>
      ChildHeight(data, next);
      LookupBeyondHeight(next, parts[1..]);
  }

  // ---- match ----

  function Match(lib: Library, value: Json, condition: Condition): bool {
    if condition.equals.Some? then PyEqual(value, condition.equals.value)
    else if condition.contains.Some? then
      value != Null && lib.contains(condition.contains.value, value)
    else if condition.regex.Some? then
      value != Null && lib.search(condition.regex.value, value)
    else if condition.gte.Some? then
      var v, bound := lib.toFloat(value), lib.toFloat(condition.gte.value);
      v.Some? && bound.Some? && v.value >= bound.value
    else if condition.lte.Some? then
      var v, bound := lib.toFloat(value), lib.toFloat(condition.lte.value);
      v.Some? && bound.Some? && v.value <= bound.value
    else false
  }

  function AtLeast(bound: Json): Condition {
    Condition(Null, None, None, None, None, Some(bound), None)
  }

  function AtMost(bound: Json): Condition {
    Condition(Null, None, None, None, None, None, Some(bound))
  }

  /** A numeric bound is met upwards by gte and downwards by lte, and by both only at the bound itself. */
  lemma NumericOperators(lib: Library, v: Json, w: Json, bound: Json)
    requires lib.toFloat(v).Some? && lib.toFloat(w).Some? && lib.toFloat(v).value <= lib.toFloat(w).value
    ensures Match(lib, v, AtLeast(bound)) ==> Match(lib, w, AtLeast(bound))
    ensures Match(lib, w, AtMost(bound)) ==> Match(lib, v, AtMost(bound))
    ensures lib.toFloat(bound).Some? ==> Match(lib, v, AtLeast(bound)) || Match(lib, v, AtMost(bound))
    ensures Match(lib, v, AtLeast(bound)) && Match(lib, v, AtMost(bound)) <==> lib.toFloat(bound) == lib.toFloat(v)
  {
  }

  /** A lookup that found nothing matches no condition, except equality with null. */
  lemma NothingFoundMatchesNothing(lib: Library, c: Condition)
    requires lib.toFloat(Null).None?
    ensures Match(lib, Null, c) <==> c.equals == Some(Null)
  {
  }

  // ---- evaluate ----

  /** `_normalize`: a list, a dict wrapping a `resources` list, a single dict, or nothing. */
  function Normalize(parsed: Json): seq<Json> {
    match parsed
    case List(items) => items
    case Obj(fields) => if Get(fields, "resources").List? then fields["resources"].items else [parsed]
    case _ => []
  }

  /** The rule applies to the resource and its condition matches. */
  predicate Fires(lib: Library, resource: Json, rule: Rule) {
    resource.Obj? &&
    PyEqual(rule.condition.resourceType, Get(resource.fields, "resource_type")) &&
    rule.condition.evalPath.Some? && rule.condition.evalPath.value != "" &&
    Match(lib, ValueAt(resource, rule.condition.evalPath.value), rule.condition)
  }

  function FindingFor(resource: Json, rule: Rule): FindingData
    requires resource.Obj?
  {
    FindingData(
      if "resource_id" in resource.fields then resource.fields["resource_id"] else Str("Unknown"),
      Get(resource.fields, "resource_type"),
      rule.severity, rule.ruleId, rule.remediation)
  }

  /** The findings of one resource, in rule order. */
  function ResourceFindings(lib: Library, rules: seq<Rule>, resource: Json): seq<FindingData> {
    if rules == [] then []
    else
      var before := ResourceFindings(lib, rules[..|rules| - 1], resource);
      var rule := rules[|rules| - 1];
      if Fires(lib, resource, rule) then before + [FindingFor(resource, rule)] else before
  }

  /** The findings of a list of resources: resource order first, then rule order. */
  function Findings(lib: Library, rules: seq<Rule>, resources: seq<Json>): seq<FindingData> {
    if resources == [] then []
    else
      Findings(lib, rules, resources[..|resources| - 1]) +
      ResourceFindings(lib, rules, resources[|resources| - 1])
  }

  lemma {:induction false} NonObjectHasNoFindings(lib: Library, rules: seq<Rule>, resource: Json)
    requires !resource.Obj?
    ensures ResourceFindings(lib, rules, resource) == []
  {
    if rules != [] {
      NonObjectHasNoFindings(lib, rules[..|rules| - 1], resource);
    }
  }

  method Evaluate(lib: Library, rules: seq<Rule>, parsed: Json) returns (findings: seq<FindingData>)
    ensures findings == Findings(lib, rules, Normalize(parsed))
  {
    var resources := Normalize(parsed);
    findings := [];
    for i := 0 to |resources|
      invariant findings == Findings(lib, rules, resources[..i])
    {
      PrefixStep(resources, i);
      var resource := resources[i];
      if !resource.Obj? {
        NonObjectHasNoFindings(lib, rules, resource);
        continue;
      }
      var resourceType := Get(resource.fields, "resource_type");
      for j := 0 to |rules|
        invariant findings == Findings(lib, rules, resources[..i]) + ResourceFindings(lib, rules[..j], resource)
      {
        PrefixStep(rules, j);
        var rule := rules[j];
        if !PyEqual(rule.condition.resourceType, resourceType) {
          continue;
        }
        if rule.condition.evalPath.None? || rule.condition.evalPath.value == "" {
          continue;
        }
        var value := GetValue(resource, rule.condition.evalPath.value);
        if Match(lib, value, rule.condition) {
          findings := findings + [FindingFor(resource, rule)];
        }
      }
      assert rules[..|rules|] == rules;
    }
    assert resources[..|resources|] == resources;
  }

  /** Evaluating a concatenated list is evaluating its two halves. */
  lemma {:induction false} FindingsConcat(lib: Library, rules: seq<Rule>, xs: seq<Json>, ys: seq<Json>)
    ensures Findings(lib, rules, xs + ys) == Findings(lib, rules, xs) + Findings(lib, rules, ys)
  {
    if ys == [] {
      assert xs + ys == xs;
    } else {
      var init := ys[..|ys| - 1];
      FindingsConcat(lib, rules, xs, init);
      assert (xs + ys)[..|xs + ys| - 1] == xs + init;
    }
  }

  /** So is splitting the rules, for one resource. */
  lemma {:induction false} RulesConcat(lib: Library, first: seq<Rule>, second: seq<Rule>, resource: Json)
    ensures ResourceFindings(lib, first + second, resource)
         == ResourceFindings(lib, first, resource) + ResourceFindings(lib, second, resource)
  {
    if second == [] {
      assert first + second == first;
    } else {
      RulesConcat(lib, first, second[..|second| - 1], resource);
      assert (first + second)[..|first + second| - 1] == first + second[..|second| - 1];
    }
  }

  /** Some rule fires on the resource and reports `f`. */
  ghost predicate Reported(lib: Library, rules: seq<Rule>, resource: Json, f: FindingData) {
    exists rule :: rule in rules && Fires(lib, resource, rule) && f == FindingFor(resource, rule)
  }

  lemma {:induction false} ResourceFindingsMember(lib: Library, rules: seq<Rule>, resource: Json, f: FindingData)
    ensures f in ResourceFindings(lib, rules, resource) <==> Reported(lib, rules, resource, f)
  {
    if rules != [] {
      var init, last := rules[..|rules| - 1], rules[|rules| - 1];
      ResourceFindingsMember(lib, init, resource, f);
      assert forall rule :: rule in rules <==> rule in init || rule == last;
    }
  }

  /** Nothing is invented and nothing is missed: a finding is reported exactly for a pair that fires. */
  lemma {:induction false} FindingsMember(lib: Library, rules: seq<Rule>, resources: seq<Json>, f: FindingData)
    ensures f in Findings(lib, rules, resources) <==>
            exists resource :: resource in resources && Reported(lib, rules, resource, f)
  {
    if resources != [] {
      var init, last := resources[..|resources| - 1], resources[|resources| - 1];
      FindingsMember(lib, rules, init, f);
      ResourceFindingsMember(lib, rules, last, f);
      assert forall resource :: resource in resources <==> resource in init || resource == last;
    }
  }

  // ---- Pairs in order: an independent account of `evaluate` ----

  /** The positions of the rules that fire on one resource. */
  function RowHits(lib: Library, rules: seq<Rule>, resource: Json): (row: seq<nat>)
    ensures forall j :: j in row ==> j < |rules|
  {
    if rules == [] then []
    else
      var before := RowHits(lib, rules[..|rules| - 1], resource);
      if Fires(lib, resource, rules[|rules| - 1]) then before + [|rules| - 1] else before
  }

  /** The (resource, rule) positions that fire. */
  function Hits(lib: Library, rules: seq<Rule>, resources: seq<Json>): seq<(nat, nat)> {
    if resources == [] then []
    else
      var n := |resources| - 1;
      var row := RowHits(lib, rules, resources[n]);
      Hits(lib, rules, resources[..n]) + seq(|row|, k requires 0 <= k < |row| => (n, row[k]))
  }

  ghost predicate Before(p: (nat, nat), q: (nat, nat)) {
    p.0 < q.0 || (p.0 == q.0 && p.1 < q.1)
  }

  /** The k-th finding comes from the k-th hit. */
  ghost predicate RowDescribes(rules: seq<Rule>, resource: Json, row: seq<nat>, found: seq<FindingData>) {
    && |row| == |found|
    && (forall k :: 0 <= k < |row| ==> row[k] < |rules|)
    && (row != [] ==> resource.Obj?)
    && (forall k :: 0 <= k < |row| ==> found[k] == FindingFor(resource, rules[row[k]]))
  }

  lemma {:induction false} RowHitsMember(lib: Library, rules: seq<Rule>, resource: Json, j: nat)
    ensures j in RowHits(lib, rules, resource) <==> j < |rules| && Fires(lib, resource, rules[j])
  {
    if rules != [] {
      RowHitsMember(lib, rules[..|rules| - 1], resource, j);
    }
  }

  lemma {:induction false} RowHitsOrdered(lib: Library, rules: seq<Rule>, resource: Json)
    ensures forall a, b :: 0 <= a < b < |RowHits(lib, rules, resource)| ==>
              RowHits(lib, rules, resource)[a] < RowHits(lib, rules, resource)[b]
  {
    if rules != [] {
      RowHitsOrdered(lib, rules[..|rules| - 1], resource);
      var before := RowHits(lib, rules[..|rules| - 1], resource);
      assert forall a :: 0 <= a < |before| ==> before[a] in before;
    }
  }

  lemma {:induction false} RowHitsDescribe(lib: Library, rules: seq<Rule>, resource: Json)
    ensures RowDescribes(rules, resource, RowHits(lib, rules, resource), ResourceFindings(lib, rules, resource))
  {
    if rules != [] {
      var n := |rules| - 1;
      RowHitsDescribe(lib, rules[..n], resource);
      var before := RowHits(lib, rules[..n], resource);
      assert forall k :: 0 <= k < |before| ==> rules[..n][before[k]] == rules[before[k]];
    }
  }

  lemma {:induction false} HitsMember(lib: Library, rules: seq<Rule>, resources: seq<Json>, i: nat, j: nat)
    ensures (i, j) in Hits(lib, rules, resources) <==>
            i < |resources| && j < |rules| && Fires(lib, resources[i], rules[j])
  {
    if resources != [] {
      var n := |resources| - 1;
      var row := RowHits(lib, rules, resources[n]);
      var tail := seq(|row|, k requires 0 <= k < |row| => (n, row[k]));
      HitsMember(lib, rules, resources[..n], i, j);
      RowHitsMember(lib, rules, resources[n], j);
      if i == n && j in row {
        var k :| 0 <= k < |row| && row[k] == j;
        assert tail[k] == (i, j);
      }
    }
  }

  lemma {:induction false} HitsOrdered(lib: Library, rules: seq<Rule>, resources: seq<Json>, a: nat, b: nat)
    requires a < b < |Hits(lib, rules, resources)|
    ensures Before(Hits(lib, rules, resources)[a], Hits(lib, rules, resources)[b])
  {
    var n := |resources| - 1;
    var before := Hits(lib, rules, resources[..n]);
    RowHitsOrdered(lib, rules, resources[n]);
    if b < |before| {
      HitsOrdered(lib, rules, resources[..n], a, b);
    } else if a < |before| {
      assert (before[a].0, before[a].1) in before;
      HitsMember(lib, rules, resources[..n], before[a].0, before[a].1);
    }
  }

  lemma {:induction false} HitsGiveFindings(lib: Library, rules: seq<Rule>, resources: seq<Json>, k: nat)
    requires k < |Hits(lib, rules, resources)|
    ensures k < |Findings(lib, rules, resources)|
    ensures var (i, j) := Hits(lib, rules, resources)[k];
            i < |resources| && j < |rules| && resources[i].Obj? &&
            Findings(lib, rules, resources)[k] == FindingFor(resources[i], rules[j])
  {
    var n := |resources| - 1;
    HitsAsManyAsFindings(lib, rules, resources[..n]);
    RowHitsDescribe(lib, rules, resources[n]);
    var before := Hits(lib, rules, resources[..n]);
    if k < |before| {
      HitsGiveFindings(lib, rules, resources[..n], k);
      assert resources[..n][before[k].0] == resources[before[k].0];
    } else {
      var row := RowHits(lib, rules, resources[n]);
      assert Hits(lib, rules, resources)[k] == (n, row[k - |before|]);
    }
  }

  lemma {:induction false} HitsAsManyAsFindings(lib: Library, rules: seq<Rule>, resources: seq<Json>)
    ensures |Hits(lib, rules, resources)| == |Findings(lib, rules, resources)|
  {
    if resources != [] {
      HitsAsManyAsFindings(lib, rules, resources[..|resources| - 1]);
      RowHitsDescribe(lib, rules, resources[|resources| - 1]);
    }
  }

  /**
   * `evaluate` is the comprehension over (resource, rule) pairs: the firing positions, all of them, in
   * strictly increasing reading order, give the findings one for one.
   */
  lemma FindingsAreOrderedComprehension(lib: Library, rules: seq<Rule>, resources: seq<Json>)
    ensures forall a, b :: 0 <= a < b < |Hits(lib, rules, resources)| ==>
              Before(Hits(lib, rules, resources)[a], Hits(lib, rules, resources)[b])
    ensures forall i: nat, j: nat :: (i, j) in Hits(lib, rules, resources) <==>
              i < |resources| && j < |rules| && Fires(lib, resources[i], rules[j])
    ensures |Hits(lib, rules, resources)| == |Findings(lib, rules, resources)|
    ensures forall k :: 0 <= k < |Findings(lib, rules, resources)| ==>
              var (i, j) := Hits(lib, rules, resources)[k];
              i < |resources| && j < |rules| && resources[i].Obj? &&
              Findings(lib, rules, resources)[k] == FindingFor(resources[i], rules[j])
  {
    HitsAsManyAsFindings(lib, rules, resources);
    forall a, b | 0 <= a < b < |Hits(lib, rules, resources)|
      ensures Before(Hits(lib, rules, resources)[a], Hits(lib, rules, resources)[b])
    {
      HitsOrdered(lib, rules, resources, a, b);
    }
    forall i: nat, j: nat
      ensures (i, j) in Hits(lib, rules, resources) <==>
              i < |resources| && j < |rules| && Fires(lib, resources[i], rules[j])
    {
      HitsMember(lib, rules, resources, i, j);
    }
    forall k | 0 <= k < |Findings(lib, rules, resources)|
      ensures var (i, j) := Hits(lib, rules, resources)[k];
              i < |resources| && j < |rules| && resources[i].Obj? &&
              Findings(lib, rules, resources)[k] == FindingFor(resources[i], rules[j])
    {
      HitsGiveFindings(lib, rules, resources, k);
    }
  }
}
