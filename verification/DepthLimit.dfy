/** The nesting limit of the upload parser. */
module DepthLimit {
  import opened Json
  import RuleEngine

  const MAX_DEPTH := 20

  /** `_validate_depth`: true when the recursion finishes without raising. */
  predicate ValidateDepth(obj: Json, depth: nat)
    decreases obj
  {
    depth <= MAX_DEPTH &&
    match obj
    case Obj(fields) => forall k :: k in fields ==> ValidateDepth(fields[k], depth + 1)
    case List(items) => forall i :: 0 <= i < |items| ==> ValidateDepth(items[i], depth + 1)
    case _ => true
  }

  /** A call at depth `d` accepts exactly the values whose own height still fits below the limit. */
  lemma {:induction false} ValidateDepthIsHeight(obj: Json, depth: nat)
    ensures ValidateDepth(obj, depth) <==> Height(obj) + depth <= MAX_DEPTH + 1
    decreases obj
  {
    var heights := ChildHeights(obj);
    forall c | c in Children(obj)
      ensures ValidateDepth(c, depth + 1) <==> Height(c) + depth <= MAX_DEPTH
      ensures Height(c) in heights
    {
      ValidateDepthIsHeight(c, depth + 1);
    }
    match obj
    case Obj(fields) =>
      forall k | k in fields
        ensures fields[k] in Children(obj)
      {
      }
      ChildrenFit(obj, depth, heights);
    case List(items) =>
      forall i | 0 <= i < |items|
        ensures items[i] in Children(obj)
      {
      }
      ChildrenFit(obj, depth, heights);
    case _ =>
      assert Children(obj) == {} && heights == {};
  }

  /** The children all fit exactly when the tallest does. */
  lemma ChildrenFit(obj: Json, depth: nat, heights: set<nat>)
    requires heights == ChildHeights(obj)
    requires forall c :: c in Children(obj) ==> (ValidateDepth(c, depth + 1) <==> Height(c) + depth <= MAX_DEPTH)
    ensures depth <= MAX_DEPTH && (forall c :: c in Children(obj) ==> ValidateDepth(c, depth + 1))
      <==> 1 + SetMax(heights) + depth <= MAX_DEPTH + 1
  {
  }

  /** `parse` accepts a document (starting at depth 1) exactly when its nesting height is at most 20. */
  lemma DocumentAccepted(document: Json)
    ensures ValidateDepth(document, 1) <==> Height(document) <= 20
  {
    ValidateDepthIsHeight(document, 1);
  }

  /** On an accepted document every path of 20 or more segments looks up None. */
  lemma AcceptedDocumentsAreShallow(document: Json, path: string)
    requires ValidateDepth(document, 1)
    requires |RuleEngine.Split(path)| >= 20
    ensures RuleEngine.ValueAt(document, path) == Null
  {
    DocumentAccepted(document);
    RuleEngine.LookupBeyondHeight(document, RuleEngine.Split(path));
  }

  /** The bound is sharp: for any segments there is a document one level higher in which they find a value. */
  lemma {:induction false} RejectedDocumentMayBeDeeper(parts: seq<string>)
    ensures var document := Tower(parts);
            Height(document) == |parts| + 1 &&
            RuleEngine.Lookup(document, parts) == Bool(true)
  {
    if parts != [] {
      RejectedDocumentMayBeDeeper(parts[1..]);
      var document := Tower(parts);
      assert Children(document) == {document.fields[parts[0]]};
      assert ChildHeights(document) == {Height(Tower(parts[1..]))};
    } else {
      assert ChildHeights(Tower(parts)) == {};
    }
  }

  /** Nested dicts, one per segment, with `true` at the bottom. */
  function Tower(parts: seq<string>): Json {
    if parts == [] then Bool(true) else Obj(map[parts[0] := Tower(parts[1..])])
  }
}
