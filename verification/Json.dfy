/** Parsed JSON/YAML values and Python's view of them. */
module Json {
  /**
   * A parsed document. Dictionaries are maps (the order of keys is not observed by any operation here)
   * and every number, integer or float, is its real value, as Python's `==` compares them.
   */
  datatype Json =
    | Null
    | Bool(flag: bool)
    | Num(number: real)
    | Str(text: string)
    | List(items: seq<Json>)
    | Obj(fields: map<string, Json>)

  /** The form two values share exactly when Python's `==` holds between them: `True == 1`, at every depth. */
  function Canonical(j: Json): Json {
    match j
    case Bool(b) => Num(if b then 1.0 else 0.0)
    case List(items) => List(seq(|items|, i requires 0 <= i < |items| => Canonical(items[i])))
    case Obj(fields) => Obj(map k | k in fields :: Canonical(fields[k]))
    case _ => j
  }

  /** Python's `a == b`. */
  predicate PyEqual(a: Json, b: Json) {
    Canonical(a) == Canonical(b)
  }

  /** Comparing with a string literal is exact: no value of another type equals a string. */
  lemma PyEqualString(j: Json, s: string)
    ensures PyEqual(j, Str(s)) <==> j == Str(s)
  {
  }

  /** Comparing with `true` also accepts the number 1. */
  lemma PyEqualTrue(j: Json)
    ensures PyEqual(j, Bool(true)) <==> j == Bool(true) || j == Num(1.0)
  {
  }

  /** `d.get(key)`: the value under a key, or None. */
  function Get(fields: map<string, Json>, key: string): Json {
    if key in fields then fields[key] else Null
  }

  // ---- Nesting ----

  /** The largest of a finite set of naturals, 0 for the empty set. */
  ghost function SetMax(s: set<nat>): (m: nat)
    ensures forall x :: x in s ==> x <= m
    ensures s == {} ==> m == 0
    ensures s != {} ==> m in s
  {
    if s == {} then 0
    else
      var x :| x in s;
      var rest := SetMax(s - {x});
      assert s == (s - {x}) + {x};
      if rest > x then rest else x
  }

  ghost function Children(j: Json): (c: set<Json>)
    ensures forall x :: x in c ==> x < j
  {
    match j
    case List(items) => set i | 0 <= i < |items| :: items[i]
    case Obj(fields) => set k | k in fields :: fields[k]
    case _ => {}
  }

  /** Nesting height: 1 for a scalar or an empty container. */
  ghost function Height(j: Json): (h: nat)
    ensures h >= 1
    decreases j, 1
  {
    1 + SetMax(ChildHeights(j))
  }

  ghost function ChildHeights(j: Json): (hs: set<nat>)
    ensures forall c :: c in Children(j) ==> Height(c) in hs
    decreases j, 0
  {
    set c | c in Children(j) :: Height(c)
  }

  lemma ChildHeight(j: Json, c: Json)
    requires c in Children(j)
    ensures Height(c) < Height(j)
  {
  }
}
