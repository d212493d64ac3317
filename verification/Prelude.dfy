/** Small generic definitions shared by the other modules. */
module Prelude {

  datatype Option<+T> = None | Some(value: T)

  ghost predicate NoDup<T>(s: seq<T>) {
    forall i, j :: 0 <= i < j < |s| ==> s[i] != s[j]
  }

  /** The first `m` elements, or all of them; a negative `m` keeps nothing. */
  function Take<T>(s: seq<T>, m: int): (r: seq<T>)
    ensures r <= s
    ensures |r| == if m < 0 then 0 else if m < |s| then m else |s|
  {
    if m < 0 then [] else if m < |s| then s[..m] else s
  }

  /** Concatenation of a sequence of sequences. */
  function Flatten<T>(groups: seq<seq<T>>): seq<T> {
    if groups == [] then [] else Flatten(groups[..|groups| - 1]) + groups[|groups| - 1]
  }

  lemma {:induction false} FlattenMember<T>(groups: seq<seq<T>>, x: T)
    ensures x in Flatten(groups) <==> exists i :: 0 <= i < |groups| && x in groups[i]
  {
    if groups != [] {
      var init := groups[..|groups| - 1];
      FlattenMember(init, x);
      if x in Flatten(init) {
        var i :| 0 <= i < |init| && x in init[i];
        assert x in groups[i];
      }
      if i :| 0 <= i < |groups| && x in groups[i] {
        if i < |init| {
          assert x in init[i];
        }
      }
    }
  }

  /** Appending groups that are each duplicate-free and share no element keeps the whole duplicate-free. */
  lemma {:induction false} FlattenNoDup<T>(groups: seq<seq<T>>)
    requires forall i :: 0 <= i < |groups| ==> NoDup(groups[i])
    requires forall i, j, x :: 0 <= i < j < |groups| && x in groups[i] ==> x !in groups[j]
    ensures NoDup(Flatten(groups))
  {
    if groups != [] {
      var init, last := groups[..|groups| - 1], groups[|groups| - 1];
      FlattenNoDup(init);
      forall x | x in Flatten(init)
        ensures x !in last
      {
        FlattenMember(init, x);
        var i :| 0 <= i < |init| && x in init[i];
        assert x in groups[i];
      }
      NoDupConcat(Flatten(init), last);
    }
  }

  lemma NoDupConcat<T>(a: seq<T>, b: seq<T>)
    requires NoDup(a) && NoDup(b)
    requires forall x :: x in a ==> x !in b
    ensures NoDup(a + b)
  {
    forall i, j | 0 <= i < j < |a + b|
      ensures (a + b)[i] != (a + b)[j]
    {
      if i < |a| && j >= |a| {
        assert (a + b)[i] in a;
        assert (a + b)[j] in b;
      }
    }
  }

  lemma NoMemberMeansEmpty<T>(s: seq<T>)
    ensures s == [] || exists x :: x in s
  {
    if s != [] {
      assert s[0] in s;
    }
  }

  lemma PrefixStep<T>(s: seq<T>, i: nat)
    requires i < |s|
    ensures s[..i + 1][..i] == s[..i]
    ensures s[..i + 1] == s[..i] + [s[i]]
  {
  }

  // ---- Stable removal of later duplicates (the first element of each key survives) ----

  function Keys<T(==), K>(key: T -> K, xs: seq<T>): (ks: set<K>) {
    set x | x in xs :: key(x)
  }

  function DedupBy<T(==), K(==)>(key: T -> K, xs: seq<T>): seq<T> {
    if xs == [] then []
    else
      var init, last := xs[..|xs| - 1], xs[|xs| - 1];
      if key(last) in Keys(key, init) then DedupBy(key, init) else DedupBy(key, init) + [last]
  }

  lemma KeysAppend<T, K>(key: T -> K, xs: seq<T>, x: T)
    ensures Keys(key, xs + [x]) == Keys(key, xs) + {key(x)}
  {
  }

  /** No key is lost and none appears twice. */
  lemma {:induction false} DedupByKeys<T, K>(key: T -> K, xs: seq<T>)
    ensures Keys(key, DedupBy(key, xs)) == Keys(key, xs)
    ensures forall i, j :: 0 <= i < j < |DedupBy(key, xs)| ==> key(DedupBy(key, xs)[i]) != key(DedupBy(key, xs)[j])
  {
    if xs != [] {
      var init, last := xs[..|xs| - 1], xs[|xs| - 1];
      DedupByKeys(key, init);
      assert xs == init + [last];
      var d := DedupBy(key, init);
      KeysAppend(key, init, last);
      KeysAppend(key, d, last);
      assert forall i :: 0 <= i < |d| ==> d[i] in d && key(d[i]) in Keys(key, d);
    }
  }

  /** `x` stands in `xs` at a place before which its key does not occur. */
  ghost predicate FirstOfKey<T, K>(key: T -> K, xs: seq<T>, x: T) {
    exists i :: 0 <= i < |xs| && xs[i] == x && key(x) !in Keys(key, xs[..i])
  }

  /** The survivors are exactly the elements that come first with their key. */
  lemma {:induction false} DedupByFirst<T, K>(key: T -> K, xs: seq<T>, x: T)
    ensures x in DedupBy(key, xs) <==> FirstOfKey(key, xs, x)
  {
    if xs != [] {
      var n := |xs| - 1;
      var init, last := xs[..n], xs[n];
      DedupByFirst(key, init, x);
      if FirstOfKey(key, init, x) {
        var i :| 0 <= i < n && init[i] == x && key(x) !in Keys(key, init[..i]);
        assert xs[i] == x && xs[..i] == init[..i];
      }
      if FirstOfKey(key, xs, x) {
        var i :| 0 <= i < |xs| && xs[i] == x && key(x) !in Keys(key, xs[..i]);
        if i < n {
          assert init[i] == x && xs[..i] == init[..i];
        }
      }
      if x == last && key(last) !in Keys(key, init) {
        assert xs[n] == x && xs[..n] == init;
      }
    }
  }

  /** The key of the i-th element does not occur before it. */
  ghost predicate FirstAt<T, K>(key: T -> K, xs: seq<T>, i: int) {
    0 <= i < |xs| && forall j :: 0 <= j < i ==> key(xs[j]) != key(xs[i])
  }

  /** The survivors stand in the order of their first occurrences. */
  lemma {:induction false} DedupInOrder<T, K>(key: T -> K, xs: seq<T>, a: nat, b: nat) returns (i: int, j: int)
    requires a < b < |DedupBy(key, xs)|
    ensures FirstAt(key, xs, i) && xs[i] == DedupBy(key, xs)[a]
    ensures FirstAt(key, xs, j) && xs[j] == DedupBy(key, xs)[b]
    ensures i < j
  {
    var n := |xs| - 1;
    var d := DedupBy(key, xs[..n]);
    if b < |d| {
      i, j := DedupInOrder(key, xs[..n], a, b);
    } else {
      j := n;
      assert d[a] in d;
      DedupByFirst(key, xs[..n], d[a]);
      i :| 0 <= i < n && xs[..n][i] == d[a] && key(d[a]) !in Keys(key, xs[..n][..i]);
      FirstByKeys(key, xs[..n], i);
      FirstByKeys(key, xs, n);
    }
  }

  lemma FirstByKeys<T, K>(key: T -> K, xs: seq<T>, i: nat)
    requires i < |xs| && key(xs[i]) !in Keys(key, xs[..i])
    ensures FirstAt(key, xs, i)
  {
  }
}
