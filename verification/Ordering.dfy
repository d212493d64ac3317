/** String order and the stable sort behind Python's `sorted`. */
module Ordering {
  import opened Prelude

  /** Lexicographic order by code point. */
  predicate StrLe(a: string, b: string) {
    a == [] || (b != [] && (a[0] < b[0] || (a[0] == b[0] && StrLe(a[1..], b[1..]))))
  }

  /** The texts agree before the k-th character, and there `a` has the smaller code point. */
  ghost predicate SmallerAt(a: string, b: string, k: int) {
    0 <= k < |a| && k < |b| && a[..k] == b[..k] && a[k] as int < b[k] as int
  }

  /** Python's order of strings: a prefix comes first, and otherwise the first difference decides. */
  lemma {:induction false} StrLeExactly(a: string, b: string)
    ensures StrLe(a, b) <==> a <= b || exists k :: SmallerAt(a, b, k)
  {
    if a != [] && b != [] {
      if a[0] == b[0] {
        StrLeExactly(a[1..], b[1..]);
        if k :| SmallerAt(a[1..], b[1..], k) {
          assert a[..k + 1] == [a[0]] + a[1..][..k] && b[..k + 1] == [b[0]] + b[1..][..k];
          assert SmallerAt(a, b, k + 1);
        }
        if k :| SmallerAt(a, b, k) {
          assert a[1..][..k - 1] == a[..k][1..] && b[1..][..k - 1] == b[..k][1..];
          assert SmallerAt(a[1..], b[1..], k - 1);
        }
        assert a[1..] <= b[1..] ==> [a[0]] + a[1..] <= [b[0]] + b[1..];
      } else {
        forall k | SmallerAt(a, b, k)
          ensures k == 0
        {
          FirstDiffers(a, b, k);
        }
        assert a[0] < b[0] ==> SmallerAt(a, b, 0);
      }
    }
  }

  lemma FirstDiffers(a: string, b: string, k: int)
    requires SmallerAt(a, b, k) && a[0] != b[0]
    ensures k == 0
  {
  }

  lemma {:induction false} StrLeAntisymmetric(a: string, b: string)
    requires StrLe(a, b) && StrLe(b, a)
    ensures a == b
  {
    if a != [] && b != [] {
      StrLeAntisymmetric(a[1..], b[1..]);
      assert a == [a[0]] + a[1..] && b == [b[0]] + b[1..];
    }
  }

  lemma {:induction false} StrLeTotal(a: string, b: string)
    ensures StrLe(a, b) || StrLe(b, a)
  {
    if a != [] && b != [] {
      StrLeTotal(a[1..], b[1..]);
    }
  }

  lemma {:induction false} StrLeTransitive(a: string, b: string, c: string)
    requires StrLe(a, b) && StrLe(b, c)
    ensures StrLe(a, c)
  {
    if a != [] && b != [] && c != [] && a[0] == b[0] == c[0] {
      StrLeTransitive(a[1..], b[1..], c[1..]);
    }
  }

  /** Insert after every element whose key is not greater, which keeps equal keys in arrival order. */
  function InsertBy<T>(key: T -> string, x: T, sorted: seq<T>): seq<T> {
    if sorted == [] then [x]
    else if StrLe(key(sorted[|sorted| - 1]), key(x)) then sorted + [x]
    else InsertBy(key, x, sorted[..|sorted| - 1]) + [sorted[|sorted| - 1]]
  }

  function SortBy<T>(key: T -> string, xs: seq<T>): seq<T> {
    if xs == [] then [] else InsertBy(key, xs[|xs| - 1], SortBy(key, xs[..|xs| - 1]))
  }

  ghost predicate SortedBy<T>(key: T -> string, xs: seq<T>) {
    forall i, j :: 0 <= i < j < |xs| ==> StrLe(key(xs[i]), key(xs[j]))
  }

  lemma SortedAppend<T>(key: T -> string, xs: seq<T>, x: T)
    requires SortedBy(key, xs) && forall i :: 0 <= i < |xs| ==> StrLe(key(xs[i]), key(x))
    ensures SortedBy(key, xs + [x])
  {
  }

  lemma {:induction false} InsertByKeepsElements<T>(key: T -> string, x: T, sorted: seq<T>)
    ensures multiset(InsertBy(key, x, sorted)) == multiset(sorted) + multiset{x}
  {
    if sorted != [] {
      var init, last := sorted[..|sorted| - 1], sorted[|sorted| - 1];
      assert sorted == init + [last];
      if !StrLe(key(last), key(x)) {
        InsertByKeepsElements(key, x, init);
      }
    }
  }

  lemma {:induction false} InsertBySorts<T>(key: T -> string, x: T, sorted: seq<T>)
    requires SortedBy(key, sorted)
    ensures SortedBy(key, InsertBy(key, x, sorted))
  {
    if sorted != [] {
      var n := |sorted| - 1;
      var init, last := sorted[..n], sorted[n];
      if StrLe(key(last), key(x)) {
        forall i | 0 <= i < |sorted|
          ensures StrLe(key(sorted[i]), key(x))
        {
          if i < n {
            StrLeTransitive(key(sorted[i]), key(last), key(x));
          }
        }
        SortedAppend(key, sorted, x);
      } else {
        StrLeTotal(key(last), key(x));
        InsertBySorts(key, x, init);
        InsertByKeepsElements(key, x, init);
        var r := InsertBy(key, x, init);
        forall i | 0 <= i < |r|
          ensures StrLe(key(r[i]), key(last))
        {
          assert r[i] in multiset(r);
          if r[i] != x {
            assert r[i] in multiset(init);
            var k :| 0 <= k < |init| && init[k] == r[i];
            assert sorted[k] == r[i];
          }
        }
        SortedAppend(key, r, last);
      }
    }
  }

  /** `SortBy` sorts, and rearranges without losing or adding anything. */
  lemma {:induction false} SortByProperties<T>(key: T -> string, xs: seq<T>)
    ensures SortedBy(key, SortBy(key, xs))
    ensures multiset(SortBy(key, xs)) == multiset(xs)
    ensures |SortBy(key, xs)| == |xs|
  {
    if xs != [] {
      var init := xs[..|xs| - 1];
      assert xs == init + [xs[|xs| - 1]];
      SortByProperties(key, init);
      InsertBySorts(key, xs[|xs| - 1], SortBy(key, init));
      InsertByKeepsElements(key, xs[|xs| - 1], SortBy(key, init));
      assert |multiset(SortBy(key, xs))| == |multiset(xs)|;
    }
  }

  /** The elements with this key, in order. */
  function WithKey<T>(key: T -> string, xs: seq<T>, k: string): seq<T> {
    if xs == [] then []
    else WithKey(key, xs[..|xs| - 1], k) + (if key(xs[|xs| - 1]) == k then [xs[|xs| - 1]] else [])
  }

  lemma {:induction false} InsertByIsStable<T>(key: T -> string, x: T, sorted: seq<T>, k: string)
    ensures WithKey(key, InsertBy(key, x, sorted), k) == WithKey(key, sorted + [x], k)
  {
    assert (sorted + [x])[..|sorted|] == sorted;
    if sorted != [] {
      var init, last := sorted[..|sorted| - 1], sorted[|sorted| - 1];
      if !StrLe(key(last), key(x)) {
        InsertByIsStable(key, x, init, k);
        assert (init + [x])[..|init|] == init;
        var r := InsertBy(key, x, init);
        assert (r + [last])[..|r|] == r;
        StrLeTotal(key(last), key(last));
        assert key(last) != key(x);
      }
    }
  }

  /** Elements with equal keys keep their order. */
  lemma {:induction false} SortByIsStable<T>(key: T -> string, xs: seq<T>, k: string)
    ensures WithKey(key, SortBy(key, xs), k) == WithKey(key, xs, k)
  {
    if xs != [] {
      var init, last := xs[..|xs| - 1], xs[|xs| - 1];
      var s := SortBy(key, init);
      SortByIsStable(key, init, k);
      InsertByIsStable(key, last, s, k);
      assert (s + [last])[..|s|] == s;
    }
  }

  lemma SortByMember<T>(key: T -> string, xs: seq<T>, x: T)
    ensures x in SortBy(key, xs) <==> x in xs
  {
    SortByProperties(key, xs);
    assert x in SortBy(key, xs) <==> x in multiset(SortBy(key, xs));
    assert x in xs <==> x in multiset(xs);
  }

  lemma NoDupMultiset<T>(a: seq<T>, b: seq<T>)
    requires multiset(a) == multiset(b) && NoDup(a)
    ensures NoDup(b)
  {
    forall x | x in b
      ensures multiset(b)[x] == 1
    {
      assert x in multiset(b);
      var i :| 0 <= i < |a| && a[i] == x;
      assert a == a[..i] + [x] + a[i + 1..];
      assert x !in multiset(a[..i]) && x !in multiset(a[i + 1..]);
    }
    forall i, j | 0 <= i < j < |b|
      ensures b[i] != b[j]
    {
      assert b == b[..i] + [b[i]] + b[i + 1..j] + [b[j]] + b[j + 1..];
      assert multiset(b)[b[i]] == 1;
    }
  }

  function Identity(s: string): string { s }

  /** Python's `sorted` on a list of strings. */
  function Sorted(xs: seq<string>): seq<string> { SortBy(Identity, xs) }

  lemma SortedProperties(xs: seq<string>)
    ensures forall i, j :: 0 <= i < j < |Sorted(xs)| ==> StrLe(Sorted(xs)[i], Sorted(xs)[j])
    ensures forall x :: x in Sorted(xs) <==> x in xs
    ensures NoDup(xs) ==> NoDup(Sorted(xs))
  {
    SortByProperties(Identity, xs);
    forall i, j | 0 <= i < j < |Sorted(xs)|
      ensures StrLe(Sorted(xs)[i], Sorted(xs)[j])
    {
      assert StrLe(Identity(Sorted(xs)[i]), Identity(Sorted(xs)[j]));
    }
    forall x
      ensures x in Sorted(xs) <==> x in xs
    {
      SortByMember(Identity, xs, x);
    }
    if NoDup(xs) {
      NoDupMultiset(xs, Sorted(xs));
    }
  }
}
