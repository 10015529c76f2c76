/** Generic facts about sequences used by the statistics model:
    duplicate-freedom, filtering and first occurrences. */
module Seqs {

  /** No value occurs twice in `s`. */
  predicate NoDuplicates<T(==)>(s: seq<T>) {
    forall i, j :: 0 <= i < j < |s| ==> s[i] != s[j]
  }

  /** Duplicate-freedom is a property of the multiset of elements only. */
  lemma {:induction false} NoDuplicatesMultiset<T>(s: seq<T>)
    ensures NoDuplicates(s) <==> forall v :: multiset(s)[v] <= 1
  {
    if |s| > 0 {
      NoDuplicatesMultiset(s[1..]);
      assert s == [s[0]] + s[1..];
      assert multiset(s) == multiset{s[0]} + multiset(s[1..]);
      if NoDuplicates(s) {
        assert NoDuplicates(s[1..]) by {
          forall i, j | 0 <= i < j < |s[1..]| ensures s[1..][i] != s[1..][j] {
            assert s[1..][i] == s[i + 1] && s[1..][j] == s[j + 1];
          }
        }
        assert s[0] !in s[1..];
      } else {
        var i, j :| 0 <= i < j < |s| && s[i] == s[j];
        if i == 0 {
          assert s[1..][j - 1] == s[0];
          assert multiset(s)[s[0]] >= 2;
        } else {
          assert s[1..][i - 1] == s[1..][j - 1];
          assert !NoDuplicates(s[1..]);
          var v :| multiset(s[1..])[v] > 1;
          assert multiset(s)[v] > 1;
        }
      }
    }
  }

  /** Two arrangements of the same multiset agree on duplicate-freedom. */
  lemma NoDuplicatesPermutation<T>(a: seq<T>, b: seq<T>)
    requires multiset(a) == multiset(b)
    requires NoDuplicates(a)
    ensures NoDuplicates(b)
  {
    NoDuplicatesMultiset(a);
    NoDuplicatesMultiset(b);
  }

  /** The elements of `s` that satisfy `keep`, in their original order. */
  function Filter<T(!new)>(keep: T -> bool, s: seq<T>): (r: seq<T>)
    ensures |r| <= |s|
    ensures forall x :: x in r <==> x in s && keep(x)
    ensures multiset(r) <= multiset(s)
  {
    if |s| == 0 then []
    else
      assert s == [s[0]] + s[1..];
      if keep(s[0]) then [s[0]] + Filter(keep, s[1..]) else Filter(keep, s[1..])
  }

  /** Filtering keeps every pairwise relation that held between earlier
      and later elements of the input. */
  lemma {:induction false} FilterPairwise<T(!new)>(keep: T -> bool, s: seq<T>, before: (T, T) -> bool)
    requires forall i, j :: 0 <= i < j < |s| ==> before(s[i], s[j])
    ensures forall i, j :: 0 <= i < j < |Filter(keep, s)| ==>
      before(Filter(keep, s)[i], Filter(keep, s)[j])
  {
    if |s| > 0 {
      var rest := Filter(keep, s[1..]);
      assert forall i, j :: 0 <= i < j < |s[1..]| ==> before(s[1..][i], s[1..][j]) by {
        forall i, j | 0 <= i < j < |s[1..]| ensures before(s[1..][i], s[1..][j]) {
          assert s[1..][i] == s[i + 1] && s[1..][j] == s[j + 1];
        }
      }
      FilterPairwise(keep, s[1..], before);
      if keep(s[0]) {
        var r := [s[0]] + rest;
        forall i, j | 0 <= i < j < |r| ensures before(r[i], r[j]) {
          if i == 0 {
            assert r[j] in s[1..];
            var k :| 0 <= k < |s[1..]| && s[1..][k] == r[j];
            assert s[k + 1] == r[j];
          } else {
            assert r[i] == rest[i - 1] && r[j] == rest[j - 1];
          }
        }
      }
    }
  }

  /** Filtering keeps a sequence free of duplicates. */
  lemma FilterKeepsDistinct<T(!new)>(keep: T -> bool, s: seq<T>)
    requires NoDuplicates(s)
    ensures NoDuplicates(Filter(keep, s))
  {
    FilterPairwise(keep, s, (a, b) => a != b);
  }

  /** Filtering by a predicate and by its complement splits the input's
      multiset in two. */
  lemma {:induction false} FilterSplit<T(!new)>(keep: T -> bool, drop: T -> bool, s: seq<T>)
    requires forall x :: drop(x) == !keep(x)
    ensures multiset(Filter(keep, s)) + multiset(Filter(drop, s)) == multiset(s)
  {
    if |s| > 0 {
      FilterSplit(keep, drop, s[1..]);
      assert s == [s[0]] + s[1..];
    }
  }

  /** Sequences with the same members are empty together. */
  lemma SameMembersEmpty<T>(a: seq<T>, b: seq<T>)
    requires forall v :: v in a <==> v in b
    ensures |a| == 0 <==> |b| == 0
  {
    if |a| > 0 {
      var x := a[0];
      assert x in a;
    }
    if |b| > 0 {
      var y := b[0];
      assert y in b;
    }
  }

  /** A sequence of copies of `v` counts `v` once per element. */
  lemma {:induction false} CountAllEqual<T>(s: seq<T>, v: T)
    requires forall i :: 0 <= i < |s| ==> s[i] == v
    ensures multiset(s)[v] == |s|
  {
    if |s| > 0 {
      CountAllEqual(s[1..], v);
      assert s == [s[0]] + s[1..];
    }
  }

  /** A duplicate-free sequence of copies of one value has at most one
      element. */
  lemma AllEqualNoDuplicates<T>(s: seq<T>, v: T)
    requires NoDuplicates(s)
    requires forall i :: 0 <= i < |s| ==> s[i] == v
    ensures |s| <= 1
  {
    NoDuplicatesMultiset(s);
    CountAllEqual(s, v);
  }

  /** Elementwise application of `f`. */
  function Map<T, U>(f: T -> U, s: seq<T>): (r: seq<U>)
    ensures |r| == |s|
    ensures forall i :: 0 <= i < |s| ==> r[i] == f(s[i])
  {
    if |s| == 0 then [] else [f(s[0])] + Map(f, s[1..])
  }

  /** The position of the first occurrence of `v` in `s`. */
  function FirstIndex<T(==)>(s: seq<T>, v: T): (k: nat)
    requires v in s
    ensures k < |s| && s[k] == v
    ensures v !in s[..k]
  {
    if s[0] == v then 0
    else
      var k := 1 + FirstIndex(s[1..], v);
      assert s[..k] == [s[0]] + s[1..][..k - 1];
      k
  }

  /** In a sequence without duplicates, an element's first occurrence is
      its only one. */
  lemma FirstIndexOfDistinct<T>(s: seq<T>, i: int)
    requires NoDuplicates(s) && 0 <= i < |s|
    ensures FirstIndex(s, s[i]) == i
  {
  }

  /** A value already present in a prefix has its first occurrence there. */
  lemma FirstIndexPrefix<T>(s: seq<T>, n: nat, v: T)
    requires n <= |s| && v in s[..n]
    ensures FirstIndex(s, v) == FirstIndex(s[..n], v)
  {
  }
}
