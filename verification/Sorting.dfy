/**
 * The sorting the operator delegates to the Go library: a permutation in which no
 * element is less than an earlier one. Nothing is promised about equal elements, so
 * every result that uses it holds for each order the library may leave them in.
 */
module Sorting {
  import opened Basics

  ghost predicate StrictWeakOrder<T(!new)>(less: (T, T) -> bool) {
    && (forall a, b :: less(a, b) ==> !less(b, a))
    && (forall a, b, c :: !less(a, b) && !less(b, c) ==> !less(a, c))
  }

  ghost predicate SortedBy<T>(less: (T, T) -> bool, s: seq<T>) {
    forall i, j :: 0 <= i < j < |s| ==> !less(s[j], s[i])
  }

  lemma InsertSorted<T(!new)>(less: (T, T) -> bool, s: seq<T>, x: T, k: nat)
    requires SortedBy(less, s) && k <= |s|
    requires forall i :: 0 <= i < k ==> !less(x, s[i])
    requires forall i :: k <= i < |s| ==> !less(s[i], x)
    ensures SortedBy(less, s[..k] + [x] + s[k..])
    ensures multiset(s[..k] + [x] + s[k..]) == multiset(s) + multiset{x}
  {
    assert s == s[..k] + s[k..];
    var r := s[..k] + [x] + s[k..];
    forall i, j | 0 <= i < j < |r| ensures !less(r[j], r[i]) {
      assert r[i] == if i < k then s[i] else if i == k then x else s[i - 1];
      assert r[j] == if j < k then s[j] else if j == k then x else s[j - 1];
    }
  }

  lemma GreaterOnes<T(!new)>(less: (T, T) -> bool, s: seq<T>, x: T, k: nat)
    requires StrictWeakOrder(less) && SortedBy(less, s) && k <= |s|
    requires k < |s| ==> less(x, s[k])
    ensures forall i :: k <= i < |s| ==> !less(s[i], x)
  {
    forall i | k <= i < |s| ensures !less(s[i], x) {
      assert !less(s[k], x);
      assert i > k ==> !less(s[i], s[k]);
    }
  }

  method SortByFunc<T(!new)>(s: seq<T>, less: (T, T) -> bool) returns (r: seq<T>)
    requires StrictWeakOrder(less)
    ensures SortedBy(less, r) && multiset(r) == multiset(s)
  {
    r := [];
    for i := 0 to |s|
      invariant SortedBy(less, r) && multiset(r) == multiset(s[..i])
    {
      var k := 0;
      while k < |r| && !less(s[i], r[k])
        invariant k <= |r|
        invariant forall j :: 0 <= j < k ==> !less(s[i], r[j])
      {
        k := k + 1;
      }
      GreaterOnes(less, r, s[i], k);
      InsertSorted(less, r, s[i], k);
      r := r[..k] + [s[i]] + r[k..];
      assert s[..i + 1] == s[..i] + [s[i]];
    }
    assert s[..|s|] == s;
  }

  lemma PermutationKeepsMembers<T>(s: seq<T>, t: seq<T>)
    requires multiset(s) == multiset(t)
    ensures ToSet(s) == ToSet(t) && |s| == |t|
    ensures NoDup(s) ==> NoDup(t)
  {
    assert |multiset(s)| == |multiset(t)|;
    forall x ensures x in s <==> x in t {
      assert x in s <==> x in multiset(s);
      assert x in t <==> x in multiset(t);
    }
    if NoDup(s) {
      forall i, j | 0 <= i < j < |t| ensures t[i] != t[j] {
        NoDupMultiplicity(s, t[i]);
        if t[i] == t[j] {
          DupMultiplicity(t, i, j);
        }
      }
    }
  }

  lemma DupMultiplicity<T>(t: seq<T>, i: nat, j: nat)
    requires i < j < |t| && t[i] == t[j]
    ensures multiset(t)[t[i]] >= 2
  {
    assert t == t[..j] + [t[j]] + t[j + 1..];
    assert t[i] == t[..j][i];
    assert t[i] in multiset(t[..j]);
  }

  lemma {:induction false} NoDupMultiplicity<T>(s: seq<T>, x: T)
    requires NoDup(s)
    ensures multiset(s)[x] <= 1
  {
    if s != [] {
      var m := |s| - 1;
      assert s == s[..m] + [s[m]];
      NoDupMultiplicity(s[..m], x);
      if x == s[m] {
        assert x !in s[..m];
      }
    }
  }

  ghost predicate TotalOrder<T(!new)>(less: (T, T) -> bool) {
    forall a, b :: a == b || less(a, b) || less(b, a)
  }

  lemma LargestIsLast<T(!new)>(less: (T, T) -> bool, s: seq<T>, t: seq<T>)
    requires TotalOrder(less) && s != [] && |s| == |t| && ToSet(s) == ToSet(t) && SortedBy(less, s) && SortedBy(less, t)
    ensures s[|s| - 1] == t[|t| - 1]
  {
    var m := |s| - 1;
    assert s[m] in ToSet(t) && t[m] in ToSet(s);
    var i :| 0 <= i < |t| && t[i] == s[m];
    var j :| 0 <= j < |s| && s[j] == t[m];
  }

  lemma LastDropped<T(!new)>(less: (T, T) -> bool, s: seq<T>, t: seq<T>)
    requires TotalOrder(less) && SortedBy(less, s) && SortedBy(less, t) && multiset(s) == multiset(t) && s != []
    ensures |s| == |t| && s[|s| - 1] == t[|t| - 1]
    ensures multiset(s[..|s| - 1]) == multiset(t[..|t| - 1])
    ensures SortedBy(less, s[..|s| - 1]) && SortedBy(less, t[..|t| - 1])
  {
    PermutationKeepsMembers(s, t);
    LargestIsLast(less, s, t);
    DropLast(s);
    DropLast(t);
  }

  /** A total order leaves the library no choice: the sorted list is unique. */
  lemma {:induction false} SortedListIsUnique<T(!new)>(less: (T, T) -> bool, s: seq<T>, t: seq<T>)
    requires TotalOrder(less) && SortedBy(less, s) && SortedBy(less, t) && multiset(s) == multiset(t)
    ensures s == t
  {
    PermutationKeepsMembers(s, t);
    if s != [] {
      var m := |s| - 1;
      LastDropped(less, s, t);
      SortedListIsUnique(less, s[..m], t[..m]);
      assert s == s[..m] + [s[m]] && t == t[..m] + [t[m]];
    }
  }

  lemma DropLast<T>(s: seq<T>)
    requires s != []
    ensures multiset(s[..|s| - 1]) == multiset(s) - multiset{s[|s| - 1]}
  {
    assert s == s[..|s| - 1] + [s[|s| - 1]];
  }

  lemma DropAt<T>(s: seq<T>, k: nat)
    requires k < |s|
    ensures multiset(s[..k] + s[k + 1..]) == multiset(s) - multiset{s[k]}
  {
    assert s == s[..k] + ([s[k]] + s[k + 1..]);
  }
}
