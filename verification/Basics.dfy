/** Facts about sequences, sums and finite sets that the other modules share. */
module Basics {

  datatype Option<+T> = None | Some(value: T)

  ghost predicate NoDup<T>(s: seq<T>) {
    forall i, j :: 0 <= i < j < |s| ==> s[i] != s[j]
  }

  ghost function ToSet<T>(s: seq<T>): set<T> {
    set x | x in s
  }

  lemma {:induction false} NoDupCard<T>(s: seq<T>)
    requires NoDup(s)
    ensures |ToSet(s)| == |s|
  {
    if s == [] {
      assert ToSet(s) == {};
    } else {
      NoDupCard(s[1..]);
      assert ToSet(s) == {s[0]} + ToSet(s[1..]);
      assert s[0] !in ToSet(s[1..]);
    }
  }

  lemma NoDupConcat<T>(a: seq<T>, b: seq<T>)
    requires NoDup(a) && NoDup(b)
    requires forall x :: x in a ==> x !in b
    ensures NoDup(a + b)
  {
    forall i, j | 0 <= i < j < |a + b|
      ensures (a + b)[i] != (a + b)[j]
    {
      if i < |a| <= j {
        assert (a + b)[i] in a && (a + b)[j] in b;
      }
    }
  }

  lemma Snoc<T>(s: seq<T>)
    requires s != []
    ensures s == s[..|s| - 1] + [s[|s| - 1]]
  {
  }

  lemma ConcatLast<T>(a: seq<T>, b: seq<T>)
    ensures b == [] ==> a + b == a
    ensures b != [] ==> a + b == (a + b[..|b| - 1]) + [b[|b| - 1]]
  {
  }

  lemma NothingBefore<T>(s: seq<T>)
    ensures [] + s == s
  {
  }

  lemma Associate<T>(a: seq<T>, b: seq<T>, c: seq<T>)
    ensures (a + b) + c == a + (b + c)
  {
  }

  function Min(a: int, b: int): int {
    if a <= b then a else b
  }

  function Max(a: int, b: int): int {
    if a <= b then b else a
  }

  function Abs(a: int): int {
    if a < 0 then -a else a
  }

  /** The sum of a sequence of integers. */
  function Sum(s: seq<int>): int {
    if s == [] then 0 else Sum(s[..|s| - 1]) + s[|s| - 1]
  }

  lemma SumSnoc(s: seq<int>, x: int)
    ensures Sum(s + [x]) == Sum(s) + x
  {
    assert (s + [x])[..|s|] == s;
  }

  lemma {:induction false} SumUpdate(s: seq<int>, i: nat, x: int)
    requires i < |s|
    ensures Sum(s[i := x]) == Sum(s) - s[i] + x
  {
    var m := |s| - 1;
    if i == m {
      assert s[i := x][..m] == s[..m];
    } else {
      SumUpdate(s[..m], i, x);
      assert s[i := x][..m] == s[..m][i := x];
    }
  }

  /** Replacing terms by larger ones cannot lower the sum. */
  lemma {:induction false} SumMonotone(s: seq<int>, t: seq<int>)
    requires |s| == |t|
    requires forall i :: 0 <= i < |s| ==> s[i] <= t[i]
    ensures Sum(s) <= Sum(t)
  {
    if |s| > 0 {
      SumMonotone(s[..|s| - 1], t[..|t| - 1]);
    }
  }

  lemma {:induction false} SumConst(s: seq<int>, c: int)
    requires forall i :: 0 <= i < |s| ==> s[i] == c
    ensures Sum(s) == |s| * c
  {
    if |s| > 0 {
      SumConst(s[..|s| - 1], c);
      assert |s| * c == (|s| - 1) * c + c;
    }
  }

  lemma {:induction false} SumShift(s: seq<int>, t: seq<int>, c: int)
    requires |s| == |t|
    requires forall i :: 0 <= i < |s| ==> t[i] == s[i] - c
    ensures Sum(t) == Sum(s) - |s| * c
  {
    if |s| > 0 {
      var m := |s| - 1;
      SumShift(s[..m], t[..m], c);
      assert |s| * c == m * c + c;
    }
  }

  lemma SumDominates(s: seq<int>, i: nat)
    requires i < |s|
    requires forall j :: 0 <= j < |s| ==> s[j] >= 0
    ensures Sum(s) >= s[i]
  {
    SumMonotone(seq(|s|, _ => 0), s[i := 0]);
    SumConst(seq(|s|, _ => 0), 0);
    SumUpdate(s, i, 0);
  }

  lemma SumDominated(s: seq<int>, i: nat)
    requires i < |s|
    requires forall j :: 0 <= j < |s| ==> s[j] <= 0
    ensures Sum(s) <= s[i]
  {
    SumMonotone(s[i := 0], seq(|s|, _ => 0));
    SumConst(seq(|s|, _ => 0), 0);
    SumUpdate(s, i, 0);
  }

  lemma {:induction false} SumPermutation(s: seq<int>, t: seq<int>)
    requires multiset(s) == multiset(t)
    ensures Sum(s) == Sum(t)
  {
    if s == [] {
      assert |multiset(t)| == 0;
    } else {
      var m, x := |s| - 1, s[|s| - 1];
      assert s == s[..m] + [x];
      assert x in multiset(t);
      var k :| 0 <= k < |t| && t[k] == x;
      var t' := t[..k] + t[k + 1..];
      assert t == t[..k] + [x] + t[k + 1..];
      assert multiset(t) == multiset(t[..k]) + multiset{x} + multiset(t[k + 1..]);
      assert multiset(t') == multiset(t) - multiset{x};
      assert multiset(s[..m]) == multiset(s) - multiset{x};
      SumPermutation(s[..m], t');
      SumRemove(t, k);
    }
  }

  lemma {:induction false} SumConcat(a: seq<int>, b: seq<int>)
    ensures Sum(a + b) == Sum(a) + Sum(b)
  {
    if b == [] {
      assert a + b == a;
    } else {
      var m := |b| - 1;
      SumConcat(a, b[..m]);
      assert (a + b)[..|a| + m] == a + b[..m];
    }
  }

  lemma SumRemove(t: seq<int>, k: nat)
    requires k < |t|
    ensures Sum(t[..k] + t[k + 1..]) == Sum(t) - t[k]
  {
    assert t == t[..k] + ([t[k]] + t[k + 1..]);
    SumConcat(t[..k], [t[k]] + t[k + 1..]);
    SumConcat([t[k]], t[k + 1..]);
    SumConcat(t[..k], t[k + 1..]);
    SumSnoc([], t[k]);
    assert [] + [t[k]] == [t[k]];
  }

  /** The concatenation of a sequence of sequences. */
  ghost function Flatten<T>(ss: seq<seq<T>>): seq<T> {
    if ss == [] then [] else Flatten(ss[..|ss| - 1]) + ss[|ss| - 1]
  }

  lemma {:induction false} FlattenMember<T>(ss: seq<seq<T>>, x: T)
    ensures x in Flatten(ss) <==> exists i :: 0 <= i < |ss| && x in ss[i]
  {
    if ss != [] {
      var m := |ss| - 1;
      FlattenMember(ss[..m], x);
      if i :| 0 <= i < |ss| && x in ss[i] {
        if i < m {
          assert x in ss[..m][i];
        }
      }
    }
  }

  ghost predicate PairwiseDisjoint<T>(ss: seq<seq<T>>) {
    forall i, j, x :: 0 <= i < j < |ss| && x in ss[i] ==> x !in ss[j]
  }

  lemma {:induction false} FlattenNoDup<T>(ss: seq<seq<T>>)
    requires PairwiseDisjoint(ss)
    requires forall i :: 0 <= i < |ss| ==> NoDup(ss[i])
    ensures NoDup(Flatten(ss))
  {
    if ss != [] {
      var m := |ss| - 1;
      FlattenNoDup(ss[..m]);
      forall x | x in Flatten(ss[..m]) ensures x !in ss[m] {
        FlattenMember(ss[..m], x);
      }
      NoDupConcat(Flatten(ss[..m]), ss[m]);
    }
  }

  /** Conversely, a duplicate-free concatenation has disjoint, duplicate-free parts. */
  lemma {:induction false} FlattenNoDupParts<T>(ss: seq<seq<T>>)
    requires NoDup(Flatten(ss))
    ensures PairwiseDisjoint(ss)
    ensures forall i :: 0 <= i < |ss| ==> NoDup(ss[i])
  {
    if ss != [] {
      var m := |ss| - 1;
      var f := Flatten(ss);
      var g := Flatten(ss[..m]);
      assert f == g + ss[m];
      assert forall i :: 0 <= i < |g| ==> f[i] == g[i];
      assert forall i :: 0 <= i < |ss[m]| ==> f[|g| + i] == ss[m][i];
      assert NoDup(g);
      FlattenNoDupParts(ss[..m]);
      forall i, j, x | 0 <= i < j < |ss| && x in ss[i]
        ensures x !in ss[j]
      {
        if j == m {
          FlattenMember(ss[..m], x);
          assert x in ss[..m][i];
        } else {
          assert ss[i] == ss[..m][i] && ss[j] == ss[..m][j];
        }
      }
      forall i | 0 <= i < |ss| ensures NoDup(ss[i]) {
        if i < m {
          assert ss[i] == ss[..m][i];
        }
      }
    }
  }

  lemma {:induction false} FlattenLength<T>(ss: seq<seq<T>>)
    ensures |Flatten(ss)| == Sum(seq(|ss|, i requires 0 <= i < |ss| => |ss[i]|))
  {
    var ls := seq(|ss|, i requires 0 <= i < |ss| => |ss[i]|);
    if ss != [] {
      var m := |ss| - 1;
      FlattenLength(ss[..m]);
      assert ls[..m] == seq(m, i requires 0 <= i < m => |ss[..m][i]|);
    }
  }
}
