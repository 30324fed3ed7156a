/**
 * The arithmetic of RebalancedCluster in pkg/controller/clustering/rebalance.go: how the
 * remainder of n/m is spread over the masters that lack slots.
 */
module Remainder {
  import opened Basics
  import opened Nodes

  /** How many of the first k balances are negative. */
  function Deficits(bs: seq<int>, k: nat): nat
    requires k <= |bs|
  {
    if k == 0 then 0 else Deficits(bs, k - 1) + if bs[k - 1] < 0 then 1 else 0
  }

  /** The balances after one sweep of the remainder loop that still has t slots to place. */
  function Pass(bs: seq<int>, t: int): seq<int> {
    seq(|bs|, i requires 0 <= i < |bs| => if bs[i] < 0 && Deficits(bs, i) < t then bs[i] - 1 else bs[i])
  }

  function LeftAfterPass(bs: seq<int>, t: int): int {
    if t <= 0 then t else Max(0, t - Deficits(bs, |bs|))
  }

  /** The share of the remainder r that the i-th master ends up with. */
  function Share(bs: seq<int>, r: nat, i: nat): nat
    requires i < |bs|
  {
    if bs[i] >= 0 then 0
    else
      DeficitCounts(bs, i + 1, |bs|);
      var d := Deficits(bs, |bs|);
      r / d + if Deficits(bs, i) < r % d then 1 else 0
  }

  lemma {:induction false} DeficitCounts(bs: seq<int>, k: nat, l: nat)
    requires k <= l <= |bs|
    ensures Deficits(bs, k) <= Deficits(bs, l)
  {
    if k < l {
      DeficitCounts(bs, k, l - 1);
    }
  }

  /** Sequences with the same signs have the same counts. */
  lemma {:induction false} SameSigns(bs: seq<int>, cs: seq<int>, k: nat)
    requires |bs| == |cs| && k <= |bs|
    requires forall i :: 0 <= i < |bs| ==> (bs[i] < 0 <==> cs[i] < 0)
    ensures Deficits(bs, k) == Deficits(cs, k)
  {
    if k > 0 {
      SameSigns(bs, cs, k - 1);
    }
  }

  lemma {:induction false} NoDeficits(bs: seq<int>, k: nat)
    requires k <= |bs|
    ensures Deficits(bs, k) == 0 <==> forall i :: 0 <= i < k ==> bs[i] >= 0
  {
    if k > 0 {
      NoDeficits(bs, k - 1);
    }
  }

  lemma MulGrows(x: int, d: int)
    requires d >= 0
    ensures x >= 1 ==> x * d >= d
    ensures x <= -1 ==> x * d <= -d
  {
    if x >= 1 {
      assert x * d == (x - 1) * d + d;
    } else if x <= -1 {
      assert x * d == (x + 1) * d - d;
    }
  }

  lemma DivMod(t: nat, d: nat)
    requires d > 0
    ensures t == d * (t / d) + t % d && Min(d, t % d) == t % d
  {
  }

  lemma DivisionIs(t: nat, d: nat, p: nat, rest: nat)
    requires d > 0 && t == p * d + rest && rest < d
    ensures t / d == p && t % d == rest
  {
    var q := t / d;
    assert t == q * d + t % d;
    assert (q - p) * d == q * d - p * d;
    MulGrows(q - p, d);
  }

  // ---------- when the loop ends ----------

  function Iterate(bs: seq<int>, t: int, k: nat): (r: (seq<int>, int))
    ensures |r.0| == |bs|
  {
    if k == 0 then (bs, t)
    else
      var (cs, u) := Iterate(bs, t, k - 1);
      if u > 0 then (Pass(cs, u), LeftAfterPass(cs, u)) else (cs, u)
  }

  lemma {:induction false} IterateMakesProgress(bs: seq<int>, t: int, k: nat)
    requires Deficits(bs, |bs|) > 0
    ensures Iterate(bs, t, k).1 <= Max(0, t - k)
    ensures forall i :: 0 <= i < |bs| ==> (bs[i] < 0 <==> Iterate(bs, t, k).0[i] < 0)
  {
    if k > 0 {
      IterateMakesProgress(bs, t, k - 1);
      SameSigns(bs, Iterate(bs, t, k - 1).0, |bs|);
    }
  }

  lemma {:induction false} IterateStuck(bs: seq<int>, t: int, k: nat)
    requires Deficits(bs, |bs|) == 0
    ensures Iterate(bs, t, k) == (bs, t)
  {
    if k > 0 {
      IterateStuck(bs, t, k - 1);
      NoDeficits(bs, |bs|);
      assert Pass(bs, t) == bs;
    }
  }

  /** The remainder loop ends exactly when nothing is left to place or some master lacks slots. */
  lemma RemainderLoopEndsExactly(bs: seq<int>, t: int)
    ensures (exists k: nat :: Iterate(bs, t, k).1 <= 0) <==> t <= 0 || exists i :: 0 <= i < |bs| && bs[i] < 0
  {
    NoDeficits(bs, |bs|);
    if t <= 0 {
      assert Iterate(bs, t, 0).1 <= 0;
    } else if Deficits(bs, |bs|) > 0 {
      IterateMakesProgress(bs, t, t);
      assert Iterate(bs, t, t).1 <= 0;
    } else {
      forall k: nat ensures Iterate(bs, t, k).1 > 0 {
        IterateStuck(bs, t, k);
      }
    }
  }

  // ---------- the loop ----------

  ghost predicate HasBalances(ns: seq<Node>, bs: seq<int>)
    reads ns
  {
    |bs| == |ns| && forall i :: 0 <= i < |ns| ==> ns[i].balance == bs[i]
  }

  /** The balances and the slots left after the first k masters of a sweep. */
  function Swept(bs: seq<int>, t: int, k: nat): (r: (seq<int>, int))
    requires k <= |bs|
    ensures |r.0| == |bs|
  {
    if k == 0 then (bs, t)
    else
      var (cs, left) := Swept(bs, t, k - 1);
      if cs[k - 1] < 0 && left > 0 then (cs[k - 1 := cs[k - 1] - 1], left - 1) else (cs, left)
  }

  lemma {:induction false} SweptIsPass(bs: seq<int>, t: int, k: nat)
    requires k <= |bs| && t > 0
    ensures Swept(bs, t, k).1 == Max(0, t - Deficits(bs, k))
    ensures Swept(bs, t, k).0 == Pass(bs, t)[..k] + bs[k..]
  {
    if k > 0 {
      SweptIsPass(bs, t, k - 1);
      assert Pass(bs, t)[..k] == Pass(bs, t)[..k - 1] + [Pass(bs, t)[k - 1]];
      assert bs[k - 1..] == [bs[k - 1]] + bs[k..];
    }
  }

  method Sweep(ns: seq<Node>, total: int, ghost bs: seq<int>) returns (left: int)
    requires NoDup(ns) && HasBalances(ns, bs) && total > 0
    modifies ns`balance
    ensures HasBalances(ns, Pass(bs, total))
    ensures left == LeftAfterPass(bs, total)
  {
    left := total;
    for i := 0 to |ns|
      invariant HasBalances(ns, Swept(bs, total, i).0) && left == Swept(bs, total, i).1
    {
      if ns[i].balance < 0 && left > 0 {
        ns[i].balance := ns[i].balance - 1;
        left := left - 1;
      }
    }
    SweptIsPass(bs, total, |bs|);
    assert Pass(bs, total)[..|bs|] + bs[|bs|..] == Pass(bs, total);
  }

  /** The balances once the whole of r has been placed. */
  ghost function Spread(bs: seq<int>, r: nat): seq<int> {
    seq(|bs|, i requires 0 <= i < |bs| => bs[i] - Share(bs, r, i))
  }

  /** p full sweeps have been made and t is still to be placed. */
  ghost predicate AfterFullSweeps(bs: seq<int>, cs: seq<int>, r: nat, p: nat, t: nat) {
    && |cs| == |bs| && p * Deficits(bs, |bs|) + t == r
    && forall i :: 0 <= i < |bs| ==> cs[i] == if bs[i] < 0 then bs[i] - p else bs[i]
  }

  lemma CountsAfterSweeps(bs: seq<int>, cs: seq<int>, r: nat, p: nat, t: nat, i: nat)
    requires AfterFullSweeps(bs, cs, r, p, t) && i <= |bs|
    ensures Deficits(cs, i) == Deficits(bs, i) <= Deficits(bs, |bs|)
    ensures i < |bs| && bs[i] < 0 ==> Deficits(bs, i) < Deficits(bs, |bs|)
  {
    SameSigns(bs, cs, i);
    DeficitCounts(bs, i, |bs|);
    if i < |bs| && bs[i] < 0 {
      DeficitCounts(bs, i + 1, |bs|);
    }
  }

  lemma FullSweep(bs: seq<int>, cs: seq<int>, r: nat, p: nat, t: nat)
    requires AfterFullSweeps(bs, cs, r, p, t) && t > 0 && t >= Deficits(bs, |bs|)
    ensures LeftAfterPass(cs, t) >= 0 && AfterFullSweeps(bs, Pass(cs, t), r, p + 1, LeftAfterPass(cs, t))
  {
    var d := Deficits(bs, |bs|);
    CountsAfterSweeps(bs, cs, r, p, t, |bs|);
    assert (p + 1) * d == p * d + d;
    forall i | 0 <= i < |bs| ensures Pass(cs, t)[i] == if bs[i] < 0 then bs[i] - (p + 1) else bs[i] {
      CountsAfterSweeps(bs, cs, r, p, t, i);
    }
  }

  lemma LastSweep(bs: seq<int>, cs: seq<int>, r: nat, p: nat, t: nat)
    requires AfterFullSweeps(bs, cs, r, p, t) && 0 < t < Deficits(bs, |bs|)
    ensures LeftAfterPass(cs, t) == 0 && Pass(cs, t) == Spread(bs, r)
  {
    DivisionIs(r, Deficits(bs, |bs|), p, t);
    CountsAfterSweeps(bs, cs, r, p, t, |bs|);
    forall i | 0 <= i < |bs| ensures Pass(cs, t)[i] == Spread(bs, r)[i] {
      CountsAfterSweeps(bs, cs, r, p, t, i);
    }
  }

  lemma NothingLeft(bs: seq<int>, cs: seq<int>, r: nat, p: nat)
    requires AfterFullSweeps(bs, cs, r, p, 0) && (r > 0 ==> Deficits(bs, |bs|) > 0)
    ensures cs == Spread(bs, r)
  {
    var d := Deficits(bs, |bs|);
    if d > 0 {
      DivisionIs(r, d, p, 0);
    } else {
      NoDeficits(bs, |bs|);
    }
    forall i | 0 <= i < |bs| ensures cs[i] == Spread(bs, r)[i] {
      if bs[i] < 0 {
        NoDeficits(bs, |bs|);
      }
    }
  }

  lemma NextSweep(bs: seq<int>, cs: seq<int>, r: nat, p: nat, t: nat)
    requires AfterFullSweeps(bs, cs, r, p, t) && t > 0 && Deficits(bs, |bs|) > 0
    ensures if LeftAfterPass(cs, t) > 0 then AfterFullSweeps(bs, Pass(cs, t), r, p + 1, LeftAfterPass(cs, t))
      else LeftAfterPass(cs, t) == 0 && Pass(cs, t) == Spread(bs, r)
  {
    if t >= Deficits(bs, |bs|) {
      FullSweep(bs, cs, r, p, t);
      if LeftAfterPass(cs, t) == 0 {
        NothingLeft(bs, Pass(cs, t), r, p + 1);
      }
    } else {
      LastSweep(bs, cs, r, p, t);
    }
  }

  /** While slots are left only full sweeps have been made; afterwards all of t is placed. */
  ghost predicate SpreadSoFar(bs: seq<int>, t: int, cs: seq<int>, u: int, k: nat) {
    if u > 0 then t > 0 && AfterFullSweeps(bs, cs, t, k, u) else cs == Spread(bs, Max(0, t))
  }

  lemma SpreadFurther(bs: seq<int>, t: nat, cs: seq<int>, u: int, k: nat)
    requires t > 0 && Deficits(bs, |bs|) > 0 && SpreadSoFar(bs, t, cs, u, k) && u > 0
    ensures SpreadSoFar(bs, t, Pass(cs, u), LeftAfterPass(cs, u), k + 1)
  {
    NextSweep(bs, cs, t, k, u);
  }

  lemma {:induction false} IterateSpreads(bs: seq<int>, t: int, k: nat)
    requires t > 0 ==> Deficits(bs, |bs|) > 0
    ensures SpreadSoFar(bs, t, Iterate(bs, t, k).0, Iterate(bs, t, k).1, k)
  {
    if t <= 0 {
      IterateIdle(bs, t, k);
      SpreadNothing(bs);
    } else if k > 0 {
      IterateSpreads(bs, t, k - 1);
      var (cs, u) := Iterate(bs, t, k - 1);
      if u > 0 {
        SpreadFurther(bs, t, cs, u, k - 1);
      }
    }
  }

  lemma {:induction false} IterateIdle(bs: seq<int>, t: int, k: nat)
    requires t <= 0
    ensures Iterate(bs, t, k) == (bs, t)
  {
    if k > 0 {
      IterateIdle(bs, t, k - 1);
    }
  }

  lemma SpreadNothing(bs: seq<int>)
    ensures Spread(bs, 0) == bs
  {
    forall i | 0 <= i < |bs| ensures Share(bs, 0, i) == 0 {
      if bs[i] < 0 {
        DeficitCounts(bs, i + 1, |bs|);
        DivisionIs(0, Deficits(bs, |bs|), 0, 0);
      }
    }
  }

  lemma IterateStep(bs: seq<int>, t: int, k: nat)
    requires exists i :: 0 <= i < |bs| && bs[i] < 0
    ensures var (cs, u) := Iterate(bs, t, k);
      u > 0 ==> Iterate(bs, t, k + 1) == (Pass(cs, u), LeftAfterPass(cs, u)) && LeftAfterPass(cs, u) < u <= t
  {
    NoDeficits(bs, |bs|);
    IterateMakesProgress(bs, t, k);
    SameSigns(bs, Iterate(bs, t, k).0, |bs|);
  }

  lemma SpreadAtLast(bs: seq<int>, t: int, k: nat)
    requires t > 0 ==> exists i :: 0 <= i < |bs| && bs[i] < 0
    requires Iterate(bs, t, k).1 <= 0
    ensures Iterate(bs, t, k).0 == Spread(bs, Max(0, t))
  {
    NoDeficits(bs, |bs|);
    IterateSpreads(bs, t, k);
  }

  /** rebalance.go lines 24 to 32. */
  method SpreadRemainder(ns: seq<Node>, total: int, ghost bs: seq<int>)
    requires NoDup(ns) && HasBalances(ns, bs)
    requires total > 0 ==> exists i :: 0 <= i < |bs| && bs[i] < 0
    modifies ns`balance
    ensures HasBalances(ns, Spread(bs, Max(0, total)))
  {
    var left := total;
    ghost var k, cs := 0, bs;
    while left > 0
      invariant (cs, left) == Iterate(bs, total, k) && HasBalances(ns, cs)
    {
      IterateStep(bs, total, k);
      ghost var next := Pass(cs, left);
      left := Sweep(ns, left, cs);
      k, cs := k + 1, next;
    }
    SpreadAtLast(bs, total, k);
  }

  // ---------- what the shares add up to ----------

  /** Every negative balance of bs has gone down by q in cs, the first m of them by one more. */
  ghost predicate SpreadBy(bs: seq<int>, cs: seq<int>, q: nat, m: nat) {
    |cs| == |bs| && forall i :: 0 <= i < |bs| ==> cs[i] == bs[i] - ShareBy(bs, i, q, m)
  }

  ghost function ShareBy(bs: seq<int>, i: nat, q: nat, m: nat): nat
    requires i < |bs|
  {
    if bs[i] >= 0 then 0 else q + if Deficits(bs, i) < m then 1 else 0
  }

  /** What the first k balances lose. */
  ghost function Taken(bs: seq<int>, k: nat, q: nat, m: nat): nat
    requires k <= |bs|
  {
    if k == 0 then 0 else Taken(bs, k - 1, q, m) + ShareBy(bs, k - 1, q, m)
  }

  lemma {:induction false} SharesUpTo(bs: seq<int>, cs: seq<int>, k: nat, q: nat, m: nat)
    requires SpreadBy(bs, cs, q, m) && k <= |bs|
    ensures Sum(cs[..k]) == Sum(bs[..k]) - Taken(bs, k, q, m)
  {
    if k > 0 {
      SharesUpTo(bs, cs, k - 1, q, m);
      SumUpTo(bs, k - 1);
      SumUpTo(cs, k - 1);
    }
  }

  lemma SumUpTo(s: seq<int>, i: nat)
    requires i < |s|
    ensures Sum(s[..i + 1]) == Sum(s[..i]) + s[i]
  {
    assert s[..i + 1] == s[..i] + [s[i]];
    SumSnoc(s[..i], s[i]);
  }

  lemma {:induction false} TakenIs(bs: seq<int>, k: nat, q: nat, m: nat)
    requires k <= |bs|
    ensures Taken(bs, k, q, m) == Deficits(bs, k) * q + Min(Deficits(bs, k), m)
  {
    if k > 0 {
      TakenIs(bs, k - 1, q, m);
      if bs[k - 1] < 0 {
        MulSucc(Deficits(bs, k - 1), q);
      }
    }
  }

  lemma MulSucc(d: nat, q: nat)
    ensures (d + 1) * q == d * q + q
  {
  }

  lemma SharesInAll(bs: seq<int>, r: nat)
    requires Deficits(bs, |bs|) > 0
    ensures Sum(Spread(bs, r)) == Sum(bs) - r
  {
    var d := Deficits(bs, |bs|);
    SharesUpTo(bs, Spread(bs, r), |bs|, r / d, r % d);
    TakenIs(bs, |bs|, r / d, r % d);
    assert bs[..|bs|] == bs && Spread(bs, r)[..|bs|] == Spread(bs, r);
    DivMod(r, d);
  }

  /** Spreading r lowers the sum of the balances by exactly r. */
  lemma SpreadSum(bs: seq<int>, r: nat)
    requires r > 0 ==> exists i :: 0 <= i < |bs| && bs[i] < 0
    ensures Sum(Spread(bs, r)) == Sum(bs) - r
  {
    NoDeficits(bs, |bs|);
    if Deficits(bs, |bs|) > 0 {
      SharesInAll(bs, r);
    } else {
      assert Spread(bs, r) == bs;
    }
  }
}
