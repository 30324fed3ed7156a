/**
 * The arithmetic of buildSlotByNodeFromAvailableSlots in
 * pkg/controller/clustering/migration.go: free slots are dealt to the new masters one after
 * the other, each until it lists perNode slots.
 */
module Filling {
  import opened Basics
  import opened SlotLists

  /** The master being filled, what each has been given, and whether the last was over-filled. */
  datatype Filled = Filled(idNode: nat, adds: seq<seq<Slot>>, over: bool)

  /**
   * The next slot goes to the current master or, if that lists enough, to the one after it;
   * base[i] is the number of slots master i lists at the start, including those it will lose.
   */
  function FillStep(base: seq<nat>, perNode: nat, f: Filled, slot: Slot): (g: Filled)
    requires f.idNode < |base| == |f.adds|
    ensures g.idNode < |base| == |g.adds|
  {
    var full := base[f.idNode] + |f.adds[f.idNode]| >= perNode;
    var next := if full && f.idNode + 1 < |base| then f.idNode + 1 else f.idNode;
    Filled(next, f.adds[next := f.adds[next] + [slot]], f.over || (full && f.idNode + 1 == |base|))
  }

  /** The state after dealing all of free. */
  function Fill(base: seq<nat>, perNode: nat, free: seq<Slot>): (f: Filled)
    requires base != []
    ensures f.idNode < |base| && |f.adds| == |base|
  {
    if free == [] then Filled(0, seq(|base|, _ => []), false)
    else FillStep(base, perNode, Fill(base, perNode, free[..|free| - 1]), free[|free| - 1])
  }

  function FillFrom(base: seq<nat>, perNode: nat, f: Filled, slots: seq<Slot>): (g: Filled)
    requires f.idNode < |base| == |f.adds|
    ensures g.idNode < |base| == |g.adds|
  {
    if slots == [] then f
    else FillStep(base, perNode, FillFrom(base, perNode, f, slots[..|slots| - 1]), slots[|slots| - 1])
  }

  lemma {:induction false} FillMore(base: seq<nat>, perNode: nat, done: seq<Slot>, slots: seq<Slot>)
    requires base != []
    ensures Fill(base, perNode, done + slots) == FillFrom(base, perNode, Fill(base, perNode, done), slots)
  {
    if slots == [] {
      assert done + slots == done;
    } else {
      var m := |slots| - 1;
      FillMore(base, perNode, done, slots[..m]);
      assert (done + slots)[..|done| + m] == done + slots[..m];
    }
  }

  // ---------- nothing is lost, nothing dealt twice ----------

  lemma {:induction false} FlattenAppend(ss: seq<seq<Slot>>, k: nat, slot: Slot)
    requires k < |ss| && forall i :: k < i < |ss| ==> ss[i] == []
    ensures Flatten(ss[k := ss[k] + [slot]]) == Flatten(ss) + [slot]
  {
    var m := |ss| - 1;
    var tt := ss[k := ss[k] + [slot]];
    if k == m {
      assert tt[..m] == ss[..m];
      assert Flatten(tt) == Flatten(ss[..m]) + (ss[k] + [slot]);
    } else {
      FlattenAppend(ss[..m], k, slot);
      assert tt[..m] == ss[..m][k := ss[..m][k] + [slot]];
      assert tt[m] == [] && ss[m] == [];
    }
  }

  lemma {:induction false} FlattenEmpty(ss: seq<seq<Slot>>)
    requires forall i :: 0 <= i < |ss| ==> ss[i] == []
    ensures Flatten(ss) == []
  {
    if ss != [] {
      FlattenEmpty(ss[..|ss| - 1]);
    }
  }

  /** The shares, read in order, are the free slots in the order they were dealt. */
  lemma {:induction false} FillDealsAll(base: seq<nat>, perNode: nat, free: seq<Slot>)
    requires base != []
    ensures var f := Fill(base, perNode, free);
      Flatten(f.adds) == free && forall i :: f.idNode < i < |base| ==> f.adds[i] == []
  {
    if free == [] {
      FlattenEmpty(Fill(base, perNode, free).adds);
    } else {
      var m := |free| - 1;
      FillDealsAll(base, perNode, free[..m]);
      var f := Fill(base, perNode, free[..m]);
      FlattenAppend(f.adds, Fill(base, perNode, free).idNode, free[m]);
      assert free == free[..m] + [free[m]];
    }
  }

  // ---------- how full the masters get ----------

  /** How many slots master i keeps, and what it ends up with. */
  function Kept(base: seq<nat>, perNode: nat, i: nat): nat
    requires i < |base|
  {
    if base[i] <= perNode then base[i] else perNode
  }

  function FinalCounts(base: seq<nat>, perNode: nat, adds: seq<seq<Slot>>): (r: seq<int>)
    requires |adds| == |base|
    ensures |r| == |base|
  {
    seq(|base|, i requires 0 <= i < |base| => Kept(base, perNode, i) + |adds[i]|)
  }

  function KeptCounts(base: seq<nat>, perNode: nat): (r: seq<int>)
    ensures |r| == |base|
  {
    seq(|base|, i requires 0 <= i < |base| => Kept(base, perNode, i))
  }

  ghost predicate WithinBounds(base: seq<nat>, perNode: nat, f: Filled)
    requires |f.adds| == |base|
  {
    && (forall i :: 0 <= i < f.idNode && i < |base| ==> FinalCounts(base, perNode, f.adds)[i] >= perNode)
    && (forall i :: 0 <= i < |base| ==> FinalCounts(base, perNode, f.adds)[i] <= if i == 0 then perNode else perNode + 1)
    && (forall i :: f.idNode < i < |base| ==> f.adds[i] == [])
  }

  lemma {:induction false} FillWithinBounds(base: seq<nat>, perNode: nat, free: seq<Slot>)
    requires base != [] && !Fill(base, perNode, free).over
    ensures WithinBounds(base, perNode, Fill(base, perNode, free))
  {
    if free != [] {
      var m := |free| - 1;
      FillWithinBounds(base, perNode, free[..m]);
      FillStepBounds(base, perNode, Fill(base, perNode, free[..m]), free[m]);
    }
  }

  lemma FillStepBounds(base: seq<nat>, perNode: nat, f: Filled, slot: Slot)
    requires f.idNode < |base| == |f.adds| && WithinBounds(base, perNode, f)
    requires !FillStep(base, perNode, f, slot).over
    ensures WithinBounds(base, perNode, FillStep(base, perNode, f, slot))
  {
    var g := FillStep(base, perNode, f, slot);
    forall i | 0 <= i < |base| && i != g.idNode
      ensures FinalCounts(base, perNode, g.adds)[i] == FinalCounts(base, perNode, f.adds)[i]
    {
    }
    assert FinalCounts(base, perNode, g.adds)[g.idNode] == FinalCounts(base, perNode, f.adds)[g.idNode] + 1;
    if g.idNode != f.idNode {
      assert FinalCounts(base, perNode, f.adds)[f.idNode] >= perNode;
    }
  }

  lemma {:induction false} FinalSum(base: seq<nat>, perNode: nat, adds: seq<seq<Slot>>)
    requires |adds| == |base|
    ensures Sum(FinalCounts(base, perNode, adds)) == Sum(KeptCounts(base, perNode)) + |Flatten(adds)|
  {
    if base != [] {
      var m := |base| - 1;
      FinalSum(base[..m], perNode, adds[..m]);
      assert FinalCounts(base, perNode, adds)[..m] == FinalCounts(base[..m], perNode, adds[..m]);
      assert KeptCounts(base, perNode)[..m] == KeptCounts(base[..m], perNode);
    }
  }

  /** If there is room for all slots, the last master is never over-filled. */
  lemma {:induction false} NeverOverfilled(base: seq<nat>, perNode: nat, free: seq<Slot>)
    requires base != [] && Sum(KeptCounts(base, perNode)) + |free| <= |base| * perNode
    ensures !Fill(base, perNode, free).over
  {
    if free != [] {
      var m := |free| - 1;
      NeverOverfilled(base, perNode, free[..m]);
      var f := Fill(base, perNode, free[..m]);
      if f.idNode + 1 == |base| && base[f.idNode] + |f.adds[f.idNode]| >= perNode {
        FillWithinBounds(base, perNode, free[..m]);
        FillDealsAll(base, perNode, free[..m]);
        FinalSum(base, perNode, f.adds);
        var full := seq(|base|, _ => perNode);
        SumConst(full, perNode);
        SumMonotone(full, FinalCounts(base, perNode, f.adds));
        assert false;
      }
    }
  }

  // ---------- the balance bound ----------

  function CeilDiv(n: nat, k: nat): nat
    requires k > 0
  {
    (n + k - 1) / k
  }

  lemma CeilDivIs(n: nat, k: nat)
    requires k > 0
    ensures n <= k * CeilDiv(n, k) <= n + k - 1
    ensures n > 0 ==> CeilDiv(n, k) >= 1
  {
    var c := CeilDiv(n, k);
    assert n + k - 1 == k * c + (n + k - 1) % k;
  }

  /** All counts but the j-th are at most hi, so the j-th makes up for the rest. */
  lemma OthersAtMost(counts: seq<int>, j: nat, hi: int)
    requires j < |counts| && forall i :: 0 <= i < |counts| && i != j ==> counts[i] <= hi
    ensures counts[j] >= Sum(counts) - (|counts| - 1) * hi
  {
    var top := seq(|counts|, _ => hi)[j := counts[j]];
    SumMonotone(counts, top);
    SumConst(seq(|counts|, _ => hi), hi);
    SumUpdate(seq(|counts|, _ => hi), j, counts[j]);
    assert |counts| * hi == (|counts| - 1) * hi + hi;
  }

  lemma EnoughForTheFirst(k: int, c: int, n: int, x: int)
    requires k >= 2 && k * c <= n + k - 1 && x >= n - (k - 1) * c
    ensures x >= c - 2 * k + 3
  {
    assert (k - 1) * c == k * c - c;
  }

  lemma EnoughForTheOthers(k: int, c: int, n: int, x: int)
    requires k >= 2 && k * c <= n + k - 1 && x >= n + 1 - (k - 1) * (c + 1)
    ensures x >= c - 2 * k + 3
  {
    assert (k - 1) * (c + 1) == k * c - c + k - 1;
  }

  /** With k >= 2 new masters and c slots per node every one ends between c - 2k + 3 and c + 1. */
  lemma BalanceBound(base: seq<nat>, n: nat, c: nat, free: seq<Slot>, j: nat)
    requires |base| >= 2 && j < |base| && n > 0 && c == CeilDiv(n, |base|)
    requires Sum(KeptCounts(base, c)) + |free| == n
    ensures !Fill(base, c, free).over
    ensures c - 2 * |base| + 3 <= FinalCounts(base, c, Fill(base, c, free).adds)[j] <= c + 1
  {
    var k := |base|;
    CeilDivIs(n, k);
    NeverOverfilled(base, c, free);
    FillWithinBounds(base, c, free);
    FillDealsAll(base, c, free);
    var f := Fill(base, c, free);
    FinalSum(base, c, f.adds);
    LowerBound(base, n, c, f, j);
  }

  lemma LowerBound(base: seq<nat>, n: nat, c: nat, f: Filled, j: nat)
    requires |base| >= 2 && j < |base| == |f.adds| && |base| * c <= n + |base| - 1
    requires WithinBounds(base, c, f) && Sum(FinalCounts(base, c, f.adds)) == n
    ensures FinalCounts(base, c, f.adds)[j] >= c - 2 * |base| + 3
  {
    var k := |base|;
    var counts := FinalCounts(base, c, f.adds);
    if j != 0 {
      var raised := counts[0 := counts[0] + 1];
      SumUpdate(counts, 0, counts[0] + 1);
      OthersAtMost(raised, j, c + 1);
      EnoughForTheOthers(k, c, n, counts[j]);
    } else if f.idNode == 0 {
      OthersAtMost(counts, 0, c);
      EnoughForTheFirst(k, c, n, counts[0]);
    }
  }
}
