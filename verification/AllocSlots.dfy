/**
 * AllocSlots of pkg/controller/clustering/rebalance.go: cutting the slots of a fresh cluster
 * into ranges. The quotients are exact reals here.
 */
module AllocSlots {
  import opened Basics
  import opened SlotLists
  import opened RedisWorld
  import opened Nodes
  import opened AdminClient

  /** utils.Round: half away from zero. */
  function Round(num: real): int {
    if num >= 0.0 then (num + 0.5).Floor else -((-num + 0.5).Floor)
  }

  function SlotsPerNode(n: nat, m: nat): real
    requires m > 0
  {
    n as real / m as real
  }

  /** The ranges given out after i of m masters, and the loop variables. */
  datatype Progress = Progress(ranges: seq<(int, int)>, first: int, cursor: real)

  function AllocUpTo(n: nat, m: nat, i: nat): (p: Progress)
    requires m > 0
    ensures |p.ranges| == i
  {
    if i == 0 then Progress([], 0, 0.0) else AllocOneMore(AllocUpTo(n, m, i - 1), n, m, i - 1)
  }

  function AllocOneMore(p: Progress, n: nat, m: nat, i: nat): (q: Progress)
    requires m > 0
    ensures |q.ranges| == |p.ranges| + 1
  {
    var rounded := Round(p.cursor + SlotsPerNode(n, m) - 1.0);
    var capped := if rounded > n || i == m - 1 then n - 1 else rounded;
    var last := if capped < p.first then p.first else capped;
    Progress(p.ranges + [(p.first, last)], last + 1, p.cursor + SlotsPerNode(n, m))
  }

  /** i * n / m, summed up as the loop does. */
  function Cursor(n: nat, m: nat, i: nat): real
    requires m > 0
  {
    if i == 0 then 0.0 else Cursor(n, m, i - 1) + SlotsPerNode(n, m)
  }

  /** Where the i-th range starts: i * n / m, rounded to the nearest. */
  function Bound(n: nat, m: nat, i: nat): int
    requires m > 0
  {
    (Cursor(n, m, i) + 0.5).Floor
  }

  lemma {:induction false} CursorIs(n: nat, m: nat, i: nat)
    requires m > 0
    ensures Cursor(n, m, i) == i as real * SlotsPerNode(n, m) >= 0.0
  {
    var x := SlotsPerNode(n, m);
    if i == 0 {
      assert i as real * x == 0.0;
    } else {
      CursorIs(n, m, i - 1);
      assert i as real * x == (i - 1) as real * x + x;
    }
  }

  lemma PerNode(n: nat, m: nat)
    requires m > 0
    ensures m as real * SlotsPerNode(n, m) == n as real
    ensures SlotsPerNode(n, m).Floor == n / m
    ensures n % m == 0 ==> SlotsPerNode(n, m) == (n / m) as real
    ensures m <= n ==> SlotsPerNode(n, m) >= 1.0
  {
    var x, q := SlotsPerNode(n, m), n / m;
    assert n == q * m + n % m;
    assert n as real == q as real * m as real + (n % m) as real;
    assert (x - q as real) * m as real == (n % m) as real;
    ScaledBetween(x - q as real, m as real, (n % m) as real);
    if m <= n {
      assert (x - 1.0) * m as real == n as real - m as real;
      ScaledBetween(x - 1.0, m as real, n as real - m as real);
    }
  }

  lemma ProductNotNegative(a: real, b: real)
    requires a >= 0.0 && b >= 0.0
    ensures a * b >= 0.0
  {
  }

  lemma ScaledBetween(d: real, m: real, r: real)
    requires m > 0.0 && d * m == r && r >= 0.0
    ensures d >= 0.0 && (r < m ==> d < 1.0) && (r == 0.0 ==> d == 0.0)
  {
    assert d == r / m;
    if d >= 1.0 {
      ProductNotNegative(d - 1.0, m);
      assert (d - 1.0) * m == r - m;
    }
  }

  /** Each step from bound to bound is the floor or the ceiling of n / m. */
  lemma BoundStep(n: nat, m: nat, i: nat)
    requires m > 0
    ensures var size := Bound(n, m, i + 1) - Bound(n, m, i);
      if n % m == 0 then size == n / m else size == n / m || size == n / m + 1
  {
    PerNode(n, m);
  }

  lemma {:induction false} BoundsAscend(n: nat, m: nat, i: nat, j: nat)
    requires m > 0 && i <= j
    ensures Bound(n, m, i) <= Bound(n, m, j)
    ensures m <= n ==> Bound(n, m, j) - Bound(n, m, i) >= j - i
    decreases j
  {
    if i < j {
      BoundsAscend(n, m, i, j - 1);
      BoundStep(n, m, j - 1);
      assert m <= n ==> n / m >= 1 by {
        PerNode(n, m);
      }
    }
  }

  lemma BoundEnds(n: nat, m: nat)
    requires m > 0
    ensures Bound(n, m, 0) == 0 && Bound(n, m, m) == n
  {
    PerNode(n, m);
    CursorIs(n, m, m);
  }

  /** What the loop rounds to is the last slot before the next bound. */
  lemma RoundedIs(n: nat, m: nat, i: nat)
    requires 1 <= m <= n && i < m
    ensures Round(Cursor(n, m, i) + SlotsPerNode(n, m) - 1.0) == Bound(n, m, i + 1) - 1
    ensures Bound(n, m, i) <= Bound(n, m, i + 1) - 1 < n
  {
    PerNode(n, m);
    CursorIs(n, m, i);
    BoundsAscend(n, m, i, i + 1);
    BoundsAscend(n, m, i + 1, m);
    BoundEnds(n, m);
  }

  lemma AllocStepIs(p: Progress, n: nat, m: nat, i: nat)
    requires 1 <= m <= n && i < m && p.first == Bound(n, m, i) && p.cursor == Cursor(n, m, i)
    ensures var q := AllocOneMore(p, n, m, i);
      && q.first == Bound(n, m, i + 1) && q.cursor == Cursor(n, m, i + 1)
      && q.ranges == p.ranges + [(Bound(n, m, i), Bound(n, m, i + 1) - 1)]
  {
    BoundEnds(n, m);
    RoundedIs(n, m, i);
  }

  /** With no more masters than slots neither the cap nor the repair of the loop changes anything. */
  lemma {:induction false} AllocIs(n: nat, m: nat, i: nat)
    requires 1 <= m <= n && i <= m
    ensures var p := AllocUpTo(n, m, i);
      && p.first == Bound(n, m, i) && p.cursor == Cursor(n, m, i)
      && forall k :: 0 <= k < i ==> p.ranges[k] == (Bound(n, m, k), Bound(n, m, k + 1) - 1)
  {
    BoundEnds(n, m);
    if i > 0 {
      AllocIs(n, m, i - 1);
      AllocStepIs(AllocUpTo(n, m, i - 1), n, m, i - 1);
    }
  }

  lemma {:induction false} RangesAreLate(n: nat, m: nat, i: nat)
    requires m > 0
    ensures var p := AllocUpTo(n, m, i);
      p.first >= i && forall k :: 0 <= k < i ==> k <= p.ranges[k].0 <= p.ranges[k].1
  {
    if i > 0 {
      RangesAreLate(n, m, i - 1);
    }
  }

  /** The repair hands out slots that do not exist exactly when there are more masters than slots. */
  lemma RangesFitExactly(n: nat, m: nat)
    requires m > 0
    ensures (forall k :: 0 <= k < m ==> AllocUpTo(n, m, m).ranges[k].1 < n) <==> m <= n
  {
    if m <= n {
      AllocIs(n, m, m);
      BoundEnds(n, m);
      forall k | 0 <= k < m ensures AllocUpTo(n, m, m).ranges[k].1 < n {
        BoundsAscend(n, m, k + 1, m);
      }
    } else {
      RangesAreLate(n, m, m);
      assert AllocUpTo(n, m, m).ranges[m - 1].1 >= m - 1;
    }
  }

  /** Every slot lies in exactly one of the ranges. */
  lemma {:induction false} RangeOfSlot(n: nat, m: nat, i: nat, s: nat) returns (k: nat)
    requires 1 <= m <= n && i <= m && s < Bound(n, m, i)
    ensures k < i && Bound(n, m, k) <= s < Bound(n, m, k + 1)
  {
    BoundEnds(n, m);
    assert i > 0;
    if s >= Bound(n, m, i - 1) {
      k := i - 1;
    } else {
      k := RangeOfSlot(n, m, i - 1, s);
    }
  }

  lemma RangesDisjoint(n: nat, m: nat, k: nat, l: nat, s: int)
    requires 1 <= m <= n && k < m && l < m
    requires Bound(n, m, k) <= s < Bound(n, m, k + 1) && Bound(n, m, l) <= s < Bound(n, m, l + 1)
    ensures k == l
  {
    if k < l {
      BoundsAscend(n, m, k + 1, l);
    } else if l < k {
      BoundsAscend(n, m, l + 1, k);
    }
  }

  // ---------- creating the cluster ----------

  /** A world nobody has set up yet. */
  ghost predicate Blank(w: World) {
    && NOBODY !in w.nodes
    && (forall a, s: Slot :: View(w, a, s) == NOBODY)
    && (forall a, s: Slot :: Data(w, a, s) == map[])
  }

  predicate InRange(n: nat, m: nat, i: nat, s: int)
    requires m > 0
  {
    Bound(n, m, i) <= s < Bound(n, m, i + 1)
  }

  /** a is one of the first k masters and s lies in its range. */
  ghost predicate Takes(n: nat, ids: seq<Id>, k: nat, a: Id, s: Slot)
    requires k <= |ids|
  {
    exists i :: 0 <= i < k && a == ids[i] && InRange(n, |ids|, i, s)
  }

  /** The first k masters own their ranges; nobody knows of anything else. */
  ghost predicate Allocated(w0: World, w: World, ids: seq<Id>, k: nat)
    requires k <= |ids|
  {
    && w.n == w0.n && w.nodes == w0.nodes && w.replicaOf == w0.replicaOf && w.data == w0.data
    && w.importing.Keys <= w0.importing.Keys && w.migrating == w0.migrating
    && forall a, s: Slot :: View(w, a, s) == if Takes(w0.n, ids, k, a, s) then a else NOBODY
  }

  ghost predicate DistinctIds(ids: seq<Id>) {
    forall i, j :: 0 <= i < j < |ids| ==> ids[i] != ids[j]
  }

  lemma NextTakes(n: nat, ids: seq<Id>, k: nat, a: Id, s: Slot)
    requires k < |ids|
    ensures Takes(n, ids, k + 1, a, s) <==> Takes(n, ids, k, a, s) || (a == ids[k] && InRange(n, |ids|, k, s))
  {
  }

  lemma AllocatedStep(w0: World, w: World, ids: seq<Id>, k: nat, slots: seq<Slot>)
    requires k < |ids| <= w0.n && DistinctIds(ids) && Allocated(w0, w, ids, k) && IsMaster(w0, ids[k])
    requires NoDup(slots) && slots != [] && forall s: Slot :: s in slots <==> InRange(w0.n, |ids|, k, s)
    ensures Accepts(w, AddSlots(ids[k], slots))
    ensures Allocated(w0, Effect(w, AddSlots(ids[k], slots)), ids, k + 1)
  {
    var w' := Effect(w, AddSlots(ids[k], slots));
    forall a, s: Slot ensures View(w', a, s) == if Takes(w0.n, ids, k + 1, a, s) then a else NOBODY {
      NextTakes(w0.n, ids, k, a, s);
      if a == ids[k] && s in slots {
        var i :| 0 <= i < |slots| && slots[i] == s;
      }
    }
    forall i | 0 <= i < |slots| ensures slots[i] < w.n && View(w, ids[k], slots[i]) == NOBODY {
      assert slots[i] in slots;
      BoundsAscend(w0.n, |ids|, k + 1, |ids|);
      BoundEnds(w0.n, |ids|);
    }
  }

  /** A freshly allocated cluster is sound, and each master serves exactly its range. */
  lemma AllocatedIsSound(w0: World, w: World, ids: seq<Id>)
    requires Blank(w0) && ids != [] && |ids| <= w0.n && DistinctIds(ids) && Allocated(w0, w, ids, |ids|)
    requires forall i :: 0 <= i < |ids| ==> ids[i] in w0.nodes
    ensures Sound(w)
    ensures forall i, s: Slot :: 0 <= i < |ids| ==> (Claims(w, ids[i], s) <==> InRange(w0.n, |ids|, i, s))
  {
    var n, m := w0.n, |ids|;
    BoundEnds(n, m);
    forall i, s: Slot | 0 <= i < m ensures Claims(w, ids[i], s) <==> InRange(n, m, i, s) {
      assert ids[i] != NOBODY;
      assert Takes(n, ids, m, ids[i], s) <==> InRange(n, m, i, s);
    }
    forall s: Slot | s < n ensures Served(w, s) {
      var k := RangeOfSlot(n, m, m, s);
      assert Claims(w, ids[k], s);
    }
    forall a, b, s: Slot | Claims(w, a, s) && Claims(w, b, s) ensures a == b && s < n {
      var i :| 0 <= i < m && a == ids[i] && InRange(n, m, i, s);
      var j :| 0 <= j < m && b == ids[j] && InRange(n, m, j, s);
      RangesDisjoint(n, m, i, j, s);
      BoundsAscend(n, m, i + 1, m);
    }
    forall a, s: Slot | a in w.nodes ensures Data(w, a, s) == map[] {
      assert Data(w, a, s) == Data(w0, a, s);
    }
  }

  lemma {:induction false} FirstBounded(n: nat, m: nat, i: nat)
    requires m > 0
    ensures AllocUpTo(n, m, i).first <= n + i
  {
    if i > 0 {
      FirstBounded(n, m, i - 1);
    }
  }

  lemma {:induction false} RangesStay(n: nat, m: nat, i: nat, k: nat)
    requires m > 0 && k < i
    ensures AllocUpTo(n, m, i).ranges[k] == AllocUpTo(n, m, k + 1).ranges[k]
  {
    if k < i - 1 {
      RangesStay(n, m, i - 1, k);
    }
  }

  ghost function IdsOf(ns: seq<Node>): (ids: seq<Id>)
    ensures |ids| == |ns| && forall i :: 0 <= i < |ns| ==> ids[i] == ns[i].ID
  {
    seq(|ns|, i requires 0 <= i < |ns| => ns[i].ID)
  }

  ghost predicate AllMasters(w: World, ids: seq<Id>) {
    forall i :: 0 <= i < |ids| ==> IsMaster(w, ids[i])
  }

  /** The last slot handed out in round i. */
  function LastOf(n: nat, m: nat, i: nat): int
    requires m > 0
  {
    AllocUpTo(n, m, i + 1).first - 1
  }

  lemma RangeFacts(n: nat, m: nat, i: nat)
    requires i < m && n + m < MAX_SLOT
    ensures AllocUpTo(n, m, i + 1).ranges == AllocUpTo(n, m, i).ranges + [(AllocUpTo(n, m, i).first, LastOf(n, m, i))]
    ensures i <= AllocUpTo(n, m, i).first <= LastOf(n, m, i) < MAX_SLOT
    ensures i == m - 1 && m > n ==> LastOf(n, m, i) >= n
  {
    RangesAreLate(n, m, i);
    FirstBounded(n, m, i + 1);
  }

  lemma RangeIsShare(n: nat, m: nat, i: nat, s: int)
    requires i < m <= n
    ensures AllocUpTo(n, m, i).first <= s <= LastOf(n, m, i) <==> InRange(n, m, i, s)
  {
    AllocIs(n, m, i);
    AllocIs(n, m, i + 1);
  }

  lemma IntervalFacts(min: Slot, max: Slot)
    requires min <= max
    ensures NoDup(Interval(min, max)) && Interval(min, max) != []
    ensures forall s: Slot :: s in Interval(min, max) <==> min <= s <= max
  {
    forall s: Slot | min <= s <= max ensures s in Interval(min, max) {
      assert Interval(min, max)[s - min] == s;
    }
  }

  /** rebalance.go lines 153 to 160. */
  method NextLast(clusterHashSlots: nat, mastersNum: nat, index: nat, first: int, cursor: real) returns (last: int)
    requires index < mastersNum
    requires first == AllocUpTo(clusterHashSlots, mastersNum, index).first
    requires cursor == AllocUpTo(clusterHashSlots, mastersNum, index).cursor
    ensures last == LastOf(clusterHashSlots, mastersNum, index)
    ensures AllocUpTo(clusterHashSlots, mastersNum, index + 1).cursor == cursor + SlotsPerNode(clusterHashSlots, mastersNum)
  {
    last := Round(cursor + SlotsPerNode(clusterHashSlots, mastersNum) - 1.0);
    if last > clusterHashSlots || index == mastersNum - 1 {
      last := clusterHashSlots - 1;
    }
    if last < first {
      last := first;
    }
  }

  /** rebalance.go lines 162 to 167. */
  method GiveRange(admin: Admin, node: Node, first: int, last: int) returns (ok: bool)
    requires 0 <= first <= last < MAX_SLOT
    modifies admin, node`Slots
    ensures old(admin.hist) <= admin.hist && admin.world.n == old(admin.world).n
    ensures node.Slots == Interval(first, last)
    ensures ok ==> last < admin.world.n && admin.world == Effect(old(admin.world), AddSlots(node.ID, node.Slots))
    ensures admin.reliable && Accepts(old(admin.world), AddSlots(node.ID, node.Slots)) ==> ok
  {
    IntervalFacts(first, last);
    SlotLoopEndsExactly(first, last);
    var slots := BuildSlotSlice(first, last);
    node.Slots := slots;
    ok := admin.AddSlots(node.ID, slots);
    assert slots[|slots| - 1] == last;
  }

  ghost predicate CanAllocate(admin: Admin, w: World, ids: seq<Id>) {
    admin.reliable && Blank(w) && AllMasters(w, ids) && |ids| <= w.n
  }

  lemma CanGive(w0: World, w: World, ids: seq<Id>, i: nat, first: Slot, last: Slot, slots: seq<Slot>)
    requires i < |ids| <= w0.n && DistinctIds(ids) && Allocated(w0, w, ids, i) && AllMasters(w0, ids)
    requires |ids| + w0.n < MAX_SLOT
    requires first == AllocUpTo(w0.n, |ids|, i).first && last == LastOf(w0.n, |ids|, i) && slots == Interval(first, last)
    ensures Accepts(w, AddSlots(ids[i], slots))
    ensures Allocated(w0, Effect(w, AddSlots(ids[i], slots)), ids, i + 1)
  {
    RangeFacts(w0.n, |ids|, i);
    IntervalFacts(first, last);
    forall s: Slot ensures s in slots <==> InRange(w0.n, |ids|, i, s) {
      RangeIsShare(w0.n, |ids|, i, s);
    }
    AllocatedStep(w0, w, ids, i, slots);
  }

  /**
   * AllocSlots. On a blank cluster with no more masters than slots it succeeds and the masters
   * own the ranges; with more masters than slots Redis refuses a range and it fails.
   */
  method AllocSlots(admin: Admin, masters: seq<Node>) returns (ok: bool)
    requires DistinctNodes(masters) && |masters| + admin.world.n < MAX_SLOT
    modifies admin, masters`Slots
    ensures old(admin.hist) <= admin.hist
    ensures ok && masters != [] ==> HasRanges(masters, AllocUpTo(old(admin.world).n, |masters|, |masters|).ranges)
    ensures ok ==> |masters| <= old(admin.world).n || masters == []
    ensures CanAllocate(admin, old(admin.world), IdsOf(masters)) ==>
              ok && Allocated(old(admin.world), admin.world, IdsOf(masters), |masters|)
  {
    ghost var w0, ids := admin.world, IdsOf(masters);
    var mastersNum, clusterHashSlots := |masters|, admin.world.n;
    AllocatedNone(w0, ids);
    if mastersNum == 0 {
      return true;
    }
    var slotsPerNode := SlotsPerNode(clusterHashSlots, mastersNum);
    var first, cursor := 0, 0.0;
    ghost var p := AllocUpTo(clusterHashSlots, mastersNum, 0);
    for i := 0 to mastersNum
      invariant old(admin.hist) <= admin.hist && admin.world.n == clusterHashSlots
      invariant p == AllocUpTo(clusterHashSlots, mastersNum, i) && first == p.first && cursor == p.cursor
      invariant HasRanges(masters, p.ranges)
      invariant i == mastersNum ==> mastersNum <= clusterHashSlots
      invariant CanAllocate(admin, w0, ids) ==> Allocated(w0, admin.world, ids, i)
    {
      RangeFacts(clusterHashSlots, mastersNum, i);
      var last := NextLast(clusterHashSlots, mastersNum, i, first, cursor);
      if CanAllocate(admin, w0, ids) {
        CanGive(w0, admin.world, ids, i, first, last, Interval(first, last));
      }
      ok := GiveRange(admin, masters[i], first, last);
      if !ok {
        return;
      }
      RangesGrow(masters, p.ranges, first, last);
      p := AllocUpTo(clusterHashSlots, mastersNum, i + 1);
      first := last + 1;
      cursor := cursor + slotsPerNode;
    }
    return true;
  }

  lemma RangesGrow(ns: seq<Node>, ranges: seq<(int, int)>, first: int, last: int)
    requires |ranges| < |ns| && HasRanges(ns, ranges)
    requires 0 <= first <= last < MAX_SLOT && ns[|ranges|].Slots == Interval(first, last)
    ensures HasRanges(ns, ranges + [(first, last)])
  {
  }

  ghost predicate HasRanges(ns: seq<Node>, ranges: seq<(int, int)>)
    reads ns
  {
    |ranges| <= |ns| && forall k :: 0 <= k < |ranges| ==>
      0 <= ranges[k].0 <= ranges[k].1 < MAX_SLOT && ns[k].Slots == Interval(ranges[k].0, ranges[k].1)
  }

  lemma AllocatedNone(w: World, ids: seq<Id>)
    ensures Blank(w) ==> Allocated(w, w, ids, 0)
  {
  }
}
