/** RebalancedCluster of pkg/controller/clustering/rebalance.go: scaling up. */
module Rebalance {
  import opened Basics
  import opened SlotLists
  import opened RedisWorld
  import opened Nodes
  import opened AdminClient
  import opened MoveSlotProtocol
  import opened Remainder
  import opened TwoPointer
  import opened Scattering
  import BulkMoveProtocol

  // ---------- which slots to move ----------

  datatype MovedNode = MovedNode(Source: Node, Slot: Slot)

  function SlotCounts(ns: seq<Node>): (r: seq<int>)
    reads ns
    ensures |r| == |ns|
    ensures forall i :: 0 <= i < |ns| ==> r[i] == |ns[i].Slots|
  {
    if ns == [] then [] else SlotCounts(ns[..|ns| - 1]) + [|ns[|ns| - 1].Slots|]
  }

  lemma QuotientAtMost(x: nat, d: nat, q: nat)
    requires d > 0 && x < (q + 1) * d
    ensures x / d <= q
  {
    var p := x / d;
    assert x == p * d + x % d;
    assert (p - (q + 1)) * d == p * d - (q + 1) * d;
    MulGrows(p - (q + 1), d);
  }

  lemma MulMonotone(a: nat, b: nat, c: nat)
    requires a <= b
    ensures a * c <= b * c
  {
    assert (b - a) * c == b * c - a * c;
    assert (b - a) * c >= 0;
  }

  /** Rounded down (extra == 0) or up (extra == total - 1), no share exceeds the source. */
  lemma ShareFits(numSlots: nat, count: nat, total: nat, extra: nat)
    requires numSlots <= total && extra < total
    ensures 0 <= (numSlots * count + extra) / total <= count
  {
    MulMonotone(numSlots, total, count);
    assert (count + 1) * total == total * count + total;
    QuotientAtMost(numSlots * count + extra, total, count);
  }

  /** numSlots / total * count, rounded up for the first source and down for the others. */
  function SlotsToTake(numSlots: nat, count: nat, total: nat, first: bool): (n: nat)
    requires 0 < numSlots <= total
    ensures n <= count
    ensures first && count == total ==> n == numSlots
  {
    var extra := if first then total - 1 else 0;
    ShareFits(numSlots, count, total, extra);
    if first then ExactShare(numSlots, total); (numSlots * count + extra) / total
    else (numSlots * count + extra) / total
  }

  /** The first slots of node, as many as n and the room left allow. */
  method TakeFrom(node: Node, n: nat, numSlots: nat, moved: seq<MovedNode>) returns (r: seq<MovedNode>)
    requires n <= |node.Slots| && |moved| <= numSlots
    ensures |r| == Min(numSlots, |moved| + n) && moved <= r
    ensures forall k :: |moved| <= k < |r| ==> r[k] == MovedNode(node, node.Slots[k - |moved|])
  {
    r := moved;
    for i := 0 to n
      invariant |r| == Min(numSlots, |moved| + i) && moved <= r
      invariant forall k :: |moved| <= k < |r| ==> r[k] == MovedNode(node, node.Slots[k - |moved|])
    {
      if |r| < numSlots {
        r := r + [MovedNode(node, node.Slots[i])];
      }
    }
  }

  ghost predicate TakenFrom(src: seq<Node>, moved: seq<MovedNode>)
    reads src
  {
    forall k :: 0 <= k < |moved| ==> moved[k].Source in src && moved[k].Slot in moved[k].Source.Slots
  }

  method SumOf(counts: seq<int>) returns (total: int)
    ensures total == Sum(counts)
  {
    total := 0;
    for i := 0 to |counts|
      invariant total == Sum(counts[..i])
    {
      assert counts[..i + 1] == counts[..i] + [counts[i]];
      SumSnoc(counts[..i], counts[i]);
      total := total + counts[i];
    }
    assert counts[..|counts|] == counts;
  }

  method SortBySize(src: seq<Node>) returns (sources: seq<Node>, counts: seq<int>)
    ensures |sources| == |counts| == |src| && Sum(counts) == Sum(SlotCounts(src))
    ensures forall i :: 0 <= i < |sources| ==> sources[i] in src && counts[i] == |sources[i].Slots|
    ensures |src| == 1 ==> sources == src
  {
    ghost var perm;
    sources, counts, perm := SortByKey(src, SlotCounts(src));
    SumPermutation(SlotCounts(src), counts);
    forall i | 0 <= i < |sources| ensures sources[i] in src && counts[i] == |sources[i].Slots| {
      assert sources[i] == src[perm[i]];
    }
  }

  /**
   * computeReshardTable: from every source, smallest first, its proportional share of
   * numSlots, rounded up for the first source and down for the others.
   */
  method ComputeReshardTable(src: seq<Node>, numSlots: nat) returns (moved: seq<MovedNode>)
    requires src != [] && 0 < numSlots <= Sum(SlotCounts(src))
    ensures |moved| <= numSlots && TakenFrom(src, moved)
    ensures |src| == 1 ==> |moved| == numSlots <= |src[0].Slots|
    ensures |src| == 1 ==> forall k :: 0 <= k < |moved| ==> moved[k] == MovedNode(src[0], src[0].Slots[k])
  {
    var sources, counts := SortBySize(src);
    moved := [];
    var total := SumOf(counts);
    if |src| == 1 {
      SumSnoc([], counts[0]);
      assert counts == [] + [counts[0]];
    }
    for idx := 0 to |sources|
      invariant |moved| <= numSlots && TakenFrom(src, moved)
      invariant idx == 0 ==> moved == []
      invariant |src| == 1 && idx == 1 ==> |moved| == numSlots && FirstSlots(src[0], moved)
    {
      var node := sources[idx];
      moved := TakeShare(src, node, numSlots, total, idx == 0, moved);
    }
  }

  /** The share of one source; the first rounds up. */
  method TakeShare(src: seq<Node>, node: Node, numSlots: nat, total: nat, first: bool, moved: seq<MovedNode>) returns (r: seq<MovedNode>)
    requires 0 < numSlots <= total && |moved| <= numSlots && TakenFrom(src, moved) && node in src
    ensures moved <= r && |r| <= numSlots && TakenFrom(src, r)
    ensures first && moved == [] ==> FirstSlots(node, r) && (|node.Slots| == total ==> |r| == numSlots)
  {
    var n := SlotsToTake(numSlots, |node.Slots|, total, first);
    r := TakeFrom(node, n, numSlots, moved);
    TakenOneMore(src, node, moved, r);
    if moved == [] {
      TakenAtFirst(node, r);
    }
  }

  lemma TakenAtFirst(node: Node, r: seq<MovedNode>)
    requires |r| <= |node.Slots| && forall k :: 0 <= k < |r| ==> r[k] == MovedNode(node, node.Slots[k - 0])
    ensures FirstSlots(node, r)
  {
  }

  ghost predicate FirstSlots(node: Node, moved: seq<MovedNode>)
    reads node
  {
    |moved| <= |node.Slots| && forall k :: 0 <= k < |moved| ==> moved[k] == MovedNode(node, node.Slots[k])
  }

  lemma TakenOneMore(src: seq<Node>, node: Node, before: seq<MovedNode>, moved: seq<MovedNode>)
    requires TakenFrom(src, before) && before <= moved && node in src && |moved| - |before| <= |node.Slots|
    requires forall k :: |before| <= k < |moved| ==> moved[k] == MovedNode(node, node.Slots[k - |before|])
    ensures TakenFrom(src, moved)
  {
    assert forall k :: 0 <= k < |before| ==> moved[k] == before[k];
  }

  lemma ExactShare(numSlots: nat, total: nat)
    requires total > 0
    ensures (numSlots * total + total - 1) / total == numSlots
  {
    DivisionIs(numSlots * total + total - 1, total, numSlots, total - 1);
  }

  // ---------- moving several slots from one master to another ----------

  /** Only the two nodes' views of the slots in S may have changed. */
  ghost predicate ViewsKept(w0: World, w: World, src: Id, dst: Id, S: set<Slot>) {
    && w.n == w0.n && w.nodes == w0.nodes && w.replicaOf == w0.replicaOf
    && forall x, t: Slot :: !(t in S && (x == src || x == dst)) ==> View(w, x, t) == View(w0, x, t)
  }

  lemma StageKeepsViews(w0: World, w: World, h: World, src: Id, dst: Id, S: set<Slot>, s: Slot)
    requires ViewsKept(w0, w, src, dst, S) && MoveStage(w, h, src, dst, s)
    ensures ViewsKept(w0, h, src, dst, S + {s})
  {
    forall x, t: Slot | !(t in S + {s} && (x == src || x == dst)) ensures View(h, x, t) == View(w0, x, t) {
      assert View(h, x, t) == View(w, x, t);
    }
  }

  lemma PassedOnStep(w0: World, w: World, h: World, src: Id, dst: Id, S: set<Slot>, s: Slot)
    requires PassedOn(w0, w, dst, S) && Claims(w, src, s) && src != dst && dst in w.nodes
    requires HandedOver(w, h, src, dst, s)
    ensures PassedOn(w0, h, dst, S + {s})
  {
    HandedOverKeepsContents(w, h, src, dst, s);
    HandedOverClaims(w, h, src, dst, s);
    SameContentsTransitive(w0, w, h);
  }

  lemma StageIntact(w0: World, w: World, h: World, src: Id, dst: Id, s: Slot)
    requires SameContents(w0, w) && Claims(w, src, s) && src != dst && dst in w.nodes
    requires MoveStage(w, h, src, dst, s) && ServedByEither(h, src, dst, s)
    ensures Intact(w0, h)
  {
    forall t: Slot | t < w0.n ensures Served(h, t) && Held(h, t, Data(w0, Owner(w0, t), t)) {
      if t == s {
        SlotStillHeld(w, h, src, dst, s);
        OwnerIs(w, src, s);
      } else {
        var a := Owner(w, t);
        assert View(h, a, t) == View(w, a, t) && Data(h, a, t) == Data(w, a, t);
        assert Claims(h, a, t);
      }
    }
  }

  lemma SlotStillHeld(w: World, h: World, src: Id, dst: Id, s: Slot)
    requires Sound(w) && Claims(w, src, s) && src != dst && dst in w.nodes && MoveStage(w, h, src, dst, s)
    ensures Held(h, s, Data(w, src, s))
  {
    assert !Claims(w, dst, s) && Data(w, dst, s) == map[];
    var m := Data(h, dst, s) + Data(h, src, s);
    assert m == Data(w, src, s);
    forall k | k in Data(w, src, s)
      ensures exists a :: a in h.nodes && k in Data(h, a, s) && Data(h, a, s)[k] == Data(w, src, s)[k]
    {
      assert m[k] == Data(w, src, s)[k];
      if k in Data(h, src, s) {
        assert Data(h, src, s)[k] == m[k];
      } else {
        assert Data(h, dst, s)[k] == m[k];
      }
    }
  }

  // ---------- what holds whichever commands fail ----------

  /** Nothing has happened to t. */
  ghost predicate Untouched(w0: World, w: World, t: Slot) {
    forall x :: View(w, x, t) == View(w0, x, t) && Data(w, x, t) == Data(w0, x, t)
  }

  /** Nothing has happened to slots outside S. */
  ghost predicate OnlyTouched(w0: World, w: World, S: set<Slot>) {
    w.nodes == w0.nodes && forall x, t: Slot :: t !in S ==> View(w, x, t) == View(w0, x, t) && Data(w, x, t) == Data(w0, x, t)
  }

  /** No node has left, and no key of base is gone. */
  ghost predicate KeepsKeys(base: World, w: World) {
    Sound(base) && w.nodes == base.nodes && AllKept(base, w)
  }

  ghost predicate AllKeepKeys(base: World, hist: seq<World>, from: nat) {
    forall i :: from <= i < |hist| ==> KeepsKeys(base, hist[i])
  }

  lemma StageKeepsKeys(base: World, w: World, h: World, src: Id, dst: Id, s: Slot)
    requires KeepsKeys(base, w) && Untouched(base, w, s) && Claims(base, src, s) && src != dst && dst in base.nodes
    requires MoveStage(w, h, src, dst, s)
    ensures KeepsKeys(base, h)
  {
    forall t: Slot | t < base.n ensures Held(h, t, Data(base, Owner(base, t), t)) {
      if t == s {
        OwnerIs(base, src, s);
        assert !Claims(base, dst, s) && Data(base, dst, s) == map[];
        BulkMoveProtocol.SplitKeysHeld(h, src, dst, s, Data(base, src, s));
      } else {
        assert forall x :: Data(h, x, t) == Data(w, x, t);
      }
    }
  }

  lemma StageTouches(w0: World, w: World, h: World, src: Id, dst: Id, S: set<Slot>, s: Slot)
    requires OnlyTouched(w0, w, S) && MoveStage(w, h, src, dst, s)
    ensures OnlyTouched(w0, h, S + {s})
  {
    forall x, t: Slot | t !in S + {s} ensures View(h, x, t) == View(w0, x, t) && Data(h, x, t) == Data(w0, x, t) {
      assert View(h, x, t) == View(w, x, t) && Data(h, x, t) == Data(w, x, t);
    }
  }

  /** The source serves in base all slots it lists, and nothing has happened to them. */
  ghost predicate ListsUntouched(base: World, w: World, src: Id, slots: seq<Slot>) {
    Sound(base) && forall s :: s in slots ==> Claims(base, src, s) && Untouched(base, w, s)
  }

  lemma StillUntouched(base: World, w: World, h: World, src: Id, slots: seq<Slot>, S: set<Slot>)
    requires ListsUntouched(base, w, src, slots) && OnlyTouched(w, h, S) && forall s :: s in slots ==> s !in S
    ensures ListsUntouched(base, h, src, slots)
  {
    forall s | s in slots ensures Untouched(base, h, s) {
      forall x ensures View(h, x, s) == View(base, x, s) && Data(h, x, s) == Data(base, x, s) {
        assert Untouched(base, w, s);
      }
    }
  }

  /** Nothing stands in the way of moving slots from src to dst. */
  ghost predicate Clear(admin: Admin, w: World, src: Id, dst: Id) {
    admin.reliable && Sound(w) && IsMaster(w, src) && IsMaster(w, dst)
  }

  /** One entry of a reshard table; w0 is the world when the table was started, S what has been moved. */
  method MoveEntry(admin: Admin, e: MovedNode, dst: Node, ghost w0: World, ghost S: set<Slot>, ghost base: World) returns (ok: bool)
    requires e.Source.ID != dst.ID && Claims(admin.world, e.Source.ID, e.Slot)
    requires ListsUntouched(base, admin.world, e.Source.ID, [e.Slot]) && OnlyTouched(w0, admin.world, S)
    requires ViewsKept(w0, admin.world, e.Source.ID, dst.ID, S)
    requires Clear(admin, w0, e.Source.ID, dst.ID) ==> PassedOn(w0, admin.world, dst.ID, S)
    modifies admin, e.Source`Slots
    ensures old(admin.hist) <= admin.hist
    ensures ok ==> e.Source.Slots == WithoutFirst(old(e.Source.Slots), e.Slot)
    ensures ViewsKept(w0, admin.world, e.Source.ID, dst.ID, S + {e.Slot}) && OnlyTouched(w0, admin.world, S + {e.Slot})
    ensures dst.ID in base.nodes && KeepsKeys(base, old(admin.world)) ==>
              KeepsKeys(base, admin.world) && AllKeepKeys(base, admin.hist, |old(admin.hist)|)
    ensures Clear(admin, w0, e.Source.ID, dst.ID) ==>
              && ok && PassedOn(w0, admin.world, dst.ID, S + {e.Slot})
              && AllIntact(w0, admin.hist, |old(admin.hist)|)
  {
    ghost var w, src := admin.world, e.Source.ID;
    ghost var toldTarget, toldSource;
    if Clear(admin, w0, src, dst.ID) {
      assert !Claims(w, dst.ID, e.Slot);
      assert Ready(w, src, dst.ID, e.Slot);
    }
    ok, toldTarget, toldSource := MoveSlot(admin, e.Source, e.Slot, dst);
    StageKeepsViews(w0, w, admin.world, src, dst.ID, S, e.Slot);
    StageTouches(w0, w, admin.world, src, dst.ID, S, e.Slot);
    if dst.ID in base.nodes && KeepsKeys(base, w) {
      StageKeepsKeys(base, w, admin.world, src, dst.ID, e.Slot);
      forall i | |old(admin.hist)| <= i < |admin.hist| ensures KeepsKeys(base, admin.hist[i]) {
        StageKeepsKeys(base, w, admin.hist[i], src, dst.ID, e.Slot);
      }
    }
    if Clear(admin, w0, src, dst.ID) {
      PassedOnStep(w0, w, admin.world, src, dst.ID, S, e.Slot);
      forall i | |old(admin.hist)| <= i < |admin.hist| ensures Intact(w0, admin.hist[i]) {
        StageIntact(w0, w, admin.hist[i], src, dst.ID, e.Slot);
      }
    }
  }

  lemma PrefixSets(slots: seq<Slot>, j: nat)
    requires j < |slots| && NoDup(slots)
    ensures ToSet(slots[..j + 1]) == ToSet(slots[..j]) + {slots[j]}
    ensures slots[j] !in ToSet(slots[..j])
  {
    assert slots[..j + 1] == slots[..j] + [slots[j]];
  }

  /** rebalance.go lines 58 to 70: the reshard table of one source, moved entry by entry. */
  method MoveTable(admin: Admin, src: Node, dst: Node, k: nat, ghost base: World) returns (ok: bool)
    requires ListsUntouched(base, admin.world, src.ID, src.Slots)
    requires src != dst && src.ID != dst.ID && NoDup(src.Slots) && 0 < k <= |src.Slots|
    requires forall s :: s in src.Slots ==> Claims(admin.world, src.ID, s)
    modifies admin, src`Slots
    ensures old(admin.hist) <= admin.hist
    ensures ViewsKept(old(admin.world), admin.world, src.ID, dst.ID, ToSet(old(src.Slots)[..k]))
    ensures OnlyTouched(old(admin.world), admin.world, ToSet(old(src.Slots)[..k]))
    ensures dst.ID in base.nodes && KeepsKeys(base, old(admin.world)) ==>
              KeepsKeys(base, admin.world) && AllKeepKeys(base, admin.hist, |old(admin.hist)|)
    ensures ok ==> src.Slots == old(src.Slots)[k..]
    ensures Clear(admin, old(admin.world), src.ID, dst.ID) ==>
              && ok && PassedOn(old(admin.world), admin.world, dst.ID, ToSet(old(src.Slots)[..k]))
              && AllIntact(old(admin.world), admin.hist, |old(admin.hist)|)
  {
    ghost var w0, slots := admin.world, src.Slots;
    var table := ComputeReshardTable([src], k);
    if |table| != k {
      assert false;  // "Assertion failed: Reshard table != number of slots"
    }
    NothingPassedOn(w0, dst.ID);
    for j := 0 to |table|
      invariant old(admin.hist) <= admin.hist
      invariant src.Slots == slots[j..]
      invariant ViewsKept(w0, admin.world, src.ID, dst.ID, ToSet(slots[..j])) && OnlyTouched(w0, admin.world, ToSet(slots[..j]))
      invariant dst.ID in base.nodes && KeepsKeys(base, w0) ==> KeepsKeys(base, admin.world) && AllKeepKeys(base, admin.hist, |old(admin.hist)|)
      invariant Clear(admin, w0, src.ID, dst.ID) ==> PassedOn(w0, admin.world, dst.ID, ToSet(slots[..j]))
      invariant Clear(admin, w0, src.ID, dst.ID) ==>
                  AllIntact(w0, admin.hist, |old(admin.hist)|)
    {
      PrefixSets(slots, j);
      assert View(admin.world, src.ID, slots[j]) == View(w0, src.ID, slots[j]);
      StillUntouched(base, w0, admin.world, src.ID, [slots[j]], ToSet(slots[..j]));
      ok := MoveEntry(admin, table[j], dst, w0, ToSet(slots[..j]), base);
      if !ok {
        assert ToSet(slots[..j + 1]) <= ToSet(slots[..k]);
        WidenViews(w0, admin.world, src.ID, dst.ID, ToSet(slots[..j + 1]), ToSet(slots[..k]));
        return false;
      }
    }
    return true;
  }

  lemma NothingPassedOn(w: World, dst: Id)
    ensures Sound(w) ==> PassedOn(w, w, dst, ToSet([]))
  {
  }

  lemma WidenViews(w0: World, w: World, src: Id, dst: Id, S: set<Slot>, T: set<Slot>)
    requires ViewsKept(w0, w, src, dst, S) && S <= T
    ensures ViewsKept(w0, w, src, dst, T)
  {
  }

  // ---------- the two-pointer loop ----------

  ghost predicate HasIds(ns: seq<Node>, ids: seq<Id>) {
    |ids| == |ns| && forall i :: 0 <= i < |ns| ==> ids[i] == ns[i].ID
  }

  /** Masters that started with a surplus still list enough slots, all of which they serve. */
  ghost predicate SourcesReady(ns: seq<Node>, start: seq<int>, bs: seq<int>, w: World)
    requires |ns| == |start| == |bs|
    reads ns
  {
    forall i :: 0 <= i < |ns| && start[i] > 0 ==>
      && NoDup(ns[i].Slots) && |ns[i].Slots| >= bs[i]
      && forall s :: s in ns[i].Slots ==> Claims(w, ns[i].ID, s)
  }

  /** The masters' true slot counts have followed their balances. */
  ghost predicate CountsFollow(w0: World, w: World, ids: seq<Id>, start: seq<int>, bs: seq<int>) {
    && |ids| == |start| == |bs|
    && SameContents(w0, w) && w.nodes == w0.nodes && w.replicaOf == w0.replicaOf
    && w.importing.Keys <= w0.importing.Keys && w.migrating.Keys <= w0.migrating.Keys
    && (forall i :: 0 <= i < |ids| ==> |Owned(w, ids[i])| == |Owned(w0, ids[i])| - start[i] + bs[i])
    && (forall x, t: Slot :: x !in ids ==> (Claims(w, x, t) <==> Claims(w0, x, t)))
  }

  ghost predicate AllClear(admin: Admin, w0: World, ids: seq<Id>) {
    admin.reliable && Sound(w0) && forall i :: 0 <= i < |ids| ==> IsMaster(w0, ids[i])
  }

  lemma PassedOnCounts(w: World, w': World, src: Id, dst: Id, moved: seq<Slot>)
    requires Sound(w) && src != dst && NoDup(moved) && forall s :: s in moved ==> Claims(w, src, s)
    requires PassedOn(w, w', dst, ToSet(moved))
    ensures |Owned(w', src)| == |Owned(w, src)| - |moved|
    ensures |Owned(w', dst)| == |Owned(w, dst)| + |moved|
    ensures forall x :: x != src && x != dst ==> Owned(w', x) == Owned(w, x)
  {
    var S := ToSet(moved);
    NoDupCard(moved);
    AllSlotsCard(w.n);
    assert S <= Owned(w, src);
    assert Owned(w', src) == Owned(w, src) - S;
    assert Owned(w', dst) == Owned(w, dst) + S;
    assert Owned(w, dst) !! S;
    forall x | x != src && x != dst ensures Owned(w', x) == Owned(w, x) {
      assert forall s :: s in S ==> Claims(w, src, s) && !Claims(w, x, s);
    }
  }

  lemma RoundCounts(w0: World, w: World, w': World, ids: seq<Id>, start: seq<int>, bs: seq<int>, dst: nat, src: nat, moved: seq<Slot>)
    requires CountsFollow(w0, w, ids, start, bs) && dst < src < |ids|
    requires forall i, j :: 0 <= i < j < |ids| ==> ids[i] != ids[j]
    requires NoDup(moved) && |moved| == Moved(bs, dst, src) && bs[dst] <= 0 <= bs[src]
    requires forall s :: s in moved ==> Claims(w, ids[src], s)
    requires PassedOn(w, w', ids[dst], ToSet(moved))
    ensures CountsFollow(w0, w', ids, start, After(bs, dst, src))
  {
    PassedOnCounts(w, w', ids[src], ids[dst], moved);
    SameContentsTransitive(w0, w, w');
    forall i | 0 <= i < |ids|
      ensures |Owned(w', ids[i])| == |Owned(w0, ids[i])| - start[i] + After(bs, dst, src)[i]
    {
      if i != src && i != dst {
        assert Owned(w', ids[i]) == Owned(w, ids[i]);
      }
    }
    forall x, t: Slot | x !in ids ensures Claims(w', x, t) <==> Claims(w0, x, t) {
      assert ids[src] in ids && ids[dst] in ids;
      if t in ToSet(moved) {
        assert Claims(w, ids[src], t);
      }
    }
  }

  lemma RoundSources(ns: seq<Node>, start: seq<int>, w: World, w': World, dst: nat, src: nat, slots: seq<Slot>, k: nat)
    requires |ns| == |start| && DistinctNodes(ns) && dst < src < |ns| && start[dst] < 0 && k <= |slots| && NoDup(slots)
    requires ViewsKept(w, w', ns[src].ID, ns[dst].ID, ToSet(slots[..k]))
    ensures forall i, s: Slot :: 0 <= i < |ns| && i != src && start[i] > 0 && Claims(w, ns[i].ID, s) ==> Claims(w', ns[i].ID, s)
    ensures forall s: Slot :: s in slots[k..] && Claims(w, ns[src].ID, s) ==> Claims(w', ns[src].ID, s)
    ensures NoDup(slots[k..]) && NoDup(slots[..k])
  {
    forall i, s: Slot | 0 <= i < |ns| && i != src && start[i] > 0 && Claims(w, ns[i].ID, s) ensures Claims(w', ns[i].ID, s) {
      assert i != dst && ns[i].ID != ns[src].ID && ns[i].ID != ns[dst].ID;
      assert View(w', ns[i].ID, s) == View(w, ns[i].ID, s);
    }
    forall s: Slot | s in slots[k..] && Claims(w, ns[src].ID, s) ensures Claims(w', ns[src].ID, s) {
      assert s !in slots[..k];
      assert View(w', ns[src].ID, s) == View(w, ns[src].ID, s);
    }
  }

  /** What masters that started with a surplus still list is as it was in w0. */
  ghost predicate SourcesUntouched(ns: seq<Node>, start: seq<int>, w0: World, w: World)
    requires |ns| == |start|
    reads ns
  {
    Sound(w0) && forall i :: 0 <= i < |ns| && start[i] > 0 ==> ListsUntouched(w0, w, ns[i].ID, ns[i].Slots)
  }

  ghost predicate AllHere(w: World, ids: seq<Id>) {
    forall i :: 0 <= i < |ids| ==> ids[i] in w.nodes
  }

  lemma NotShared(w: World, a: Id, b: Id, s: Slot)
    requires Sound(w) && Claims(w, a, s) && a != b
    ensures !Claims(w, b, s)
  {
  }

  lemma RoundUntouched(ns: seq<Node>, start: seq<int>, w0: World, w: World, w': World, src: nat, slots: seq<Slot>, k: nat)
    requires |ns| == |start| && DistinctNodes(ns) && src < |ns| && k <= |slots| && NoDup(slots) && Sound(w0)
    requires ListsUntouched(w0, w, ns[src].ID, slots) && ns[src].Slots == slots[k..] && OnlyTouched(w, w', ToSet(slots[..k]))
    requires forall i :: 0 <= i < |ns| && i != src && start[i] > 0 ==> ListsUntouched(w0, w, ns[i].ID, ns[i].Slots)
    ensures SourcesUntouched(ns, start, w0, w')
  {
    forall i | 0 <= i < |ns| && start[i] > 0 ensures ListsUntouched(w0, w', ns[i].ID, ns[i].Slots) {
      forall s | s in ns[i].Slots ensures s !in ToSet(slots[..k]) {
        if i != src {
          NotShared(w0, ns[i].ID, ns[src].ID, s);
        }
      }
      StillUntouched(w0, w, w', ns[i].ID, ns[i].Slots, ToSet(slots[..k]));
    }
  }

  /** The moves of one round, between two different masters. */
  method MoveRound(admin: Admin, ns: seq<Node>, dst: nat, src: nat, source: Node, numSlots: nat,
                   ghost w0: World, ghost ids: seq<Id>, ghost start: seq<int>, ghost bs: seq<int>)
    returns (ok: bool)
    requires DistinctNodes(ns) && HasIds(ns, ids) && |ns| == |start| == |bs| && dst < src < |ns|
    requires source == ns[src]
    requires 0 < numSlots == Moved(bs, dst, src) <= bs[src] && bs[dst] <= 0 && start[dst] < 0 < start[src]
    requires SourcesReady(ns, start, bs, admin.world) && SourcesUntouched(ns, start, w0, admin.world)
    requires AllClear(admin, w0, ids) ==> CountsFollow(w0, admin.world, ids, start, bs)
    modifies admin, source`Slots
    ensures old(admin.hist) <= admin.hist
    ensures AllHere(w0, ids) && KeepsKeys(w0, old(admin.world)) ==>
              KeepsKeys(w0, admin.world) && AllKeepKeys(w0, admin.hist, |old(admin.hist)|)
    ensures ok ==> SourcesReady(ns, start, After(bs, dst, src), admin.world) && SourcesUntouched(ns, start, w0, admin.world)
    ensures AllClear(admin, w0, ids) ==>
              && ok && CountsFollow(w0, admin.world, ids, start, After(bs, dst, src))
              && AllIntact(w0, admin.hist, |old(admin.hist)|)
  {
    ghost var w, slots := admin.world, source.Slots;
    ok := MoveTable(admin, source, ns[dst], numSlots, w0);
    RoundSources(ns, start, w, admin.world, dst, src, slots, numSlots);
    if ok {
      RoundUntouched(ns, start, w0, w, admin.world, src, slots, numSlots);
    }
    if AllClear(admin, w0, ids) {
      RoundCounts(w0, w, admin.world, ids, start, bs, dst, src, slots[..numSlots]);
      forall i | |old(admin.hist)| <= i < |admin.hist| ensures Intact(w0, admin.hist[i]) {
        IntactLater(w0, w, admin.hist[i]);
      }
    }
  }

  /** rebalance.go lines 48 to 75: move between the two ends and settle their balances. */
  method Round(admin: Admin, ns: seq<Node>, dst: nat, src: nat,
               ghost w0: World, ghost ids: seq<Id>, ghost start: seq<int>, ghost bs: seq<int>)
    returns (ok: bool)
    requires DistinctNodes(ns) && HasIds(ns, ids) && HasBalances(ns, bs) && Window(start, bs, dst, src) && dst < src
    requires SourcesReady(ns, start, bs, admin.world) && SourcesUntouched(ns, start, w0, admin.world)
    requires AllClear(admin, w0, ids) ==> CountsFollow(w0, admin.world, ids, start, bs)
    modifies admin, ns`Slots, ns`balance
    ensures old(admin.hist) <= admin.hist
    ensures AllHere(w0, ids) && KeepsKeys(w0, old(admin.world)) ==>
              KeepsKeys(w0, admin.world) && AllKeepKeys(w0, admin.hist, |old(admin.hist)|)
    ensures ok ==> HasBalances(ns, After(bs, dst, src)) && SourcesReady(ns, start, After(bs, dst, src), admin.world)
    ensures ok ==> SourcesUntouched(ns, start, w0, admin.world)
    ensures AllClear(admin, w0, ids) ==>
              && ok && CountsFollow(w0, admin.world, ids, start, After(bs, dst, src))
              && AllIntact(w0, admin.hist, |old(admin.hist)|)
  {
    EndsOpposed(start, bs, dst, src);
    WindowShrinks(start, bs, dst, src);
    var numSlots := Min(Abs(ns[dst].balance), Abs(ns[src].balance));
    if numSlots > 0 {
      ok := MoveRound(admin, ns, dst, src, ns[src], numSlots, w0, ids, start, bs);
      if !ok {
        return;
      }
    } else {
      ok := true;
      assert After(bs, dst, src) == bs;
    }
    SettleEnds(ns, dst, src, numSlots, bs);
  }

  method SettleEnds(ns: seq<Node>, dst: nat, src: nat, numSlots: int, ghost bs: seq<int>)
    requires DistinctNodes(ns) && HasBalances(ns, bs) && dst < src < |ns| && numSlots == Moved(bs, dst, src)
    modifies ns`balance
    ensures HasBalances(ns, After(bs, dst, src))
  {
    assert ns[dst] != ns[src];
    ns[dst].balance := ns[dst].balance + numSlots;
    ns[src].balance := ns[src].balance - numSlots;
  }

  lemma IntactLater(w0: World, w: World, h: World)
    requires SameContents(w0, w) && Intact(w, h)
    ensures Intact(w0, h)
  {
  }

  ghost function Zeros(n: nat): seq<int> {
    seq(n, _ => 0)
  }

  lemma LoopEnds(w0: World, w: World, ids: seq<Id>, start: seq<int>, bs: seq<int>, dst: int, src: int)
    requires Window(start, bs, dst, src) && dst >= src
    ensures bs == Zeros(|start|)
  {
    AllBalanced(start, bs, dst, src);
  }

  lemma HistoriesJoin(w0: World, h: seq<World>, h': seq<World>, from: nat)
    requires from <= |h| && h <= h'
    ensures AllIntact(w0, h, from) && AllIntact(w0, h', |h|) ==> AllIntact(w0, h', from)
    ensures AllKeepKeys(w0, h, from) && AllKeepKeys(w0, h', |h|) ==> AllKeepKeys(w0, h', from)
  {
    assert forall i :: 0 <= i < |h| ==> h'[i] == h[i];
  }

  /** rebalance.go lines 44 to 82. */
  method MoveByBalance(admin: Admin, ns: seq<Node>, ghost ids: seq<Id>, ghost start: seq<int>) returns (ok: bool)
    requires DistinctNodes(ns) && HasIds(ns, ids) && HasBalances(ns, start) && Ascends(start) && Sum(start) == 0
    requires SourcesReady(ns, start, start, admin.world) && Sound(admin.world)
    modifies admin, ns`Slots, ns`balance
    ensures old(admin.hist) <= admin.hist
    ensures AllHere(old(admin.world), ids) ==>
              KeepsKeys(old(admin.world), admin.world) && AllKeepKeys(old(admin.world), admin.hist, |old(admin.hist)|)
    ensures ok ==> HasBalances(ns, Zeros(|ns|))
    ensures AllClear(admin, old(admin.world), ids) ==>
              && ok && CountsFollow(old(admin.world), admin.world, ids, start, Zeros(|ns|))
              && AllIntact(old(admin.world), admin.hist, |old(admin.hist)|)
  {
    ghost var w0, bs := admin.world, start;
    var dstIdx, srcIdx := 0, |ns| - 1;
    WindowAtStart(start);
    SameContentsIntact(w0, w0);
    while dstIdx < srcIdx
      invariant old(admin.hist) <= admin.hist
      invariant HasBalances(ns, bs) && Window(start, bs, dstIdx, srcIdx)
      invariant SourcesReady(ns, start, bs, admin.world) && SourcesUntouched(ns, start, w0, admin.world)
      invariant AllHere(w0, ids) ==> KeepsKeys(w0, admin.world) && AllKeepKeys(w0, admin.hist, |old(admin.hist)|)
      invariant AllClear(admin, w0, ids) ==>
                  CountsFollow(w0, admin.world, ids, start, bs) && AllIntact(w0, admin.hist, |old(admin.hist)|)
      decreases srcIdx - dstIdx
    {
      var dst, src := ns[dstIdx], ns[srcIdx];
      ghost var next := After(bs, dstIdx, srcIdx);
      WindowShrinks(start, bs, dstIdx, srcIdx);
      ghost var hist := admin.hist;
      ok := Round(admin, ns, dstIdx, srcIdx, w0, ids, start, bs);
      HistoriesJoin(w0, hist, admin.hist, |old(admin.hist)|);
      if !ok {
        return;
      }
      assert dst.balance == next[dstIdx] && src.balance == next[srcIdx];
      if dst.balance == 0 {
        dstIdx := dstIdx + 1;
      }
      if src.balance == 0 {
        srcIdx := srcIdx - 1;
      }
      bs := next;
    }
    LoopEnds(w0, admin.world, ids, start, bs, dstIdx, srcIdx);
    return true;
  }

  // ---------- RebalancedCluster ----------

  function BalancesOf(ns: seq<Node>): (r: seq<int>)
    reads ns
    ensures |r| == |ns|
    ensures forall i :: 0 <= i < |ns| ==> r[i] == ns[i].balance
  {
    if ns == [] then [] else BalancesOf(ns[..|ns| - 1]) + [ns[|ns| - 1].balance]
  }

  /** Each count minus the floor of n / m. */
  function Surplus(counts: seq<int>, n: nat): seq<int>
    requires counts != []
  {
    seq(|counts|, i requires 0 <= i < |counts| => counts[i] - n / |counts|)
  }

  /** What the i-th of the masters holds in the end. */
  function FairCount(counts: seq<int>, n: nat, i: nat): int
    requires i < |counts|
  {
    n / |counts| + Share(Surplus(counts, n), n % |counts|, i)
  }

  /** The fair counts of the first k masters. */
  function FairCounts(counts: seq<int>, n: nat, k: nat): (r: seq<int>)
    requires k <= |counts|
    ensures |r| == k
  {
    if k == 0 then [] else FairCounts(counts, n, k - 1) + [FairCount(counts, n, k - 1)]
  }

  lemma {:induction false} FairCountsAt(counts: seq<int>, n: nat, k: nat, j: nat)
    requires j < k <= |counts|
    ensures FairCounts(counts, n, k)[j] == FairCount(counts, n, j) >= 0
  {
    FairCountIsNatural(counts, n, j);
    if j < k - 1 {
      FairCountsAt(counts, n, k - 1, j);
    }
  }

  lemma FairCountIsNatural(counts: seq<int>, n: nat, j: nat)
    requires j < |counts|
    ensures FairCount(counts, n, j) >= 0
  {
  }

  /** Some master is short of slots, unless n divides evenly. */
  ghost predicate CanSpread(counts: seq<int>, n: nat) {
    counts != [] && n % |counts| > 0 ==> exists i :: 0 <= i < |counts| && counts[i] < n / |counts|
  }

  /**
   * A master that held the floor or more ends with exactly the floor; the d masters that
   * held less share the remainder r, the first r mod d of them getting one slot more.
   */
  lemma FairCountIs(counts: seq<int>, n: nat, i: nat)
    requires i < |counts|
    ensures counts[i] >= n / |counts| ==> FairCount(counts, n, i) == n / |counts|
    ensures counts[i] < n / |counts| ==>
              var d, r := Deficits(Surplus(counts, n), |counts|), n % |counts|;
              && d > 0
              && FairCount(counts, n, i) == n / |counts| + r / d + if Deficits(Surplus(counts, n), i) < r % d then 1 else 0
  {
    if counts[i] < n / |counts| {
      DeficitCounts(Surplus(counts, n), i + 1, |counts|);
    }
  }

  lemma SurplusSum(counts: seq<int>, n: nat)
    requires counts != [] && Sum(counts) == n
    ensures Sum(Surplus(counts, n)) == n % |counts|
  {
    SumShift(counts, Surplus(counts, n), n / |counts|);
    DivMod(n, |counts|);
  }

  ghost predicate HasCounts(ns: seq<Node>, counts: seq<int>)
    reads ns
  {
    |counts| == |ns| && forall i :: 0 <= i < |ns| ==> counts[i] == |ns[i].Slots|
  }

  /** rebalance.go lines 13 to 22. */
  method SetBalances(masters: seq<Node>, n: nat, ghost counts: seq<int>) returns (total: int)
    requires NoDup(masters) && masters != [] && HasCounts(masters, counts)
    modifies masters`balance
    ensures HasBalances(masters, Surplus(counts, n)) && total == Sum(Surplus(counts, n))
  {
    ghost var bs := Surplus(counts, n);
    for i := 0 to |masters|
      invariant forall j :: 0 <= j < i ==> masters[j].balance == bs[j]
    {
      masters[i].balance := |masters[i].Slots| - n / |masters|;
    }
    total := TotalBalance(masters, bs);
  }

  /** rebalance.go lines 19 to 22. */
  method TotalBalance(masters: seq<Node>, ghost bs: seq<int>) returns (total: int)
    requires HasBalances(masters, bs)
    ensures total == Sum(bs)
  {
    total := 0;
    for i := 0 to |masters|
      invariant total == Sum(bs[..i])
    {
      assert bs[..i + 1] == bs[..i] + [bs[i]];
      SumSnoc(bs[..i], bs[i]);
      total := total + masters[i].balance;
    }
    assert bs[..|masters|] == bs;
  }

  ghost predicate AllTruthful(ns: seq<Node>, w: World)
    reads ns
  {
    forall i :: 0 <= i < |ns| ==> Truthful(w, ns[i].ID, ns[i].Slots)
  }

  lemma RearrangedDistinct(ms: seq<Node>, keys: seq<int>, ns: seq<Node>, start: seq<int>, perm: seq<int>)
    requires DistinctNodes(ms) && Rearranged(ms, keys, ns, start, perm)
    ensures DistinctNodes(ns)
  {
    forall i, j | 0 <= i < j < |ns| ensures ns[i] != ns[j] && ns[i].ID != ns[j].ID {
      var a, b := perm[i], perm[j];
      assert a != b && ns[i] == ms[a] && ns[j] == ms[b];
    }
  }

  lemma RearrangedReady(ms: seq<Node>, counts: seq<int>, keys: seq<int>, ns: seq<Node>, start: seq<int>, perm: seq<int>, w: World)
    requires HasBalances(ms, keys) && HasCounts(ms, counts) && AllTruthful(ms, w)
    requires Rearranged(ms, keys, ns, start, perm)
    requires forall i :: 0 <= i < |keys| ==> keys[i] <= counts[i]
    ensures HasBalances(ns, start) && SourcesReady(ns, start, start, w)
  {
    forall i | 0 <= i < |ns| ensures ns[i].balance == start[i] && start[i] <= |ns[i].Slots| && Truthful(w, ns[i].ID, ns[i].Slots) {
      var a := perm[i];
      assert ns[i] == ms[a] && start[i] == keys[a];
    }
  }

  ghost function IdsOf(ns: seq<Node>): (ids: seq<Id>)
    ensures HasIds(ns, ids)
  {
    seq(|ns|, i requires 0 <= i < |ns| => ns[i].ID)
  }

  /** Every master holds what the counts of the sorted masters say of it. */
  lemma CountsInOrder(ms: seq<Node>, counts: seq<int>, keys: seq<int>, ns: seq<Node>, start: seq<int>, perm: seq<int>,
                      ids: seq<Id>, w0: World, w: World, j: nat)
    requires Rearranged(ms, keys, ns, start, perm) && HasIds(ns, ids) && j < |ms| == |counts|
    requires CountsFollow(w0, w, ids, start, Zeros(|start|))
    requires |Owned(w0, ms[j].ID)| == counts[j]
    ensures |Owned(w, ms[j].ID)| == counts[j] - keys[j]
  {
    assert j in perm;
    var i :| 0 <= i < |perm| && perm[i] == j;
    assert ns[i] == ms[j] && start[i] == keys[j] && ids[i] == ms[j].ID;
  }

  lemma TruthfulCount(w: World, a: Id, slots: seq<Slot>)
    requires Sound(w) && Truthful(w, a, slots)
    ensures |Owned(w, a)| == |slots|
  {
    NoDupCard(slots);
    AllSlotsCard(w.n);
    assert Owned(w, a) == ToSet(slots);
  }

  /** The masters' true slot counts are exactly the given ones; no other node's claims changed. */
  ghost predicate Balanced(w0: World, w: World, ms: seq<Node>, final: seq<int>) {
    && SameContents(w0, w) && w.nodes == w0.nodes && w.replicaOf == w0.replicaOf
    && w.importing.Keys <= w0.importing.Keys && w.migrating.Keys <= w0.migrating.Keys
    && |final| == |ms|
    && (forall j :: 0 <= j < |ms| ==> |Owned(w, ms[j].ID)| == final[j])
    && (forall x, t: Slot :: (forall j :: 0 <= j < |ms| ==> x != ms[j].ID) ==> (Claims(w, x, t) <==> Claims(w0, x, t)))
  }

  /** How the balances to be settled, the counts and the final counts belong together. */
  ghost predicate Settles(counts: seq<int>, keys: seq<int>, final: seq<int>) {
    |counts| == |keys| == |final| && forall j :: 0 <= j < |counts| ==> final[j] >= 0 && keys[j] == counts[j] - final[j]
  }

  ghost predicate AllMasters(w: World, ms: seq<Node>) {
    forall i :: 0 <= i < |ms| ==> IsMaster(w, ms[i].ID)
  }

  lemma BalancedAtLast(ms: seq<Node>, counts: seq<int>, keys: seq<int>, final: seq<int>, ns: seq<Node>, start: seq<int>,
                       perm: seq<int>, ids: seq<Id>, w0: World, w: World)
    requires Rearranged(ms, keys, ns, start, perm) && HasIds(ns, ids) && Settles(counts, keys, final)
    requires CountsFollow(w0, w, ids, start, Zeros(|start|))
    requires forall j :: 0 <= j < |ms| ==> |Owned(w0, ms[j].ID)| == counts[j]
    ensures Balanced(w0, w, ms, final)
  {
    forall j | 0 <= j < |ms| ensures |Owned(w, ms[j].ID)| == final[j] {
      CountsInOrder(ms, counts, keys, ns, start, perm, ids, w0, w, j);
    }
    forall x, t: Slot | forall j :: 0 <= j < |ms| ==> x != ms[j].ID
      ensures Claims(w, x, t) <==> Claims(w0, x, t)
    {
      forall i | 0 <= i < |ids| ensures ids[i] != x {
        assert ns[i] == ms[perm[i]];
      }
    }
  }

  /** SortByFunc by balance, and what the two-pointer loop needs to know about the result. */
  method SortByBalance(ms: seq<Node>, ghost counts: seq<int>, ghost keys: seq<int>, ghost final: seq<int>, ghost w: World)
    returns (ns: seq<Node>, ghost ids: seq<Id>, ghost start: seq<int>)
    requires DistinctNodes(ms) && HasBalances(ms, keys) && HasCounts(ms, counts) && AllTruthful(ms, w)
    requires Sound(w) && Sum(keys) == 0 && Settles(counts, keys, final)
    ensures DistinctNodes(ns) && HasIds(ns, ids) && HasBalances(ns, start) && Ascends(start) && Sum(start) == 0
    ensures SourcesReady(ns, start, start, w)
    ensures forall i :: 0 <= i < |ns| ==> ns[i] in ms
    ensures AllMasters(w, ms) ==> forall i :: 0 <= i < |ids| ==> IsMaster(w, ids[i])
    ensures (forall i :: 0 <= i < |ms| ==> ms[i].ID in w.nodes) ==> AllHere(w, ids)
    ensures forall w' :: CountsFollow(w, w', ids, start, Zeros(|start|)) ==> Balanced(w, w', ms, final)
  {
    SameBalances(ms, keys);
    ghost var perm;
    ns, start, perm := SortByKey(ms, BalancesOf(ms));
    ids := IdsOf(ns);
    SumPermutation(keys, start);
    RearrangedDistinct(ms, keys, ns, start, perm);
    RearrangedReady(ms, counts, keys, ns, start, perm, w);
    SortedFacts(ms, keys, ns, start, perm, ids, w);
    BalancedAnyway(ms, counts, keys, final, ns, start, perm, ids, w);
  }

  lemma BalancedAnyway(ms: seq<Node>, counts: seq<int>, keys: seq<int>, final: seq<int>, ns: seq<Node>, start: seq<int>,
                       perm: seq<int>, ids: seq<Id>, w: World)
    requires Sound(w) && HasCounts(ms, counts) && AllTruthful(ms, w) && Settles(counts, keys, final)
    requires Rearranged(ms, keys, ns, start, perm) && HasIds(ns, ids)
    ensures forall w' :: CountsFollow(w, w', ids, start, Zeros(|start|)) ==> Balanced(w, w', ms, final)
  {
    forall j | 0 <= j < |ms| ensures |Owned(w, ms[j].ID)| == counts[j] {
      TruthfulCount(w, ms[j].ID, ms[j].Slots);
    }
    forall w' | CountsFollow(w, w', ids, start, Zeros(|start|)) ensures Balanced(w, w', ms, final) {
      BalancedAtLast(ms, counts, keys, final, ns, start, perm, ids, w, w');
    }
  }

  lemma SpreadSettles(counts: seq<int>, n: nat)
    requires counts != []
    ensures Settles(counts, Spread(Surplus(counts, n), n % |counts|), FairCounts(counts, n, |counts|))
  {
    var keys := Spread(Surplus(counts, n), n % |counts|);
    forall j | 0 <= j < |counts| ensures keys[j] == counts[j] - FairCounts(counts, n, |counts|)[j] && FairCounts(counts, n, |counts|)[j] >= 0 {
      FairCountsAt(counts, n, |counts|, j);
    }
  }

  /** rebalance.go lines 13 to 32: the balances that remain to be settled. */
  method PrepareBalances(masters: seq<Node>, n: nat, ghost counts: seq<int>) returns (ghost keys: seq<int>)
    requires NoDup(masters) && masters != [] && HasCounts(masters, counts) && Sum(counts) == n && CanSpread(counts, n)
    modifies masters`balance
    ensures HasBalances(masters, keys) && Sum(keys) == 0
    ensures Settles(counts, keys, FairCounts(counts, n, |counts|))
  {
    var total := SetBalances(masters, n, counts);
    ghost var surplus := Surplus(counts, n);
    SurplusSum(counts, n);
    if total > 0 {
      ghost var i :| 0 <= i < |counts| && counts[i] < n / |counts|;
      assert surplus[i] < 0;
    }
    SpreadRemainder(masters, total, surplus);
    SpreadSum(surplus, n % |counts|);
    SpreadSettles(counts, n);
    keys := Spread(surplus, n % |counts|);
  }

  /**
   * The whole rebalancing. It ends, whatever fails, and no key is lost at any instant as long
   * as all masters are part of the cluster. If no command is lost it succeeds: every
   * key stays with its slot's owner, at every instant every slot is served and no key is
   * lost, and each master ends up with its fair count.
   */
  method RebalancedCluster(admin: Admin, masters: seq<Node>, ghost counts: seq<int>) returns (ok: bool)
    requires DistinctNodes(masters) && HasCounts(masters, counts) && AllTruthful(masters, admin.world)
    requires Sound(admin.world) && Sum(counts) == admin.world.n && CanSpread(counts, admin.world.n)
    modifies admin, masters`Slots, masters`balance
    ensures old(admin.hist) <= admin.hist
    ensures (forall i :: 0 <= i < |masters| ==> masters[i].ID in old(admin.world).nodes) ==>
              KeepsKeys(old(admin.world), admin.world) && AllKeepKeys(old(admin.world), admin.hist, |old(admin.hist)|)
    ensures admin.reliable && AllMasters(old(admin.world), masters) ==>
              && ok && Balanced(old(admin.world), admin.world, masters, FairCounts(counts, old(admin.world).n, |counts|))
              && AllIntact(old(admin.world), admin.hist, |old(admin.hist)|)
  {
    SameContentsIntact(admin.world, admin.world);
    if masters == [] {
      return true;
    }
    ghost var w0, n := admin.world, admin.world.n;
    ghost var keys := PrepareBalances(masters, admin.world.n, counts);
    ghost var final := FairCounts(counts, n, |counts|);
    var sn;
    ghost var ids, start;
    sn, ids, start := SortByBalance(masters, counts, keys, final, w0);
    ok := MoveByBalance(admin, sn, ids, start);
  }

  lemma SameBalances(ms: seq<Node>, keys: seq<int>)
    requires HasBalances(ms, keys)
    ensures BalancesOf(ms) == keys
  {
  }

  lemma SortedFacts(ms: seq<Node>, keys: seq<int>, ns: seq<Node>, start: seq<int>, perm: seq<int>, ids: seq<Id>, w: World)
    requires Rearranged(ms, keys, ns, start, perm) && HasIds(ns, ids)
    ensures forall i :: 0 <= i < |ns| ==> ns[i] in ms
    ensures AllMasters(w, ms) ==> forall i :: 0 <= i < |ids| ==> IsMaster(w, ids[i])
    ensures (forall i :: 0 <= i < |ms| ==> ms[i].ID in w.nodes) ==> AllHere(w, ids)
  {
    forall i | 0 <= i < |ns|
      ensures ns[i] in ms && (AllMasters(w, ms) ==> IsMaster(w, ids[i]))
      ensures (forall j :: 0 <= j < |ms| ==> ms[j].ID in w.nodes) ==> ids[i] in w.nodes
    {
      assert ns[i] == ms[perm[i]];
    }
  }
}
