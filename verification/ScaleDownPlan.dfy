/**
 * The scale-down plan of pkg/controller/clustering/migration.go: which slots leave which
 * master, and which master receives them. Go iterates over its maps in no particular order;
 * here the next key is any key left, so what is proved holds for every order.
 */
module ScaleDownPlan {
  import opened Basics
  import opened SlotLists
  import opened RedisWorld
  import opened Nodes
  import opened Filling
  import Sorting

  // ---------- retrieveLostSlots ----------

  ghost predicate HeldByAny(ns: seq<Node>, s: Slot)
    reads ns
  {
    exists i :: 0 <= i < |ns| && s in ns[i].Slots
  }

  method AppendRange(slots: seq<Slot>, from: int, to: Slot) returns (r: seq<Slot>)
    requires 0 <= from
    ensures r == slots + if from < to then Interval(from, to - 1) else []
  {
    r := slots;
    var i := from;
    while i < to
      invariant from <= i <= Max(from, to)
      invariant |r| == |slots| + i - from && slots <= r
      invariant forall k :: |slots| <= k < |r| ==> r[k] == from + k - |slots|
    {
      r := r + [i];
      i := i + 1;
    }
  }

  /** lost lists, in order, what is missing from full up to last. */
  ghost predicate MissingUpTo(lost: seq<Slot>, full: seq<Slot>, last: int) {
    StrictlyAscending(lost) && forall s: Slot :: s in lost <==> s <= last && s !in full
  }

  lemma MissingGrows(lost: seq<Slot>, full: seq<Slot>, last: Slot, next: Slot, more: seq<Slot>)
    requires MissingUpTo(lost, full, last) && last <= next
    requires more == if last + 1 < next then Interval(last + 1, next - 1) else []
    requires forall s: Slot :: last < s < next ==> s !in full
    ensures MissingUpTo(lost + more, full, next - 1) || next == last
    ensures next in full ==> MissingUpTo(lost + more, full, next)
  {
    forall s: Slot | last < s < next ensures s in more {
      assert more[s - last - 1] == s;
    }
    forall i, j | 0 <= i < j < |lost + more| ensures (lost + more)[i] < (lost + more)[j] {
      if i < |lost| <= j {
        assert lost[i] in lost;
      }
    }
  }

  /** migration.go lines 267 to 272: everything the old masters list, sorted. */
  method SortedHoldings(olds: seq<Node>) returns (full: seq<Slot>)
    ensures Sorting.SortedBy(Less, full)
    ensures forall s: Slot :: s in full <==> HeldByAny(olds, s)
  {
    var held: seq<Slot> := [];
    for i := 0 to |olds|
      invariant forall s: Slot :: s in held <==> HeldByAny(olds[..i], s)
    {
      HeldByOneMore(olds, i);
      held := held + olds[i].Slots;
    }
    assert olds[..|olds|] == olds;
    LessIsOrder();
    full := Sorting.SortByFunc(held, Less);
    Sorting.PermutationKeepsMembers(held, full);
    forall s: Slot ensures s in full <==> s in held {
      assert s in ToSet(full) <==> s in ToSet(held);
    }
  }

  /** The gap before next, a member of full. */
  method FillGap(lost: seq<Slot>, ghost full: seq<Slot>, last: Slot, next: Slot) returns (r: seq<Slot>)
    requires MissingUpTo(lost, full, last) && last <= next
    requires forall s: Slot :: last < s < next ==> s !in full
    ensures next in full ==> MissingUpTo(r, full, next)
    ensures last < next ==> MissingUpTo(r, full, next - 1)
    ensures last == next ==> r == lost
  {
    r := AppendRange(lost, last + 1, next);
    MissingGrows(lost, full, last, next, if last + 1 < next then Interval(last + 1, next - 1) else []);
  }

  /** migration.go lines 273 to 289: the gaps of a sorted list. */
  method FindGaps(full: seq<Slot>, nbSlots: Slot) returns (lost: seq<Slot>)
    requires Sorting.SortedBy(Less, full) && forall i :: 0 <= i < |full| ==> full[i] < nbSlots
    ensures nbSlots > 0 ==> MissingUpTo(lost, full, nbSlots - 1)
    ensures nbSlots == 0 ==> lost == [0]
  {
    lost := if full == [] || full[0] != 0 then [0] else [];
    FirstMissing(full, lost);
    var last: Slot := 0;
    for i := 0 to |full|
      invariant last == if i == 0 then 0 else full[i - 1]
      invariant MissingUpTo(lost, full, last)
      invariant full == [] ==> lost == [0]
    {
      NothingBetween(full, i);
      lost := FillGap(lost, full, last, full[i]);
      last := full[i];
    }
    NothingAfter(full);
    lost := FillGap(lost, full, last, nbSlots);
  }

  /**
   * The slots of 0 .. nbSlots - 1 that no old master holds, in order; held slots may be
   * listed several times. Without any slots at all the original still reports slot 0.
   */
  method RetrieveLostSlots(olds: seq<Node>, nbSlots: Slot) returns (lost: seq<Slot>)
    requires forall s: Slot :: HeldByAny(olds, s) ==> s < nbSlots
    ensures nbSlots > 0 ==> StrictlyAscending(lost) && forall s: Slot :: s in lost <==> s < nbSlots && !HeldByAny(olds, s)
    ensures nbSlots == 0 ==> lost == [0]
  {
    var full := SortedHoldings(olds);
    forall i | 0 <= i < |full| ensures full[i] < nbSlots {
      assert full[i] in full;
    }
    lost := FindGaps(full, nbSlots);
  }

  lemma HeldByOneMore(ns: seq<Node>, i: nat)
    requires i < |ns|
    ensures forall s: Slot :: HeldByAny(ns[..i + 1], s) <==> HeldByAny(ns[..i], s) || s in ns[i].Slots
  {
    forall s: Slot ensures HeldByAny(ns[..i + 1], s) <==> HeldByAny(ns[..i], s) || s in ns[i].Slots {
      if HeldByAny(ns[..i], s) {
        var k :| 0 <= k < i && s in ns[..i][k].Slots;
        assert ns[..i + 1][k] == ns[k];
      }
      if s in ns[i].Slots {
        assert ns[..i + 1][i] == ns[i];
      }
      if HeldByAny(ns[..i + 1], s) {
        var k :| 0 <= k < i + 1 && s in ns[..i + 1][k].Slots;
        assert k < i ==> ns[..i][k] == ns[k];
      }
    }
  }

  lemma FirstMissing(full: seq<Slot>, lost: seq<Slot>)
    requires Sorting.SortedBy(Less, full)
    requires lost == if full == [] || full[0] != 0 then [0] else []
    ensures MissingUpTo(lost, full, 0)
  {
    if full != [] && full[0] != 0 {
      forall i | 0 <= i < |full| ensures full[i] != 0 {
        assert i > 0 ==> !Less(full[i], full[0]);
      }
    }
  }

  lemma NothingBetween(full: seq<Slot>, i: nat)
    requires Sorting.SortedBy(Less, full) && i < |full|
    ensures forall s: Slot :: (if i == 0 then 0 else full[i - 1]) < s < full[i] ==> s !in full
    ensures (if i == 0 then 0 else full[i - 1]) <= full[i]
  {
    forall k | 0 <= k < |full| ensures (i > 0 && k < i ==> full[k] <= full[i - 1]) && (k >= i ==> full[k] >= full[i]) {
      assert k < i - 1 ==> !Less(full[i - 1], full[k]);
      assert k > i ==> !Less(full[k], full[i]);
    }
    assert i > 0 ==> !Less(full[i], full[i - 1]);
  }

  lemma NothingAfter(full: seq<Slot>)
    requires Sorting.SortedBy(Less, full)
    ensures full != [] ==> forall s: Slot :: s > full[|full| - 1] ==> s !in full
  {
    if full != [] {
      forall k | 0 <= k < |full| ensures full[k] <= full[|full| - 1] {
        assert k < |full| - 1 ==> !Less(full[|full| - 1], full[k]);
      }
    }
  }

  // ---------- the pool of slots to place ----------

  /** Old masters hold disjoint, duplicate-free slots below n; masters new to the job hold none. */
  ghost predicate GoodHoldings(news: seq<Node>, olds: seq<Node>, n: Slot)
    reads news, olds
  {
    && DistinctNodes(news) && DistinctNodes(olds)
    && (forall i :: 0 <= i < |olds| ==> olds[i].ID != NOBODY && NoDup(olds[i].Slots))
    && (forall i, s: Slot :: 0 <= i < |olds| && s in olds[i].Slots ==> s < n)
    && (forall i, j, s: Slot :: 0 <= i < j < |olds| && s in olds[i].Slots ==> s !in olds[j].Slots)
    && (forall i, j :: 0 <= i < |news| && 0 <= j < |olds| && news[i].ID == olds[j].ID ==> news[i] == olds[j])
    && (forall i :: 0 <= i < |news| && news[i] !in olds ==> news[i].Slots == [])
  }

  predicate HasId(ns: seq<Node>, id: Id) {
    exists i :: 0 <= i < |ns| && ns[i].ID == id
  }

  /** What the plan takes away from an old master. */
  function Freed(news: seq<Node>, old_: Node, perNode: nat): seq<Slot>
    reads old_
  {
    if !HasId(news, old_.ID) then old_.Slots
    else if |old_.Slots| > perNode then old_.Slots[perNode..]
    else []
  }

  ghost predicate FreedIn(pool: map<Id, seq<Slot>>, id: Id, slots: seq<Slot>) {
    (if id in pool then pool[id] else []) == slots
  }

  /** The pool lists what each old master gives up, and the lost slots under the empty id. */
  ghost predicate IsPool(pool: map<Id, seq<Slot>>, news: seq<Node>, olds: seq<Node>, perNode: nat, lost: seq<Slot>)
    reads olds
  {
    && (forall i :: 0 <= i < |olds| ==> FreedIn(pool, olds[i].ID, Freed(news, olds[i], perNode)))
    && NOBODY in pool && pool[NOBODY] == lost
    && (forall id :: id in pool && id != NOBODY ==> HasId(olds, id))
  }

  method RetrieveSlotToMigrateFrom(olds: seq<Node>, perNode: nat) returns (m: map<Id, seq<Slot>>)
    requires DistinctNodes(olds)
    ensures forall i :: 0 <= i < |olds| ==>
              FreedIn(m, olds[i].ID, if |olds[i].Slots| > perNode then olds[i].Slots[perNode..] else [])
    ensures forall id :: id in m ==> HasId(olds, id)
  {
    m := map[];
    for i := 0 to |olds|
      invariant forall j :: 0 <= j < i ==>
                  FreedIn(m, olds[j].ID, if |olds[j].Slots| > perNode then olds[j].Slots[perNode..] else [])
      invariant forall j :: i <= j < |olds| ==> olds[j].ID !in m
      invariant forall id :: id in m ==> HasId(olds, id)
    {
      var node := olds[i];
      if |node.Slots| >= perNode && |node.Slots[perNode..]| > 0 {
        m := m[node.ID := node.Slots[perNode..]];
      }
    }
  }

  method RetrieveSlotToMigrateFromRemovedNodes(news: seq<Node>, olds: seq<Node>) returns (m: map<Id, seq<Slot>>)
    requires DistinctNodes(olds)
    ensures forall i :: 0 <= i < |olds| ==> (olds[i].ID in m <==> !HasId(news, olds[i].ID))
    ensures forall i :: 0 <= i < |olds| && olds[i].ID in m ==> m[olds[i].ID] == olds[i].Slots
    ensures forall id :: id in m ==> HasId(olds, id)
  {
    m := map[];
    for i := 0 to |olds|
      invariant forall j :: 0 <= j < i ==> (olds[j].ID in m <==> !HasId(news, olds[j].ID))
      invariant forall j :: 0 <= j < i && olds[j].ID in m ==> m[olds[j].ID] == olds[j].Slots
      invariant forall j :: i <= j < |olds| ==> olds[j].ID !in m
      invariant forall id :: id in m ==> HasId(olds, id)
    {
      var isPresent := false;
      var j := 0;
      while j < |news|
        invariant j <= |news| && !isPresent
        invariant forall k :: 0 <= k < j ==> news[k].ID != olds[i].ID
      {
        if olds[i].ID == news[j].ID {
          isPresent := true;
          break;
        }
        j := j + 1;
      }
      if !isPresent {
        m := m[olds[i].ID := olds[i].Slots];
      }
    }
  }

  /** migration.go lines 184 to 190. */
  method BuildPool(news: seq<Node>, olds: seq<Node>, perNode: nat, n: Slot) returns (pool: map<Id, seq<Slot>>)
    requires GoodHoldings(news, olds, n) && n > 0
    ensures NOBODY in pool && IsPool(pool, news, olds, perNode, pool[NOBODY])
    ensures NoDup(pool[NOBODY]) && forall s: Slot :: s in pool[NOBODY] <==> s < n && !HeldByAny(olds, s)
  {
    pool := RetrieveSlotToMigrateFrom(olds, perNode);
    var removed := RetrieveSlotToMigrateFromRemovedNodes(news, olds);
    assert NOBODY !in pool && NOBODY !in removed;
    pool := pool + removed;
    var lost := RetrieveLostSlots(olds, n);
    pool := pool[NOBODY := lost];
  }

  // ---------- dealing the pool ----------

  /** The slots of the pool, key by key. */
  ghost function PoolList(pool: map<Id, seq<Slot>>, order: seq<Id>): seq<Slot>
    requires forall id :: id in order ==> id in pool
  {
    if order == [] then [] else PoolList(pool, order[..|order| - 1]) + pool[order[|order| - 1]]
  }

  ghost predicate HasBase(ns: seq<Node>, base: seq<nat>)
    reads ns
  {
    |base| == |ns| && forall i :: 0 <= i < |ns| ==> base[i] == |ns[i].Slots|
  }

  /** added holds the non-empty shares under the ids of the masters they go to. */
  ghost predicate AddedIs(added: map<Id, seq<Slot>>, ns: seq<Node>, adds: seq<seq<Slot>>) {
    && |adds| == |ns|
    && (forall i :: 0 <= i < |ns| ==> (ns[i].ID in added <==> adds[i] != []))
    && (forall i :: 0 <= i < |ns| && ns[i].ID in added ==> added[ns[i].ID] == adds[i])
    && (forall id :: id in added ==> HasId(ns, id))
  }

  /** The loop variables of the dealing loop in state f. */
  ghost predicate Dealing(ns: seq<Node>, base: seq<nat>, f: Filled,
                          slotOfNode: seq<seq<Slot>>, added: map<Id, seq<Slot>>, idNode: nat, overfilled: bool)
  {
    && |base| == |ns| == |slotOfNode| == |f.adds| && idNode < |ns|
    && f.idNode == idNode && f.over == overfilled && AddedIs(added, ns, f.adds)
    && forall i :: 0 <= i < |base| ==> |slotOfNode[i]| == base[i] + |f.adds[i]|
  }

  lemma AddedStep(ns: seq<Node>, adds: seq<seq<Slot>>, added: map<Id, seq<Slot>>, i: nat, slot: Slot)
    requires DistinctNodes(ns) && AddedIs(added, ns, adds) && i < |ns|
    ensures var id := ns[i].ID;
      AddedIs(added[id := (if id in added then added[id] else []) + [slot]], ns, adds[i := adds[i] + [slot]])
  {
    assert HasId(ns, ns[i].ID);
  }

  /** migration.go lines 307 to 320: where the next slot goes. */
  method DealSlot(ns: seq<Node>, perNode: nat, slot: Slot, slotOfNode: seq<seq<Slot>>, added: map<Id, seq<Slot>>,
                  idNode: nat, overfilled: bool, ghost base: seq<nat>, ghost f: Filled)
    returns (slotOfNode': seq<seq<Slot>>, added': map<Id, seq<Slot>>, idNode': nat, overfilled': bool)
    requires DistinctNodes(ns) && Dealing(ns, base, f, slotOfNode, added, idNode, overfilled)
    ensures Dealing(ns, base, FillStep(base, perNode, f, slot), slotOfNode', added', idNode', overfilled')
  {
    idNode', overfilled' := idNode, overfilled;
    var missingSlots := perNode - |slotOfNode[idNode]|;
    if missingSlots <= 0 {
      idNode' := idNode' + 1;
      if idNode' > |ns| - 1 {
        idNode' := idNode' - 1;
        overfilled' := true;
      }
    }
    var id := ns[idNode'].ID;
    slotOfNode' := slotOfNode[idNode' := slotOfNode[idNode'] + [slot]];
    added' := added[id := (if id in added then added[id] else []) + [slot]];
    AddedStep(ns, f.adds, added, idNode', slot);
  }

  method DealList(ns: seq<Node>, perNode: nat, slots: seq<Slot>, slotOfNode: seq<seq<Slot>>, added: map<Id, seq<Slot>>,
                  idNode: nat, overfilled: bool, ghost base: seq<nat>, ghost f: Filled)
    returns (slotOfNode': seq<seq<Slot>>, added': map<Id, seq<Slot>>, idNode': nat, overfilled': bool)
    requires DistinctNodes(ns) && Dealing(ns, base, f, slotOfNode, added, idNode, overfilled)
    ensures Dealing(ns, base, FillFrom(base, perNode, f, slots), slotOfNode', added', idNode', overfilled')
  {
    slotOfNode', added', idNode', overfilled' := slotOfNode, added, idNode, overfilled;
    ghost var g := f;
    for i := 0 to |slots|
      invariant g == FillFrom(base, perNode, f, slots[..i])
      invariant Dealing(ns, base, g, slotOfNode', added', idNode', overfilled')
    {
      assert slots[..i + 1][..i] == slots[..i];
      slotOfNode', added', idNode', overfilled' :=
        DealSlot(ns, perNode, slots[i], slotOfNode', added', idNode', overfilled', base, g);
      g := FillStep(base, perNode, g, slots[i]);
    }
    assert slots[..|slots|] == slots;
  }

  lemma DealingStart(ns: seq<Node>, base: seq<nat>, perNode: nat, lists: seq<seq<Slot>>)
    requires ns != [] && HasBase(ns, base) && |lists| == |ns|
    requires forall i :: 0 <= i < |ns| ==> lists[i] == ns[i].Slots
    ensures Dealing(ns, base, Fill(base, perNode, []), lists, map[], 0, false)
  {
  }

  lemma PoolListSnoc(pool: map<Id, seq<Slot>>, order: seq<Id>, id: Id)
    requires id in pool && forall x :: x in order ==> x in pool
    ensures PoolList(pool, order + [id]) == PoolList(pool, order) + pool[id]
  {
    assert (order + [id])[..|order|] == order;
  }

  /** added and overfilled are the outcome of dealing out the lists of the pool in the given order. */
  ghost predicate DealtInOrder(ns: seq<Node>, perNode: nat, pool: map<Id, seq<Slot>>, base: seq<nat>, order: seq<Id>,
                               added: map<Id, seq<Slot>>, overfilled: bool)
    requires |base| == |ns| > 0
  {
    && NoDup(order) && (forall id :: id in order <==> id in pool)
    && overfilled == Fill(base, perNode, PoolList(pool, order)).over
    && AddedIs(added, ns, Fill(base, perNode, PoolList(pool, order)).adds)
  }

  /** buildSlotByNodeFromAvailableSlots, for at least one new master. */
  method BuildSlotByNodeFromAvailableSlots(ns: seq<Node>, perNode: nat, pool: map<Id, seq<Slot>>, ghost base: seq<nat>)
    returns (added: map<Id, seq<Slot>>, overfilled: bool)
    requires ns != [] && DistinctNodes(ns) && HasBase(ns, base)
    ensures exists order :: DealtInOrder(ns, perNode, pool, base, order, added, overfilled)
  {
    ghost var order: seq<Id>;
    var slotOfNode := seq(|ns|, i requires 0 <= i < |ns| reads ns => ns[i].Slots);
    var idNode: nat := 0;
    added, overfilled, order := map[], false, [];
    DealingStart(ns, base, perNode, slotOfNode);
    var rest := pool.Keys;
    ghost var f := Fill(base, perNode, []);
    while rest != {}
      invariant NoDup(order) && rest <= pool.Keys
      invariant forall id :: id in order <==> id in pool && id !in rest
      invariant f == Fill(base, perNode, PoolList(pool, order))
      invariant Dealing(ns, base, f, slotOfNode, added, idNode, overfilled)
      decreases rest
    {
      var id :| id in rest;
      PoolListSnoc(pool, order, id);
      FillMore(base, perNode, PoolList(pool, order), pool[id]);
      slotOfNode, added, idNode, overfilled :=
        DealList(ns, perNode, pool[id], slotOfNode, added, idNode, overfilled, base, f);
      rest, order, f := rest - {id}, order + [id], FillFrom(base, perNode, f, pool[id]);
    }
    assert DealtInOrder(ns, perNode, pool, base, order, added, overfilled);
  }

  // ---------- what the pool contains ----------

  /** The slots an old master that stays keeps. */
  function KeptList(node: Node, perNode: nat): seq<Slot>
    reads node
  {
    node.Slots[..Min(|node.Slots|, perNode)]
  }

  ghost predicate KeptByAny(news: seq<Node>, perNode: nat, s: Slot)
    reads news
  {
    exists i :: 0 <= i < |news| && s in KeptList(news[i], perNode)
  }

  lemma SplitList(slots: seq<Slot>, k: nat, s: Slot)
    requires NoDup(slots) && k <= |slots|
    ensures s in slots <==> s in slots[..k] || s in slots[k..]
    ensures s in slots[..k] ==> s !in slots[k..]
  {
    assert slots == slots[..k] + slots[k..];
  }

  /** An old master gives up exactly what it does not keep. */
  lemma FreedIsNotKept(news: seq<Node>, olds: seq<Node>, n: Slot, perNode: nat, j: nat, s: Slot)
    requires GoodHoldings(news, olds, n) && j < |olds| && s in olds[j].Slots
    ensures s in Freed(news, olds[j], perNode) <==> !KeptByAny(news, perNode, s)
  {
    var node := olds[j];
    SplitList(node.Slots, Min(|node.Slots|, perNode), s);
    forall i | 0 <= i < |news| && s in KeptList(news[i], perNode) ensures news[i] == node {
      assert s in news[i].Slots;
      var k :| 0 <= k < |olds| && olds[k] == news[i];
    }
    if HasId(news, node.ID) {
      var i :| 0 <= i < |news| && news[i].ID == node.ID;
      assert news[i] == node;
    }
  }

  lemma FreedIsOwn(news: seq<Node>, node: Node, perNode: nat)
    requires NoDup(node.Slots)
    ensures NoDup(Freed(news, node, perNode))
    ensures forall s :: s in Freed(news, node, perNode) ==> s in node.Slots
  {
  }

  lemma PoolEntry(pool: map<Id, seq<Slot>>, news: seq<Node>, olds: seq<Node>, n: Slot, perNode: nat, lost: seq<Slot>, id: Id)
    returns (j: nat)
    requires GoodHoldings(news, olds, n) && IsPool(pool, news, olds, perNode, lost) && id in pool && id != NOBODY
    ensures j < |olds| && olds[j].ID == id && pool[id] == Freed(news, olds[j], perNode)
  {
    assert HasId(olds, id);
    j :| 0 <= j < |olds| && olds[j].ID == id;
    assert FreedIn(pool, olds[j].ID, Freed(news, olds[j], perNode));
  }

  ghost function Parts(pool: map<Id, seq<Slot>>, order: seq<Id>): seq<seq<Slot>>
    requires forall id :: id in order ==> id in pool
  {
    seq(|order|, i requires 0 <= i < |order| => pool[order[i]])
  }

  lemma {:induction false} PoolListIsFlat(pool: map<Id, seq<Slot>>, order: seq<Id>)
    requires forall id :: id in order ==> id in pool
    ensures PoolList(pool, order) == Flatten(Parts(pool, order))
  {
    if order != [] {
      var m := |order| - 1;
      PoolListIsFlat(pool, order[..m]);
      assert Parts(pool, order)[..m] == Parts(pool, order[..m]);
    }
  }

  lemma PoolDisjoint(pool: map<Id, seq<Slot>>, news: seq<Node>, olds: seq<Node>, n: Slot, perNode: nat, lost: seq<Slot>, a: Id, b: Id, s: Slot)
    requires GoodHoldings(news, olds, n) && IsPool(pool, news, olds, perNode, lost)
    requires forall s: Slot :: s in lost ==> !HeldByAny(olds, s)
    requires a in pool && b in pool && a != b && s in pool[a]
    ensures s !in pool[b]
  {
    if a != NOBODY {
      var j := PoolEntry(pool, news, olds, n, perNode, lost, a);
      FreedIsOwn(news, olds[j], perNode);
      assert HeldByAny(olds, s);
      if b != NOBODY {
        var k := PoolEntry(pool, news, olds, n, perNode, lost, b);
        FreedIsOwn(news, olds[k], perNode);
      }
    } else {
      var k := PoolEntry(pool, news, olds, n, perNode, lost, b);
      FreedIsOwn(news, olds[k], perNode);
      assert s in olds[k].Slots ==> HeldByAny(olds, s);
    }
  }

  lemma PoolNoDup(pool: map<Id, seq<Slot>>, news: seq<Node>, olds: seq<Node>, n: Slot, perNode: nat, lost: seq<Slot>, order: seq<Id>)
    requires GoodHoldings(news, olds, n) && IsPool(pool, news, olds, perNode, lost)
    requires NoDup(lost) && forall s: Slot :: s in lost ==> !HeldByAny(olds, s)
    requires NoDup(order) && forall id :: id in order ==> id in pool
    ensures NoDup(PoolList(pool, order))
  {
    var parts := Parts(pool, order);
    forall i, j, s: Slot | 0 <= i < j < |parts| && s in parts[i] ensures s !in parts[j] {
      PoolDisjoint(pool, news, olds, n, perNode, lost, order[i], order[j], s);
    }
    forall i | 0 <= i < |parts| ensures NoDup(parts[i]) {
      if order[i] != NOBODY {
        var j := PoolEntry(pool, news, olds, n, perNode, lost, order[i]);
        FreedIsOwn(news, olds[j], perNode);
      }
    }
    FlattenNoDup(parts);
    PoolListIsFlat(pool, order);
  }

  lemma PoolMembers(pool: map<Id, seq<Slot>>, news: seq<Node>, olds: seq<Node>, n: Slot, perNode: nat, lost: seq<Slot>, order: seq<Id>, s: Slot)
    requires GoodHoldings(news, olds, n) && IsPool(pool, news, olds, perNode, lost)
    requires forall s: Slot :: s in lost <==> s < n && !HeldByAny(olds, s)
    requires forall id :: id in order <==> id in pool
    ensures s in PoolList(pool, order) <==> s < n && !KeptByAny(news, perNode, s)
  {
    var parts := Parts(pool, order);
    PoolListIsFlat(pool, order);
    FlattenMember(parts, s);
    if HeldByAny(olds, s) {
      var j :| 0 <= j < |olds| && s in olds[j].Slots;
      FreedIsNotKept(news, olds, n, perNode, j, s);
      assert FreedIn(pool, olds[j].ID, Freed(news, olds[j], perNode));
      if s in Freed(news, olds[j], perNode) {
        var i :| 0 <= i < |order| && order[i] == olds[j].ID;
        assert s in parts[i];
      } else {
        forall i | 0 <= i < |parts| ensures s !in parts[i] {
          if order[i] != NOBODY {
            var k := PoolEntry(pool, news, olds, n, perNode, lost, order[i]);
            FreedIsOwn(news, olds[k], perNode);
          }
        }
      }
    } else {
      forall i | 0 <= i < |news| ensures s !in KeptList(news[i], perNode) {
        assert news[i] in olds ==> s !in news[i].Slots;
      }
      forall i | 0 <= i < |parts| && s in parts[i] ensures order[i] == NOBODY {
        if order[i] != NOBODY {
          var k := PoolEntry(pool, news, olds, n, perNode, lost, order[i]);
          FreedIsOwn(news, olds[k], perNode);
        }
      }
      var i :| 0 <= i < |order| && order[i] == NOBODY;
      assert parts[i] == lost;
    }
  }

  function KeptLists(news: seq<Node>, perNode: nat): (r: seq<seq<Slot>>)
    reads news
    ensures |r| == |news|
    ensures forall i :: 0 <= i < |news| ==> r[i] == KeptList(news[i], perNode)
  {
    if news == [] then [] else KeptLists(news[..|news| - 1], perNode) + [KeptList(news[|news| - 1], perNode)]
  }

  lemma KeptListsDisjoint(news: seq<Node>, olds: seq<Node>, n: Slot, perNode: nat)
    requires GoodHoldings(news, olds, n)
    ensures PairwiseDisjoint(KeptLists(news, perNode))
    ensures forall i :: 0 <= i < |news| ==> NoDup(KeptLists(news, perNode)[i])
    ensures forall i, s: Slot :: 0 <= i < |news| && s in KeptList(news[i], perNode) ==> s < n
  {
    var ls := KeptLists(news, perNode);
    forall i | 0 <= i < |news| ensures NoDup(ls[i]) && (news[i] !in olds ==> ls[i] == []) {
      if news[i] in olds {
        var k :| 0 <= k < |olds| && olds[k] == news[i];
      }
    }
    forall i, s: Slot | 0 <= i < |news| && s in ls[i] ensures s < n && news[i] in olds && s in news[i].Slots {
      assert s in KeptList(news[i], perNode);
      var k :| 0 <= k < |olds| && olds[k] == news[i];
      assert s in olds[k].Slots;
    }
    forall i, j, s: Slot | 0 <= i < j < |ls| && s in ls[i] ensures s !in ls[j] {
      if news[j] in olds {
        var k :| 0 <= k < |olds| && olds[k] == news[i];
        var l :| 0 <= l < |olds| && olds[l] == news[j];
        assert k != l;
      }
    }
  }

  lemma KeptLengths(news: seq<Node>, base: seq<nat>, perNode: nat)
    requires HasBase(news, base)
    ensures |Flatten(KeptLists(news, perNode))| == Sum(KeptCounts(base, perNode))
  {
    var ls := KeptLists(news, perNode);
    FlattenLength(ls);
    assert seq(|ls|, i requires 0 <= i < |ls| => |ls[i]|) == KeptCounts(base, perNode);
  }

  /** Kept and free slots together are all slots. */
  lemma KeptAndFree(news: seq<Node>, olds: seq<Node>, base: seq<nat>, n: Slot, perNode: nat, free: seq<Slot>)
    requires GoodHoldings(news, olds, n) && HasBase(news, base)
    requires NoDup(free) && forall s: Slot :: s in free <==> s < n && !KeptByAny(news, perNode, s)
    ensures Sum(KeptCounts(base, perNode)) + |free| == n
  {
    var kept := Flatten(KeptLists(news, perNode));
    KeptListsDisjoint(news, olds, n, perNode);
    FlattenNoDup(KeptLists(news, perNode));
    KeptLengths(news, base, perNode);
    forall s: Slot ensures s in kept <==> KeptByAny(news, perNode, s) {
      FlattenMember(KeptLists(news, perNode), s);
    }
    NoDupConcat(kept, free);
    NoDupCard(kept + free);
    AllSlotsCard(n);
    forall s: Slot ensures s in ToSet(kept + free) <==> s in ToSet(AllSlots(n)) {
    }
    assert ToSet(kept + free) == ToSet(AllSlots(n));
  }

  // ---------- buildSlotsByNode ----------

  /**
   * The shares give every slot that no new master keeps to exactly one new master, and leave
   * each with c - 2k + 3 to c + 1 slots, where c is the ceiling of n / k.
   */
  ghost predicate GoodShares(news: seq<Node>, perNode: nat, adds: seq<seq<Slot>>, n: Slot)
    reads news
  {
    && |adds| == |news| && NoDup(Flatten(adds))
    && (forall s: Slot :: s in Flatten(adds) <==> s < n && !KeptByAny(news, perNode, s))
    && (|news| >= 2 ==> forall i :: 0 <= i < |news| ==>
          perNode - 2 * |news| + 3 <= |KeptList(news[i], perNode)| + |adds[i]| <= perNode + 1)
  }

  ghost function BaseOf(ns: seq<Node>): (base: seq<nat>)
    reads ns
    ensures HasBase(ns, base)
  {
    if ns == [] then [] else BaseOf(ns[..|ns| - 1]) + [|ns[|ns| - 1].Slots|]
  }

  lemma SharesAreGood(pool: map<Id, seq<Slot>>, news: seq<Node>, olds: seq<Node>, base: seq<nat>, n: Slot, perNode: nat,
                      lost: seq<Slot>, order: seq<Id>)
    requires GoodHoldings(news, olds, n) && IsPool(pool, news, olds, perNode, lost) && HasBase(news, base) && news != []
    requires n > 0 && perNode == CeilDiv(n, |news|)
    requires NoDup(lost) && forall s: Slot :: s in lost <==> s < n && !HeldByAny(olds, s)
    requires NoDup(order) && forall id :: id in order <==> id in pool
    ensures var f := Fill(base, perNode, PoolList(pool, order));
      !f.over && GoodShares(news, perNode, f.adds, n)
  {
    var free := PoolList(pool, order);
    var f := Fill(base, perNode, free);
    PoolNoDup(pool, news, olds, n, perNode, lost, order);
    forall s: Slot ensures s in free <==> s < n && !KeptByAny(news, perNode, s) {
      PoolMembers(pool, news, olds, n, perNode, lost, order, s);
    }
    FillDealsAll(base, perNode, free);
    KeptAndFree(news, olds, base, n, perNode, free);
    CeilDivIs(n, |news|);
    NeverOverfilled(base, perNode, free);
    if |news| >= 2 {
      forall i | 0 <= i < |news|
        ensures perNode - 2 * |news| + 3 <= |KeptList(news[i], perNode)| + |f.adds[i]| <= perNode + 1
      {
        BalanceBound(base, n, perNode, free, i);
        assert FinalCounts(base, perNode, f.adds)[i] == |KeptList(news[i], perNode)| + |f.adds[i]|;
      }
    }
  }

  method BuildSlotsByNode(news: seq<Node>, olds: seq<Node>, nbSlots: Slot)
    returns (added: map<Id, seq<Slot>>, ghost adds: seq<seq<Slot>>)
    requires GoodHoldings(news, olds, nbSlots) && nbSlots > 0
    ensures news == [] ==> added == map[]
    ensures news != [] ==> AddedIs(added, news, adds) && GoodShares(news, CeilDiv(nbSlots, |news|), adds, nbSlots)
  {
    if news == [] {
      return map[], [];
    }
    var perNode := CeilDiv(nbSlots, |news|);
    var pool := BuildPool(news, olds, perNode, nbSlots);
    ghost var base := BaseOf(news);
    var overfilled;
    added, overfilled := BuildSlotByNodeFromAvailableSlots(news, perNode, pool, base);
    ghost var order :| DealtInOrder(news, perNode, pool, base, order, added, overfilled);
    SharesAreGood(pool, news, olds, base, nbSlots, perNode, pool[NOBODY], order);
    if overfilled {
      assert false;  // "some available slots have not been assigned"
    }
    adds := Fill(base, perNode, PoolList(pool, order)).adds;
  }

  // ---------- feedMigInfo ----------

  /** From is null for lost slots. */
  datatype MigrationInfo = MigrationInfo(From: Node?, To: Node)

  /** Slot s is in the share of the new master to. */
  ghost predicate GoesTo(news: seq<Node>, adds: seq<seq<Slot>>, s: Slot, to: Node)
    requires |adds| == |news|
  {
    exists i :: 0 <= i < |news| && news[i] == to && s in adds[i]
  }

  ghost predicate ComesFrom(olds: seq<Node>, s: Slot, from: Node?)
    reads olds
  {
    if from == null then !HeldByAny(olds, s) else from in olds && s in from.Slots
  }

  ghost predicate GoodEntry(e: MigrationInfo, slots: seq<Slot>, news: seq<Node>, olds: seq<Node>, adds: seq<seq<Slot>>)
    requires |adds| == |news|
    reads olds
  {
    && slots != [] && NoDup(slots) && e.To in news && e.From != e.To
    && forall s: Slot :: s in slots ==> GoesTo(news, adds, s, e.To) && ComesFrom(olds, s, e.From)
  }

  ghost predicate Planned(plan: map<MigrationInfo, seq<Slot>>, s: Slot, from: Node?, to: Node) {
    MigrationInfo(from, to) in plan && s in plan[MigrationInfo(from, to)]
  }

  /** The plan moves exactly the slots of done that are not already where they go. */
  ghost predicate PlanOf(plan: map<MigrationInfo, seq<Slot>>, news: seq<Node>, olds: seq<Node>, adds: seq<seq<Slot>>, done: set<Slot>)
    requires |adds| == |news|
    reads olds
  {
    && (forall e :: e in plan ==> GoodEntry(e, plan[e], news, olds, adds) && forall s :: s in plan[e] ==> s in done)
    && (forall s: Slot, to :: s in done && to in news && GoesTo(news, adds, s, to) && !HeldByAny(olds, s)
          ==> Planned(plan, s, null, to))
    && (forall s: Slot, from, to :: s in done && to in news && GoesTo(news, adds, s, to) && from in olds && s in from.Slots && from != to
          ==> Planned(plan, s, from, to))
  }

  method GetNodeByID(ns: seq<Node>, id: Id) returns (node: Node?)
    ensures node == null ==> !HasId(ns, id)
    ensures node != null ==> node in ns && node.ID == id
  {
    for i := 0 to |ns|
      invariant forall j :: 0 <= j < i ==> ns[j].ID != id
    {
      if ns[i].ID == id {
        return ns[i];
      }
    }
    return null;
  }

  /** migration.go lines 137 to 158: the old master that holds s, and whether it is id itself. */
  method Locate(olds: seq<Node>, id: Id, s: Slot) returns (from: Node?, own: bool)
    ensures ComesFrom(olds, s, from)
    ensures own <==> from != null && from.ID == id
  {
    for i := 0 to |olds|
      invariant forall j :: 0 <= j < i ==> s !in olds[j].Slots
    {
      var here := Contains(olds[i].Slots, s);
      if here {
        return olds[i], olds[i].ID == id;
      }
    }
    return null, false;
  }

  lemma HolderHolds(olds: seq<Node>, node: Node, s: Slot)
    requires node in olds && s in node.Slots
    ensures HeldByAny(olds, s)
  {
  }

  lemma HolderIsUnique(news: seq<Node>, olds: seq<Node>, n: Slot, s: Slot, from: Node?, from': Node?)
    requires GoodHoldings(news, olds, n) && ComesFrom(olds, s, from) && ComesFrom(olds, s, from')
    ensures from == from'
  {
    if from != null {
      HolderHolds(olds, from, s);
    }
    if from' != null {
      HolderHolds(olds, from', s);
    }
    if from != null && from' != null {
      var i :| 0 <= i < |olds| && olds[i] == from;
      var j :| 0 <= j < |olds| && olds[j] == from';
    }
  }

  lemma TargetIsUnique(news: seq<Node>, adds: seq<seq<Slot>>, s: Slot, to: Node, to': Node)
    requires |adds| == |news| && NoDup(Flatten(adds)) && GoesTo(news, adds, s, to) && GoesTo(news, adds, s, to')
    ensures to == to'
  {
    FlattenNoDupParts(adds);
    var i :| 0 <= i < |news| && news[i] == to && s in adds[i];
    var j :| 0 <= j < |news| && news[j] == to' && s in adds[j];
  }

  /** Adding one slot to the entry it belongs to. */
  lemma PlanGrows(plan: map<MigrationInfo, seq<Slot>>, news: seq<Node>, olds: seq<Node>, n: Slot, adds: seq<seq<Slot>>,
                  done: set<Slot>, s: Slot, from: Node?, to: Node)
    requires GoodHoldings(news, olds, n) && |adds| == |news| && NoDup(Flatten(adds))
    requires PlanOf(plan, news, olds, adds, done) && s !in done && to in news
    requires GoesTo(news, adds, s, to) && ComesFrom(olds, s, from)
    ensures from == to ==> PlanOf(plan, news, olds, adds, done + {s})
    ensures from != to ==>
              var e := MigrationInfo(from, to);
              PlanOf(plan[e := (if e in plan then plan[e] else []) + [s]], news, olds, adds, done + {s})
  {
    var e := MigrationInfo(from, to);
    var plan' := if from == to then plan else plan[e := (if e in plan then plan[e] else []) + [s]];
    forall e' | e' in plan'
      ensures GoodEntry(e', plan'[e'], news, olds, adds) && forall t :: t in plan'[e'] ==> t in done + {s}
    {
      if from != to && e' == e && e in plan {
        assert forall t :: t in plan[e] ==> t in done;
        NoDupConcat(plan[e], [s]);
      }
    }
    forall t: Slot, to' | t in done + {s} && to' in news && GoesTo(news, adds, t, to') && !HeldByAny(olds, t)
      ensures Planned(plan', t, null, to')
    {
      if t == s {
        HolderIsUnique(news, olds, n, s, from, null);
        TargetIsUnique(news, adds, s, to, to');
      } else {
        assert Planned(plan, t, null, to');
      }
    }
    forall t: Slot, from', to' | t in done + {s} && to' in news && GoesTo(news, adds, t, to') && from' in olds && t in from'.Slots && from' != to'
      ensures Planned(plan', t, from', to')
    {
      if t == s {
        HolderIsUnique(news, olds, n, s, from, from');
        TargetIsUnique(news, adds, s, to, to');
      } else {
        assert Planned(plan, t, from', to');
      }
    }
  }

  /** migration.go lines 136 to 171: one slot of the share of id. */
  method PlanSlot(plan: map<MigrationInfo, seq<Slot>>, news: seq<Node>, olds: seq<Node>, id: Id, s: Slot,
                  ghost n: Slot, ghost adds: seq<seq<Slot>>, ghost done: set<Slot>, ghost to: Node)
    returns (plan': map<MigrationInfo, seq<Slot>>)
    requires GoodHoldings(news, olds, n) && |adds| == |news| && NoDup(Flatten(adds))
    requires PlanOf(plan, news, olds, adds, done) && s !in done
    requires to in news && to.ID == id && GoesTo(news, adds, s, to)
    ensures PlanOf(plan', news, olds, adds, done + {s})
  {
    plan' := plan;
    var from, own := Locate(olds, id, s);
    PlanGrows(plan, news, olds, n, adds, done, s, from, to);
    SameIdSameNode(news, olds, n, from, to);
    if !own {
      var newNode := GetNodeByID(news, id);
      assert HasId(news, to.ID);
      SameIdSameNode(news, news, n, newNode, to);
      var e := MigrationInfo(from, newNode);
      plan' := plan[e := (if e in plan then plan[e] else []) + [s]];
    }
  }

  lemma SameIdSameNode(news: seq<Node>, olds: seq<Node>, n: Slot, from: Node?, to: Node)
    requires (GoodHoldings(news, olds, n) || (news == olds && DistinctNodes(news))) && to in news
    requires from != null ==> from in olds
    ensures from != null ==> (from.ID == to.ID <==> from == to)
  {
    var i :| 0 <= i < |news| && news[i] == to;
    if from != null {
      var j :| 0 <= j < |olds| && olds[j] == from;
    }
  }

  lemma NothingDone(news: seq<Node>, olds: seq<Node>, adds: seq<seq<Slot>>)
    requires |adds| == |news|
    ensures PlanOf(map[], news, olds, adds, {})
  {
  }

  /** s is in the share of a master whose id has already been visited. */
  ghost predicate Visited(news: seq<Node>, adds: seq<seq<Slot>>, rest: set<Id>, s: Slot)
    requires |adds| == |news|
  {
    exists i :: 0 <= i < |news| && s in adds[i] && news[i].ID !in rest
  }

  lemma ShareIndex(added: map<Id, seq<Slot>>, news: seq<Node>, adds: seq<seq<Slot>>, id: Id) returns (i: nat)
    requires AddedIs(added, news, adds) && id in added
    ensures i < |news| && news[i].ID == id && adds[i] == added[id]
  {
    assert HasId(news, id);
    i :| 0 <= i < |news| && news[i].ID == id;
  }

  lemma NothingVisited(added: map<Id, seq<Slot>>, news: seq<Node>, adds: seq<seq<Slot>>)
    requires AddedIs(added, news, adds)
    ensures forall s: Slot :: !Visited(news, adds, added.Keys, s)
  {
    forall s: Slot ensures !Visited(news, adds, added.Keys, s) {
      forall i | 0 <= i < |news| && s in adds[i] ensures news[i].ID in added {
        assert adds[i] != [];
      }
    }
  }

  lemma ShareNotVisited(news: seq<Node>, adds: seq<seq<Slot>>, rest: set<Id>, i: nat)
    requires DistinctNodes(news) && |adds| == |news| && NoDup(Flatten(adds)) && i < |news| && news[i].ID in rest
    ensures NoDup(adds[i])
    ensures forall s: Slot :: s in adds[i] ==> !Visited(news, adds, rest, s)
    ensures forall s: Slot :: Visited(news, adds, rest - {news[i].ID}, s) <==> Visited(news, adds, rest, s) || s in adds[i]
  {
    FlattenNoDupParts(adds);
    forall s: Slot
      ensures Visited(news, adds, rest - {news[i].ID}, s) <==> Visited(news, adds, rest, s) || s in adds[i]
    {
      if Visited(news, adds, rest, s) {
        var j :| 0 <= j < |news| && s in adds[j] && news[j].ID !in rest;
        assert news[j].ID !in rest - {news[i].ID};
      }
    }
  }

  lemma AllVisited(news: seq<Node>, adds: seq<seq<Slot>>, s: Slot)
    requires |adds| == |news|
    ensures Visited(news, adds, {}, s) <==> s in Flatten(adds)
  {
    FlattenMember(adds, s);
  }

  /** migration.go lines 135 to 172: the share of one new master. */
  method PlanShare(plan: map<MigrationInfo, seq<Slot>>, news: seq<Node>, olds: seq<Node>, id: Id, slots: seq<Slot>,
                   ghost n: Slot, ghost adds: seq<seq<Slot>>, ghost done: set<Slot>, ghost i: nat)
    returns (plan': map<MigrationInfo, seq<Slot>>)
    requires GoodHoldings(news, olds, n) && |adds| == |news| && NoDup(Flatten(adds))
    requires i < |news| && news[i].ID == id && adds[i] == slots && NoDup(slots)
    requires PlanOf(plan, news, olds, adds, done) && forall s :: s in slots ==> s !in done
    ensures PlanOf(plan', news, olds, adds, done + ToSet(slots))
  {
    plan' := plan;
    assert done + ToSet(slots[..0]) == done;
    for k := 0 to |slots|
      invariant PlanOf(plan', news, olds, adds, done + ToSet(slots[..k]))
    {
      assert slots[..k + 1] == slots[..k] + [slots[k]];
      assert done + ToSet(slots[..k + 1]) == done + ToSet(slots[..k]) + {slots[k]};
      assert GoesTo(news, adds, slots[k], news[i]);
      plan' := PlanSlot(plan', news, olds, id, slots[k], n, adds, done + ToSet(slots[..k]), news[i]);
    }
    assert slots[..|slots|] == slots;
  }

  /** feedMigInfo: which slots go from which master to which. */
  method FeedMigInfo(news: seq<Node>, olds: seq<Node>, nbSlots: Slot)
    returns (plan: map<MigrationInfo, seq<Slot>>, ghost adds: seq<seq<Slot>>)
    requires GoodHoldings(news, olds, nbSlots) && nbSlots > 0
    ensures news == [] ==> plan == map[]
    ensures news != [] ==> GoodShares(news, CeilDiv(nbSlots, |news|), adds, nbSlots)
    ensures news != [] ==> PlanOf(plan, news, olds, adds, ToSet(Flatten(adds)))
  {
    plan := map[];
    var added;
    added, adds := BuildSlotsByNode(news, olds, nbSlots);
    if news == [] {
      return;
    }
    var rest := added.Keys;
    ghost var done: set<Slot> := {};
    NothingDone(news, olds, adds);
    NothingVisited(added, news, adds);
    while rest != {}
      invariant rest <= added.Keys
      invariant PlanOf(plan, news, olds, adds, done)
      invariant forall s: Slot :: s in done <==> Visited(news, adds, rest, s)
      decreases rest
    {
      var id :| id in rest;
      ghost var i := ShareIndex(added, news, adds, id);
      ShareNotVisited(news, adds, rest, i);
      plan := PlanShare(plan, news, olds, id, added[id], nbSlots, adds, done, i);
      rest, done := rest - {id}, done + ToSet(added[id]);
    }
    forall s: Slot ensures s in done <==> s in Flatten(adds) {
      AllVisited(news, adds, s);
    }
    assert done == ToSet(Flatten(adds));
  }
}
