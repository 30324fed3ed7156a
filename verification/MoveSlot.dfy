/** The hand-over of one slot in pkg/controller/clustering/rebalance.go, command by command. */
module MoveSlotProtocol {
  import opened Basics
  import opened SlotLists
  import opened RedisWorld
  import opened Nodes
  import opened AdminClient

  const BATCH: int := 10

  /**
   * What every world met during the hand-over of s from src to dst in world w looks like,
   * whichever commands failed: only the two nodes' entries for s may differ, no key is lost
   * or changes its value, and neither node names dst as owner before src is out of keys.
   */
  ghost predicate MoveStage(w: World, h: World, src: Id, dst: Id, s: Slot) {
    && h.n == w.n && h.nodes == w.nodes && h.replicaOf == w.replicaOf
    && (forall x, t: Slot :: !(t == s && (x == src || x == dst)) ==> View(h, x, t) == View(w, x, t) && Data(h, x, t) == Data(w, x, t))
    && Data(h, dst, s) + Data(h, src, s) == Data(w, dst, s) + Data(w, src, s)
    && h.importing.Keys <= w.importing.Keys + {(dst, s)} && h.migrating.Keys <= w.migrating.Keys + {(src, s)}
    && (View(h, dst, s) == View(w, dst, s) || View(h, dst, s) == dst)
    && (View(h, src, s) == View(w, src, s) || View(h, src, s) == dst)
    && (View(h, dst, s) != View(w, dst, s) || View(h, src, s) != View(w, src, s) ==> Data(h, src, s) == map[])
  }

  ghost predicate ServedByEither(h: World, src: Id, dst: Id, s: Slot) {
    Claims(h, src, s) || Claims(h, dst, s)
  }

  lemma OpeningIsStage(w: World, h: World, src: Id, dst: Id, s: Slot)
    requires Opened(w, h, src, dst, s)
    ensures DrainStage(w, h, src, dst, s)
  {
  }

  lemma DrainingIsStage(w: World, v: World, h: World, src: Id, dst: Id, s: Slot)
    requires v == w.(importing := v.importing, migrating := v.migrating)
    requires v.importing.Keys <= w.importing.Keys + {(dst, s)} && v.migrating.Keys <= w.migrating.Keys + {(src, s)}
    requires KeysMoved(v, h, src, dst, {s})
    ensures MoveStage(w, h, src, dst, s) && h.view == w.view
  {
    assert forall x, t: Slot :: View(h, x, t) == View(w, x, t) && Data(v, x, t) == Data(w, x, t);
  }

  lemma TellingIsStage(w: World, v: World, h: World, src: Id, dst: Id, s: Slot, a: Id)
    requires MoveStage(w, v, src, dst, s) && Data(v, src, s) == map[] && (a == src || a == dst)
    requires h == v || h == Effect(v, SetSlot(a, NODE, s, dst))
    ensures MoveStage(w, h, src, dst, s) && h.data == v.data
    ensures h != v ==> h.view == v.view[(a, s) := dst]
  {
    forall x, t: Slot
      ensures Data(h, x, t) == Data(v, x, t) && View(h, x, t) == if x == a && t == s && h != v then dst else View(v, x, t)
    {
      assert (x, t) == (a, s) <==> x == a && t == s;
    }
    assert h.importing.Keys <= v.importing.Keys && h.migrating.Keys <= v.migrating.Keys;
  }

  lemma ToldBothIsHandedOver(w: World, drained: World, told: World, h: World, src: Id, dst: Id, s: Slot)
    requires src != dst && MoveStage(w, drained, src, dst, s) && drained.view == w.view && Data(drained, src, s) == map[]
    requires told == Effect(drained, SetSlot(dst, NODE, s, dst))
    requires h == Effect(told, SetSlot(src, NODE, s, dst))
    ensures HandedOver(w, h, src, dst, s)
  {
    assert Data(h, dst, s) + map[] == Data(h, dst, s);
    assert Data(told, src, s) == map[];
    assert forall x, t: Slot :: Data(h, x, t) == Data(drained, x, t);
  }

  /** Before the hand-over proper: keys may be on their way, but every view is as in w. */
  ghost predicate DrainStage(w: World, h: World, src: Id, dst: Id, s: Slot) {
    MoveStage(w, h, src, dst, s) && h.view == w.view
  }

  /** Redis will refuse no command of the hand-over. */
  predicate Ready(w: World, src: Id, dst: Id, s: Slot) {
    IsMaster(w, src) && IsMaster(w, dst) && s < w.n && View(w, src, s) == src && View(w, dst, s) != dst
  }

  /** Both ends are open, or one of the commands failed; nothing has moved. */
  ghost predicate Opened(w: World, h: World, src: Id, dst: Id, s: Slot) {
    && h == w.(importing := h.importing, migrating := h.migrating)
    && h.importing.Keys <= w.importing.Keys + {(dst, s)} && h.migrating.Keys <= w.migrating.Keys + {(src, s)}
  }

  method Open(admin: Admin, src: Id, dst: Id, slot: Slot) returns (ok: bool)
    requires src != dst
    modifies admin
    ensures old(admin.hist) <= admin.hist && Opened(old(admin.world), admin.world, src, dst, slot)
    ensures forall i :: |old(admin.hist)| <= i < |admin.hist| ==> Opened(old(admin.world), admin.hist[i], src, dst, slot)
    ensures ok && Ready(old(admin.world), src, dst, slot) ==> CanMigrate(admin.world, src, dst, slot)
    ensures admin.reliable && Ready(old(admin.world), src, dst, slot) ==> ok
  {
    ghost var took;
    ok, took := admin.SetSlot(dst, IMPORTING, slot, dst);
    if ok {
      ok, took := admin.SetSlot(src, MIGRATING, slot, src);
    }
  }

  /** The commands up to the hand-over: rebalance.go lines 127 to 135. */
  method Drain(admin: Admin, src: Id, dst: Id, slot: Slot) returns (ok: bool)
    requires src != dst
    modifies admin
    ensures old(admin.hist) <= admin.hist
    ensures DrainStage(old(admin.world), admin.world, src, dst, slot)
    ensures forall i :: |old(admin.hist)| <= i < |admin.hist| ==> DrainStage(old(admin.world), admin.hist[i], src, dst, slot)
    ensures ok ==> Data(admin.world, src, slot) == map[]
    ensures admin.reliable && Ready(old(admin.world), src, dst, slot) ==> ok
  {
    ghost var w, mid := admin.world, |admin.hist|;
    ok := Open(admin, src, dst, slot);
    ghost var v, before := admin.world, admin.hist;
    forall j | mid <= j < |before| ensures DrainStage(w, before[j], src, dst, slot) {
      OpeningIsStage(w, before[j], src, dst, slot);
    }
    OpeningIsStage(w, v, src, dst, slot);
    if !ok {
      return;
    }
    var count: nat;
    count, ok := admin.MigrateKeysInSlot(src, dst, slot, BATCH, true);
    forall j | mid <= j < |admin.hist| ensures DrainStage(w, admin.hist[j], src, dst, slot) {
      if j < |before| {
        assert admin.hist[j] == before[j];
      } else {
        DrainingIsStage(w, v, admin.hist[j], src, dst, slot);
      }
    }
    DrainingIsStage(w, v, admin.world, src, dst, slot);
  }

  /** The two SETSLOT NODE commands, the target's first: rebalance.go lines 136 to 141. */
  method Tell(admin: Admin, src: Id, dst: Id, slot: Slot) returns (ghost told: World, ghost toldTarget: bool, ghost toldSource: bool)
    modifies admin
    ensures admin.hist == old(admin.hist) + [told, admin.world]
    ensures told == if toldTarget then Effect(old(admin.world), SetSlot(dst, NODE, slot, dst)) else old(admin.world)
    ensures admin.world == if toldSource then Effect(told, SetSlot(src, NODE, slot, dst)) else told
    ensures admin.reliable && Accepts(old(admin.world), SetSlot(dst, NODE, slot, dst)) ==> toldTarget
    ensures admin.reliable && Accepts(told, SetSlot(src, NODE, slot, dst)) ==> toldSource
  {
    var one: bool;
    one, toldTarget := admin.SetSlot(dst, NODE, slot, dst);
    told := admin.world;
    one, toldSource := admin.SetSlot(src, NODE, slot, dst);
  }

  lemma TellFacts(w: World, drained: World, told: World, h: World, src: Id, dst: Id, s: Slot, toldTarget: bool, toldSource: bool)
    requires src != dst && Claims(w, src, s)
    requires DrainStage(w, drained, src, dst, s) && Data(drained, src, s) == map[]
    requires told == if toldTarget then Effect(drained, SetSlot(dst, NODE, s, dst)) else drained
    requires h == if toldSource then Effect(told, SetSlot(src, NODE, s, dst)) else told
    ensures MoveStage(w, told, src, dst, s) && MoveStage(w, h, src, dst, s) && h.data == drained.data
    ensures View(h, dst, s) == if toldTarget then dst else View(w, dst, s)
    ensures View(h, src, s) == if toldSource then dst else src
    ensures Claims(told, src, s)
    ensures dst in w.nodes && (toldTarget || !toldSource) ==> ServedByEither(h, src, dst, s)
    ensures toldTarget && toldSource ==> HandedOver(w, h, src, dst, s)
    ensures Sound(w) && dst in w.nodes ==> (Served(h, s) <==> toldTarget || !toldSource)
    ensures Ready(w, src, dst, s) ==>
              Accepts(drained, SetSlot(dst, NODE, s, dst)) && (toldTarget ==> Accepts(told, SetSlot(src, NODE, s, dst)))
  {
    TellingIsStage(w, drained, told, src, dst, s, dst);
    TellingIsStage(w, told, h, src, dst, s, src);
    if toldTarget && toldSource {
      ToldBothIsHandedOver(w, drained, told, h, src, dst, s);
    }
    if Sound(w) && dst in w.nodes {
      NobodyElseServes(w, h, src, dst, s);
      assert !Claims(w, dst, s);
    }
  }

  lemma NobodyElseServes(w: World, h: World, src: Id, dst: Id, s: Slot)
    requires Sound(w) && Claims(w, src, s) && MoveStage(w, h, src, dst, s)
    ensures Served(h, s) <==> ServedByEither(h, src, dst, s)
  {
    if Served(h, s) {
      var x :| Claims(h, x, s);
      if x != src && x != dst {
        assert View(h, x, s) == View(w, x, s);
        assert Claims(w, x, s);
      }
    }
  }

  /** All commands of moveSlot. */
  method HandOver(admin: Admin, src: Id, dst: Id, slot: Slot) returns (ok: bool, ghost toldTarget: bool, ghost toldSource: bool)
    requires src != dst && Claims(admin.world, src, slot)
    modifies admin
    ensures old(admin.hist) <= admin.hist
    ensures MoveStage(old(admin.world), admin.world, src, dst, slot)
    ensures forall i :: |old(admin.hist)| <= i < |admin.hist| ==> MoveStage(old(admin.world), admin.hist[i], src, dst, slot)
    ensures !ok ==> admin.world.view == old(admin.world.view)
    ensures !ok ==> forall i :: |old(admin.hist)| <= i < |admin.hist| ==> Claims(admin.hist[i], src, slot)
    ensures ok ==> Data(admin.world, src, slot) == map[]
    ensures ok ==> View(admin.world, dst, slot) == if toldTarget then dst else View(old(admin.world), dst, slot)
    ensures ok ==> View(admin.world, src, slot) == if toldSource then dst else src
    ensures ok && Sound(old(admin.world)) && dst in old(admin.world).nodes ==>
              (Served(admin.world, slot) <==> toldTarget || !toldSource)
    ensures ok && dst in old(admin.world).nodes && (toldTarget || !toldSource) ==>
              forall i :: |old(admin.hist)| <= i < |admin.hist| ==> ServedByEither(admin.hist[i], src, dst, slot)
    ensures admin.reliable && Ready(old(admin.world), src, dst, slot) ==>
              ok && toldTarget && toldSource && HandedOver(old(admin.world), admin.world, src, dst, slot)
  {
    ghost var w := admin.world;
    toldTarget, toldSource := false, false;
    ok := Drain(admin, src, dst, slot);
    if !ok {
      return;
    }
    ghost var drained, before := admin.world, admin.hist;
    ghost var told;
    told, toldTarget, toldSource := Tell(admin, src, dst, slot);
    TellFacts(w, drained, told, admin.world, src, dst, slot, toldTarget, toldSource);
    forall i | |old(admin.hist)| <= i < |admin.hist|
      ensures MoveStage(w, admin.hist[i], src, dst, slot)
      ensures dst in w.nodes && (toldTarget || !toldSource) ==> ServedByEither(admin.hist[i], src, dst, slot)
    {
      if i < |before| {
        assert admin.hist[i] == before[i];
        assert DrainStage(w, before[i], src, dst, slot);
      } else {
        assert admin.hist[i] == told || admin.hist[i] == admin.world;
      }
    }
  }

  /**
   * moveSlot. ok == false is the error return. toldTarget and toldSource say whether the two
   * SETSLOT NODE commands, whose errors the original only logs, were carried out.
   */
  method MoveSlot(admin: Admin, source: Node, slot: Slot, target: Node)
    returns (ok: bool, ghost toldTarget: bool, ghost toldSource: bool)
    requires source.ID != target.ID && Claims(admin.world, source.ID, slot)
    modifies admin, source`Slots
    ensures old(admin.hist) <= admin.hist
    ensures MoveStage(old(admin.world), admin.world, source.ID, target.ID, slot)
    ensures forall i :: |old(admin.hist)| <= i < |admin.hist| ==> MoveStage(old(admin.world), admin.hist[i], source.ID, target.ID, slot)
    // an error leaves the source in charge, in Redis and in the operator's books
    ensures !ok ==> source.Slots == old(source.Slots) && admin.world.view == old(admin.world.view)
    ensures !ok ==> forall i :: |old(admin.hist)| <= i < |admin.hist| ==> Claims(admin.hist[i], source.ID, slot)
    // otherwise all keys are at the target
    ensures ok ==> source.Slots == WithoutFirst(old(source.Slots), slot) && Data(admin.world, source.ID, slot) == map[]
    ensures ok ==> View(admin.world, target.ID, slot) == if toldTarget then target.ID else View(old(admin.world), target.ID, slot)
    ensures ok ==> View(admin.world, source.ID, slot) == if toldSource then target.ID else source.ID
    // the slot ends up without an owner exactly when only the source was told
    ensures ok && Sound(old(admin.world)) && target.ID in old(admin.world).nodes ==>
              (Served(admin.world, slot) <==> toldTarget || !toldSource)
    // and otherwise is served at every instant
    ensures ok && target.ID in old(admin.world).nodes && (toldTarget || !toldSource) ==>
              forall i :: |old(admin.hist)| <= i < |admin.hist| ==> ServedByEither(admin.hist[i], source.ID, target.ID, slot)
    ensures admin.reliable && Ready(old(admin.world), source.ID, target.ID, slot) ==>
              ok && toldTarget && toldSource && HandedOver(old(admin.world), admin.world, source.ID, target.ID, slot)
  {
    ok, toldTarget, toldSource := HandOver(admin, source.ID, target.ID, slot);
    if !ok {
      return;
    }
    var rest := RemoveSlot(source.Slots, slot);
    source.Slots := rest;
  }

  /**
   * Why the target comes first, and what a lost SETSLOT at the target does: telling the source
   * before the target, which Redis accepts, leaves the slot without an owner.
   */
  lemma SourceFirstOrphans(w: World, src: Id, dst: Id, s: Slot)
    requires Sound(w) && Claims(w, src, s) && Data(w, src, s) == map[] && IsMaster(w, src) && IsMaster(w, dst) && src != dst
    ensures Accepts(w, Cmd.SetSlot(src, NODE, s, dst)) && !Served(Effect(w, Cmd.SetSlot(src, NODE, s, dst)), s)
    ensures Accepts(w, Cmd.SetSlot(dst, NODE, s, dst)) && Served(Effect(w, Cmd.SetSlot(dst, NODE, s, dst)), s)
  {
    var h, g := Effect(w, Cmd.SetSlot(src, NODE, s, dst)), Effect(w, Cmd.SetSlot(dst, NODE, s, dst));
    forall a ensures !Claims(h, a, s) {
      if a == src {
        assert View(h, a, s) == dst;
      } else {
        assert View(h, a, s) == View(w, a, s) && !Claims(w, a, s);
      }
    }
    assert Claims(g, dst, s);
  }
}
