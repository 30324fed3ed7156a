/**
 * The hand-over of many slots at once in pkg/controller/clustering/migration.go, from the
 * IMPORTING pipeline to the SETSLOT NODE pipelines on all masters.
 */
module BulkMoveProtocol {
  import opened Basics
  import opened SlotLists
  import opened RedisWorld
  import opened Nodes
  import opened AdminClient

  const BATCH: int := 10

  /** Redis will refuse no command of the hand-over. */
  ghost predicate BulkReady(w: World, src: Id, dst: Id, S: set<Slot>) {
    && IsMaster(w, src) && IsMaster(w, dst) && src != dst
    && forall s :: s in S ==> s < w.n && View(w, src, s) == src && View(w, dst, s) != dst
  }

  /** What every world met on the way looks like: no slot unserved, no key gone. */
  ghost predicate BulkStage(w: World, h: World, src: Id, dst: Id, S: set<Slot>) {
    && h.n == w.n && h.nodes == w.nodes && h.replicaOf == w.replicaOf
    && (forall x, t: Slot :: View(h, x, t) == View(w, x, t) || (t in S && View(h, x, t) == dst))
    && KeysBetween(w, h, src, dst, S)
    && (forall t :: t in S ==> View(h, src, t) == src || View(h, dst, t) == dst)
  }

  /** The keys of S have all arrived at dst; every other key is where it was. */
  ghost predicate KeysArrived(w: World, h: World, src: Id, dst: Id, S: set<Slot>) {
    && (forall x, t: Slot :: !(t in S && (x == src || x == dst)) ==> Data(h, x, t) == Data(w, x, t))
    && (forall t :: t in S ==> Data(h, src, t) == map[] && Data(h, dst, t) == Data(w, dst, t) + Data(w, src, t))
  }

  /** Keys of S may be at either end; every other key is where it was. */
  ghost predicate KeysBetween(w: World, h: World, src: Id, dst: Id, S: set<Slot>) {
    && (forall x, t: Slot :: !(t in S && (x == src || x == dst)) ==> Data(h, x, t) == Data(w, x, t))
    && (forall t :: t in S ==> Data(h, dst, t) + Data(h, src, t) == Data(w, dst, t) + Data(w, src, t))
  }

  /** The slots of S are at dst, and dst, src and the nodes in told know it. */
  ghost predicate BulkDone(w: World, h: World, src: Id, dst: Id, S: set<Slot>, told: set<Id>) {
    && h.n == w.n && h.nodes == w.nodes && h.replicaOf == w.replicaOf
    && (forall x, t: Slot :: View(h, x, t) == if t in S && (x == src || x == dst || x in told) then dst else View(w, x, t))
    && KeysArrived(w, h, src, dst, S)
    && h.importing.Keys <= w.importing.Keys && h.migrating.Keys <= w.migrating.Keys
  }

  lemma SetAllView(w: World, a: Id, S: set<Slot>, id: Id)
    ensures var h := SetAll(w, a, NODE, S, id);
      forall x, t: Slot :: View(h, x, t) == if x == a && t in S then id else View(w, x, t)
  {
    var h := SetAll(w, a, NODE, S, id);
    forall x, t: Slot ensures View(h, x, t) == if x == a && t in S then id else View(w, x, t) {
      assert (x, t) in Pairs(a, S) <==> x == a && t in S;
    }
  }

  /**
   * What every world met on the way looks like, whichever commands failed: dst was told of the
   * slots in toldTarget and src of those in toldSource; no key is lost, and src has none of a
   * slot that it gave away.
   */
  ghost predicate BulkAnyhow(w: World, h: World, src: Id, dst: Id, S: set<Slot>, toldTarget: set<Slot>, toldSource: set<Slot>) {
    && h.n == w.n && h.nodes == w.nodes && h.replicaOf == w.replicaOf
    && KeysBetween(w, h, src, dst, S)
    && toldTarget <= S && toldSource <= S
    && (forall t: Slot :: View(h, dst, t) == if t in toldTarget then dst else View(w, dst, t))
    && (forall t: Slot :: View(h, src, t) == if t in toldSource then dst else View(w, src, t))
    && (forall x, t: Slot :: x != src && x != dst ==> View(h, x, t) == View(w, x, t) || (t in S && View(h, x, t) == dst))
    && (forall t :: t in toldSource && View(w, src, t) == src ==> Data(h, src, t) == map[])
  }

  ghost predicate SomehowMoved(w: World, h: World, src: Id, dst: Id, S: set<Slot>) {
    exists toldTarget, toldSource :: BulkAnyhow(w, h, src, dst, S, toldTarget, toldSource)
  }

  // ---------- before the hand-over ----------

  /** Nothing but open-slot flags and the place of keys of S has changed. */
  ghost predicate Draining(w: World, h: World, src: Id, dst: Id, S: set<Slot>) {
    && h.n == w.n && h.nodes == w.nodes && h.replicaOf == w.replicaOf && h.view == w.view
    && KeysBetween(w, h, src, dst, S)
    && h.importing.Keys <= w.importing.Keys + Pairs(dst, S) && h.migrating.Keys <= w.migrating.Keys + Pairs(src, S)
  }

  lemma DrainingIsStage(w: World, h: World, src: Id, dst: Id, S: set<Slot>)
    requires Draining(w, h, src, dst, S) && BulkReady(w, src, dst, S)
    ensures BulkStage(w, h, src, dst, S)
  {
    assert forall x, t: Slot :: View(h, x, t) == View(w, x, t);
  }

  lemma DrainingIsAnyhow(w: World, h: World, src: Id, dst: Id, S: set<Slot>)
    requires Draining(w, h, src, dst, S)
    ensures BulkAnyhow(w, h, src, dst, S, {}, {})
  {
    assert forall x, t: Slot :: View(h, x, t) == View(w, x, t);
  }

  lemma OpenIsDraining(w: World, src: Id, dst: Id, S: set<Slot>, T: set<Slot>)
    requires T <= S
    ensures Draining(w, SetAll(w, dst, IMPORTING, T, src), src, dst, S)
  {
    assert Pairs(dst, T) <= Pairs(dst, S);
  }

  lemma OpenBothIsDraining(w: World, src: Id, dst: Id, S: set<Slot>, T: set<Slot>)
    requires T <= S
    ensures Draining(w, SetAll(SetAll(w, dst, IMPORTING, S, src), src, MIGRATING, T, dst), src, dst, S)
  {
    assert Pairs(src, T) <= Pairs(src, S);
  }

  lemma KeysMovedIsDraining(w: World, v: World, h: World, src: Id, dst: Id, S: set<Slot>)
    requires Draining(w, v, src, dst, S) && v.data == w.data && KeysMoved(v, h, src, dst, S)
    ensures Draining(w, h, src, dst, S)
  {
    assert forall x, t: Slot :: Data(v, x, t) == Data(w, x, t);
  }

  lemma AcceptOpening(w: World, src: Id, dst: Id, S: set<Slot>)
    requires BulkReady(w, src, dst, S)
    ensures forall s :: s in S ==> Accepts(w, SetSlot(dst, IMPORTING, s, src))
    ensures forall s :: s in S ==> Accepts(SetAll(w, dst, IMPORTING, S, src), SetSlot(src, MIGRATING, s, dst))
    ensures forall s :: s in S ==> CanMigrate(SetAll(SetAll(w, dst, IMPORTING, S, src), src, MIGRATING, S, dst), src, dst, s)
  {
    forall s | s in S ensures (dst, s) in SetAll(w, dst, IMPORTING, S, src).importing {
      assert (dst, s) in Pairs(dst, S);
    }
  }

  /** migration.go lines 72 to 90. Key-migration errors do not stop the original. */
  method OpenAndDrain(admin: Admin, src: Id, dst: Id, slots: seq<Slot>) returns (ok: bool)
    requires src != dst
    modifies admin
    ensures old(admin.hist) <= admin.hist
    ensures Draining(old(admin.world), admin.world, src, dst, ToSet(slots))
    ensures forall i :: |old(admin.hist)| <= i < |admin.hist| ==> Draining(old(admin.world), admin.hist[i], src, dst, ToSet(slots))
    ensures (admin.reliable || admin.steady) && BulkReady(old(admin.world), src, dst, ToSet(slots)) ==> ok
    ensures admin.reliable && BulkReady(old(admin.world), src, dst, ToSet(slots)) ==>
              forall s :: s in slots ==> Data(admin.world, src, s) == map[]
  {
    ghost var w, S := admin.world, ToSet(slots);
    ghost var applied;
    if BulkReady(w, src, dst, S) {
      AcceptOpening(w, src, dst, S);
    }
    ok, applied := admin.SetSlots(dst, IMPORTING, slots, src);
    ghost var v1, h1 := admin.world, admin.hist;
    OpeningDrains(w, v1, h1, |old(admin.hist)|, src, dst, slots, applied);
    if !ok {
      return;
    }
    ok, applied := admin.SetSlots(src, MIGRATING, slots, dst);
    ghost var v2, h2 := admin.world, admin.hist;
    MigratingDrains(w, v1, v2, h2, |old(admin.hist)|, |h1|, src, dst, slots, applied);
    if !ok {
      return;
    }
    var count: nat, migrated: bool;
    count, migrated := admin.MigrateKeys(src, dst, slots, BATCH, true);
    MovingDrains(w, v2, admin.world, admin.hist, |old(admin.hist)|, |h2|, src, dst, S);
  }

  ghost predicate AllDraining(w: World, hist: seq<World>, from: nat, src: Id, dst: Id, S: set<Slot>) {
    forall i :: from <= i < |hist| ==> Draining(w, hist[i], src, dst, S)
  }

  lemma OpeningDrains(w: World, v: World, hist: seq<World>, from: nat, src: Id, dst: Id, slots: seq<Slot>, T: set<Slot>)
    requires SetSome(w, v, dst, IMPORTING, slots, src, T)
    requires AllSomeSet(w, hist, from, dst, IMPORTING, slots, src)
    ensures Draining(w, v, src, dst, ToSet(slots)) && AllDraining(w, hist, from, src, dst, ToSet(slots))
  {
    OpenIsDraining(w, src, dst, ToSet(slots), T);
    forall i | from <= i < |hist| ensures Draining(w, hist[i], src, dst, ToSet(slots)) {
      OpeningHistory(w, hist[i], src, dst, slots);
    }
  }

  lemma MigratingDrains(w: World, v: World, u: World, hist: seq<World>, from: nat, mid: nat, src: Id, dst: Id, slots: seq<Slot>, T: set<Slot>)
    requires v == SetAll(w, dst, IMPORTING, ToSet(slots), src) && SetSome(v, u, src, MIGRATING, slots, dst, T)
    requires from <= mid <= |hist| && AllDraining(w, hist[..mid], from, src, dst, ToSet(slots))
    requires AllSomeSet(v, hist, mid, src, MIGRATING, slots, dst)
    ensures Draining(w, u, src, dst, ToSet(slots)) && u.data == w.data && AllDraining(w, hist, from, src, dst, ToSet(slots))
  {
    OpenBothIsDraining(w, src, dst, ToSet(slots), T);
    forall i | from <= i < |hist| ensures Draining(w, hist[i], src, dst, ToSet(slots)) {
      if i < mid {
        assert hist[i] == hist[..mid][i];
      } else {
        MigratingHistory(w, v, hist[i], src, dst, slots);
      }
    }
  }

  lemma MovingDrains(w: World, v: World, u: World, hist: seq<World>, from: nat, mid: nat, src: Id, dst: Id, S: set<Slot>)
    requires Draining(w, v, src, dst, S) && v.data == w.data && KeysMoved(v, u, src, dst, S)
    requires from <= mid <= |hist| && AllDraining(w, hist[..mid], from, src, dst, S)
    requires forall i :: mid <= i < |hist| ==> KeysMoved(v, hist[i], src, dst, S)
    ensures Draining(w, u, src, dst, S) && AllDraining(w, hist, from, src, dst, S)
  {
    KeysMovedIsDraining(w, v, u, src, dst, S);
    forall i | from <= i < |hist| ensures Draining(w, hist[i], src, dst, S) {
      if i < mid {
        assert hist[i] == hist[..mid][i];
      } else {
        KeysMovedIsDraining(w, v, hist[i], src, dst, S);
      }
    }
  }

  lemma OpeningHistory(w: World, h: World, src: Id, dst: Id, slots: seq<Slot>)
    requires SomeSet(w, h, dst, IMPORTING, slots, src)
    ensures Draining(w, h, src, dst, ToSet(slots))
  {
    var T: set<Slot> :| SetSome(w, h, dst, IMPORTING, slots, src, T);
    OpenIsDraining(w, src, dst, ToSet(slots), T);
  }

  lemma MigratingHistory(w: World, v: World, h: World, src: Id, dst: Id, slots: seq<Slot>)
    requires v == SetAll(w, dst, IMPORTING, ToSet(slots), src) && SomeSet(v, h, src, MIGRATING, slots, dst)
    ensures Draining(w, h, src, dst, ToSet(slots))
  {
    var T: set<Slot> :| SetSome(v, h, src, MIGRATING, slots, dst, T);
    OpenBothIsDraining(w, src, dst, ToSet(slots), T);
  }

  // ---------- the hand-over ----------

  lemma TargetToldIsStage(w: World, v: World, src: Id, dst: Id, S: set<Slot>, T: set<Slot>)
    requires BulkReady(w, src, dst, S) && Draining(w, v, src, dst, S) && T <= S
    ensures BulkStage(w, SetAll(v, dst, NODE, T, dst), src, dst, S)
  {
    SetAllView(v, dst, T, dst);
    DrainingIsStage(w, v, src, dst, S);
    StageKeptByViews(w, v, SetAll(v, dst, NODE, T, dst), src, dst, S);
  }

  lemma StageKeptByViews(w: World, v: World, h: World, src: Id, dst: Id, S: set<Slot>)
    requires BulkStage(w, v, src, dst, S)
    requires h.n == v.n && h.nodes == v.nodes && h.replicaOf == v.replicaOf && h.data == v.data
    requires forall x, t: Slot :: View(h, x, t) == View(v, x, t) || (t in S && View(h, x, t) == dst)
    requires forall t :: t in S ==> View(h, src, t) == src || View(h, dst, t) == dst
    ensures BulkStage(w, h, src, dst, S)
  {
    SameDataBetween(w, v, h, src, dst, S);
  }

  lemma SameDataBetween(w: World, v: World, h: World, src: Id, dst: Id, S: set<Slot>)
    requires KeysBetween(w, v, src, dst, S) && h.data == v.data
    ensures KeysBetween(w, h, src, dst, S)
  {
    assert forall x, t: Slot :: Data(h, x, t) == Data(v, x, t);
  }

  lemma SourceToldIsStage(w: World, v: World, src: Id, dst: Id, S: set<Slot>, T: set<Slot>)
    requires BulkReady(w, src, dst, S) && Draining(w, v, src, dst, S) && T <= S
    ensures BulkStage(w, SetAll(SetAll(v, dst, NODE, S, dst), src, NODE, T, dst), src, dst, S)
  {
    var u := SetAll(v, dst, NODE, S, dst);
    TargetToldIsStage(w, v, src, dst, S, S);
    SetAllView(v, dst, S, dst);
    SetAllView(u, src, T, dst);
    StageKeptByViews(w, u, SetAll(u, src, NODE, T, dst), src, dst, S);
  }

  lemma BothToldIsDone(w: World, v: World, src: Id, dst: Id, S: set<Slot>)
    requires BulkReady(w, src, dst, S) && Draining(w, v, src, dst, S) && forall s :: s in S ==> Data(v, src, s) == map[]
    ensures BulkDone(w, SetAll(SetAll(v, dst, NODE, S, dst), src, NODE, S, dst), src, dst, S, {})
  {
    var h := SetAll(SetAll(v, dst, NODE, S, dst), src, NODE, S, dst);
    BothViews(v, src, dst, S);
    assert forall x, t: Slot :: View(v, x, t) == View(w, x, t);
    DrainedHaveArrived(w, v, src, dst, S);
    SameDataArrived(w, v, h, src, dst, S);
    FlagsCleared(w, v, src, dst, S);
  }

  lemma BothViews(v: World, src: Id, dst: Id, S: set<Slot>)
    ensures var h := SetAll(SetAll(v, dst, NODE, S, dst), src, NODE, S, dst);
      forall x, t: Slot :: View(h, x, t) == if t in S && (x == src || x == dst) then dst else View(v, x, t)
  {
    SetAllView(v, dst, S, dst);
    SetAllView(SetAll(v, dst, NODE, S, dst), src, S, dst);
  }

  lemma DrainedHaveArrived(w: World, v: World, src: Id, dst: Id, S: set<Slot>)
    requires KeysBetween(w, v, src, dst, S) && forall s :: s in S ==> Data(v, src, s) == map[]
    ensures KeysArrived(w, v, src, dst, S)
  {
    assert forall t :: t in S ==> Data(v, dst, t) + map[] == Data(v, dst, t);
  }

  lemma SameDataArrived(w: World, v: World, h: World, src: Id, dst: Id, S: set<Slot>)
    requires KeysArrived(w, v, src, dst, S) && h.data == v.data
    ensures KeysArrived(w, h, src, dst, S)
  {
    assert forall x, t: Slot :: Data(h, x, t) == Data(v, x, t);
  }

  lemma FlagsCleared(w: World, v: World, src: Id, dst: Id, S: set<Slot>)
    requires Draining(w, v, src, dst, S) && src != dst && forall s :: s in S ==> Data(v, src, s) == map[]
    ensures var h := SetAll(SetAll(v, dst, NODE, S, dst), src, NODE, S, dst);
      h.importing.Keys <= w.importing.Keys && h.migrating.Keys <= w.migrating.Keys
  {
    var u := SetAll(v, dst, NODE, S, dst);
    AllEmptied(u, v, src, S);
    KeysWithoutPairs(w.importing, v.importing, Pairs(dst, S));
    KeysWithoutPairs(w.migrating, v.migrating, Pairs(src, S));
  }

  lemma AllEmptied(u: World, v: World, a: Id, S: set<Slot>)
    requires u.data == v.data && forall s :: s in S ==> Data(v, a, s) == map[]
    ensures Emptied(u, a, S) == Pairs(a, S)
  {
    assert forall s :: s in S ==> Data(u, a, s) == Data(v, a, s);
  }

  lemma KeysWithoutPairs(m: map<(Id, Slot), Id>, m': map<(Id, Slot), Id>, P: set<(Id, Slot)>)
    requires m'.Keys <= m.Keys + P
    ensures (m' - P).Keys <= m.Keys
  {
  }

  lemma TargetToldAnyhow(w: World, v: World, h: World, src: Id, dst: Id, slots: seq<Slot>, T: set<Slot>)
    requires Draining(w, v, src, dst, ToSet(slots)) && src != dst && SetSome(v, h, dst, NODE, slots, dst, T)
    ensures BulkAnyhow(w, h, src, dst, ToSet(slots), T, {}) && h.data == v.data
  {
    SetAllView(v, dst, T, dst);
    DrainingIsAnyhow(w, v, src, dst, ToSet(slots));
    SameDataBetween(w, v, h, src, dst, ToSet(slots));
  }

  lemma SourceToldAnyhow(w: World, v: World, h: World, src: Id, dst: Id, slots: seq<Slot>, T: set<Slot>, U: set<Slot>)
    requires BulkAnyhow(w, v, src, dst, ToSet(slots), T, {}) && src != dst && SetSome(v, h, src, NODE, slots, dst, U)
    ensures BulkAnyhow(w, h, src, dst, ToSet(slots), T, U) && h.data == v.data
  {
    SetAllView(v, src, U, dst);
    SameDataBetween(w, v, h, src, dst, ToSet(slots));
    forall t | t in U && View(w, src, t) == src ensures Data(h, src, t) == map[] {
      assert Accepts(v, SetSlot(src, NODE, t, dst)) && View(v, src, t) == src;
    }
  }

  ghost predicate AllSomehow(w: World, hist: seq<World>, from: nat, src: Id, dst: Id, S: set<Slot>) {
    forall i :: from <= i < |hist| ==> SomehowMoved(w, hist[i], src, dst, S)
  }

  lemma TellingTarget(w: World, v: World, h: World, hist: seq<World>, from: nat, src: Id, dst: Id, slots: seq<Slot>, T: set<Slot>)
    requires Draining(w, v, src, dst, ToSet(slots)) && src != dst && SetSome(v, h, dst, NODE, slots, dst, T)
    requires AllSomeSet(v, hist, from, dst, NODE, slots, dst)
    ensures BulkAnyhow(w, h, src, dst, ToSet(slots), T, {}) && h.data == v.data
    ensures AllSomehow(w, hist, from, src, dst, ToSet(slots))
  {
    TargetToldAnyhow(w, v, h, src, dst, slots, T);
    forall i | from <= i < |hist| ensures SomehowMoved(w, hist[i], src, dst, ToSet(slots)) {
      var T': set<Slot> :| SetSome(v, hist[i], dst, NODE, slots, dst, T');
      TargetToldAnyhow(w, v, hist[i], src, dst, slots, T');
    }
  }

  lemma TellingSource(w: World, v: World, h: World, hist: seq<World>, from: nat, mid: nat, src: Id, dst: Id, slots: seq<Slot>, T: set<Slot>, U: set<Slot>)
    requires BulkAnyhow(w, v, src, dst, ToSet(slots), T, {}) && src != dst && SetSome(v, h, src, NODE, slots, dst, U)
    requires from <= mid <= |hist| && AllSomehow(w, hist[..mid], from, src, dst, ToSet(slots))
    requires AllSomeSet(v, hist, mid, src, NODE, slots, dst)
    ensures BulkAnyhow(w, h, src, dst, ToSet(slots), T, U) && h.data == v.data
    ensures AllSomehow(w, hist, from, src, dst, ToSet(slots))
  {
    SourceToldAnyhow(w, v, h, src, dst, slots, T, U);
    forall i | from <= i < |hist| ensures SomehowMoved(w, hist[i], src, dst, ToSet(slots)) {
      if i < mid {
        assert hist[i] == hist[..mid][i];
      } else {
        var U': set<Slot> :| SetSome(v, hist[i], src, NODE, slots, dst, U');
        SourceToldAnyhow(w, v, hist[i], src, dst, slots, T, U');
      }
    }
  }

  /** Of which slots the source can be told: those of which it has no keys. */
  lemma SourceAccepts(w: World, v: World, src: Id, dst: Id, S: set<Slot>, T: set<Slot>)
    requires BulkReady(w, src, dst, S) && BulkAnyhow(w, v, src, dst, S, T, {})
    ensures forall s :: s in S ==> (Accepts(v, SetSlot(src, NODE, s, dst)) <==> Data(v, src, s) == map[])
    ensures forall s :: s in S ==> Accepts(v, SetSlot(dst, NODE, s, dst))
  {
    assert forall s :: s in S ==> View(v, src, s) == View(w, src, s);
  }

  /** A steady client tells dst of everything, and src of what src has no keys of. */
  ghost predicate ToldSteadily(h: World, src: Id, S: set<Slot>, toldTarget: set<Slot>, toldSource: set<Slot>) {
    toldTarget == S && forall s :: s in S ==> (s in toldSource <==> Data(h, src, s) == map[])
  }

  /** migration.go lines 94 to 101: the target is told first, then the source. */
  method TellBoth(admin: Admin, src: Id, dst: Id, slots: seq<Slot>, ghost w: World)
    returns (ghost toldTarget: set<Slot>, ghost toldSource: set<Slot>)
    requires src != dst && Draining(w, admin.world, src, dst, ToSet(slots))
    modifies admin
    ensures old(admin.hist) <= admin.hist && admin.world.data == old(admin.world).data
    ensures BulkAnyhow(w, admin.world, src, dst, ToSet(slots), toldTarget, toldSource)
    ensures AllSomehow(w, admin.hist, |old(admin.hist)|, src, dst, ToSet(slots))
    ensures (admin.reliable || admin.steady) && BulkReady(w, src, dst, ToSet(slots)) ==>
              ToldSteadily(admin.world, src, ToSet(slots), toldTarget, toldSource)
    ensures admin.reliable && BulkReady(w, src, dst, ToSet(slots)) && (forall s :: s in slots ==> Data(old(admin.world), src, s) == map[]) ==>
              && BulkDone(w, admin.world, src, dst, ToSet(slots), {})
              && forall i :: |old(admin.hist)| <= i < |admin.hist| ==> BulkStage(w, admin.hist[i], src, dst, ToSet(slots))
  {
    ghost var v, S, from := admin.world, ToSet(slots), |admin.hist|;
    DrainingIsAnyhow(w, v, src, dst, S);
    var ok: bool;
    if BulkReady(w, src, dst, S) {
      SourceAccepts(w, v, src, dst, S, {});
    }
    ok, toldTarget := admin.SetSlots(dst, NODE, slots, dst);
    ghost var u, h1 := admin.world, admin.hist;
    TellingTarget(w, v, u, h1, from, src, dst, slots, toldTarget);
    if BulkReady(w, src, dst, S) {
      SourceAccepts(w, u, src, dst, S, toldTarget);
    }
    ok, toldSource := admin.SetSlots(src, NODE, slots, dst);
    assert admin.hist[..|h1|] == h1;
    TellingSource(w, u, admin.world, admin.hist, from, |h1|, src, dst, slots, toldTarget, toldSource);
    SameDataAt(u, admin.world, src);
    if admin.reliable && BulkReady(w, src, dst, S) && forall s :: s in slots ==> Data(v, src, s) == map[] {
      SameDataAt(v, u, src);
      assert toldTarget == S && toldSource == S;
      ToldAllFacts(w, v, u, admin.world, admin.hist, from, |h1|, src, dst, slots);
    }
  }

  lemma SameDataAt(w: World, h: World, a: Id)
    requires h.data == w.data
    ensures forall t: Slot :: Data(h, a, t) == Data(w, a, t)
  {
  }

  lemma ToldAllFacts(w: World, v: World, u: World, h: World, hist: seq<World>, from: nat, mid: nat, src: Id, dst: Id, slots: seq<Slot>)
    requires BulkReady(w, src, dst, ToSet(slots)) && Draining(w, v, src, dst, ToSet(slots)) && from <= mid <= |hist|
    requires forall s :: s in slots ==> Data(v, src, s) == map[]
    requires u == SetAll(v, dst, NODE, ToSet(slots), dst) && h == SetAll(u, src, NODE, ToSet(slots), dst)
    requires AllSomeSet(v, hist[..mid], from, dst, NODE, slots, dst)
    requires AllSomeSet(u, hist, mid, src, NODE, slots, dst)
    ensures BulkDone(w, h, src, dst, ToSet(slots), {})
    ensures forall i :: from <= i < |hist| ==> BulkStage(w, hist[i], src, dst, ToSet(slots))
  {
    BothToldIsDone(w, v, src, dst, ToSet(slots));
    forall i | from <= i < |hist| ensures BulkStage(w, hist[i], src, dst, ToSet(slots)) {
      if i < mid {
        assert hist[i] == hist[..mid][i];
        var T: set<Slot> :| SetSome(v, hist[i], dst, NODE, slots, dst, T);
        TargetToldIsStage(w, v, src, dst, ToSet(slots), T);
      } else {
        var T: set<Slot> :| SetSome(u, hist[i], src, NODE, slots, dst, T);
        SourceToldIsStage(w, v, src, dst, ToSet(slots), T);
      }
    }
  }

  // ---------- telling the other masters ----------

  lemma OtherToldIsStage(w: World, v: World, src: Id, dst: Id, S: set<Slot>, told: set<Id>, x: Id, T: set<Slot>)
    requires BulkReady(w, src, dst, S) && BulkDone(w, v, src, dst, S, told) && T <= S && x != src && x != dst
    ensures BulkStage(w, SetAll(v, x, NODE, T, dst), src, dst, S)
  {
    SetAllView(v, x, T, dst);
    DoneIsBetween(w, v, src, dst, S, told);
    SameDataBetween(w, v, SetAll(v, x, NODE, T, dst), src, dst, S);
  }

  lemma OtherToldAnyhow(w: World, v: World, h: World, src: Id, dst: Id, slots: seq<Slot>, toldTarget: set<Slot>, toldSource: set<Slot>, x: Id,
                        T: set<Slot>)
    requires BulkAnyhow(w, v, src, dst, ToSet(slots), toldTarget, toldSource) && x != src && x != dst
    requires SetSome(v, h, x, NODE, slots, dst, T)
    ensures BulkAnyhow(w, h, src, dst, ToSet(slots), toldTarget, toldSource) && h.data == v.data
  {
    SetAllView(v, x, T, dst);
    SameDataBetween(w, v, h, src, dst, ToSet(slots));
  }

  lemma DoneIsBetween(w: World, v: World, src: Id, dst: Id, S: set<Slot>, told: set<Id>)
    requires BulkDone(w, v, src, dst, S, told)
    ensures KeysBetween(w, v, src, dst, S)
  {
    assert forall t :: t in S ==> Data(v, dst, t) + map[] == Data(v, dst, t);
  }

  lemma OtherToldIsDone(w: World, v: World, src: Id, dst: Id, S: set<Slot>, told: set<Id>, x: Id)
    requires BulkDone(w, v, src, dst, S, told) && x != dst && x != src
    ensures BulkDone(w, SetAll(v, x, NODE, S, dst), src, dst, S, told + {x})
  {
    SetAllView(v, x, S, dst);
    SameDataArrived(w, v, SetAll(v, x, NODE, S, dst), src, dst, S);
  }

  // ---------- what it amounts to ----------

  lemma DoneIsPassedOn(w: World, h: World, src: Id, dst: Id, S: set<Slot>, told: set<Id>)
    requires Sound(w) && BulkReady(w, src, dst, S) && BulkDone(w, h, src, dst, S, told)
    ensures PassedOn(w, h, dst, S)
  {
    forall x, t: Slot ensures Claims(h, x, t) <==> if t in S then x == dst else Claims(w, x, t) {
      if t in S {
        assert Claims(w, src, t);
        assert Claims(w, x, t) ==> x == src;
      }
    }
    forall t: Slot | t < w.n ensures Served(h, t) {
      assert Claims(h, if t in S then dst else Owner(w, t), t);
    }
    forall a, t: Slot | a in h.nodes && Data(h, a, t) != map[] ensures Claims(h, a, t) {
      if t in S {
        assert Claims(w, src, t);
        assert Data(w, a, t) != map[] ==> a == src;
        assert a != src && a != dst ==> Data(h, a, t) == Data(w, a, t);
      }
    }
    assert Sound(h);
    forall t: Slot | t < w.n ensures Data(h, Owner(h, t), t) == Data(w, Owner(w, t), t) {
      if t in S {
        OwnerIs(h, dst, t);
        OwnerIs(w, src, t);
        assert Data(w, dst, t) == map[];
        assert map[] + Data(w, src, t) == Data(w, src, t);
      } else {
        OwnerIs(h, Owner(w, t), t);
      }
    }
  }

  lemma StageIsIntact(w0: World, w: World, h: World, src: Id, dst: Id, S: set<Slot>)
    requires SameContents(w0, w) && BulkReady(w, src, dst, S) && BulkStage(w, h, src, dst, S)
    ensures Intact(w0, h)
  {
    forall t: Slot | t < w0.n ensures Served(h, t) && Held(h, t, Data(w0, Owner(w0, t), t)) {
      var a := Owner(w, t);
      if t in S {
        OwnerIs(w, src, t);
        assert Claims(h, src, t) || Claims(h, dst, t);
        BulkSlotHeld(w, h, src, dst, S, t);
      } else {
        assert View(h, a, t) == View(w, a, t) && Data(h, a, t) == Data(w, a, t);
        assert Claims(h, a, t);
      }
    }
  }

  lemma BulkSlotHeld(w: World, h: World, src: Id, dst: Id, S: set<Slot>, t: Slot)
    requires Sound(w) && BulkReady(w, src, dst, S) && BulkStage(w, h, src, dst, S) && t in S
    ensures Held(h, t, Data(w, src, t))
  {
    assert Claims(w, src, t) && !Claims(w, dst, t) && Data(w, dst, t) == map[];
    var m := Data(h, dst, t) + Data(h, src, t);
    assert m == Data(w, src, t);
    forall k | k in Data(w, src, t)
      ensures exists a :: a in h.nodes && k in Data(h, a, t) && Data(h, a, t)[k] == Data(w, src, t)[k]
    {
      assert m[k] == Data(w, src, t)[k];
      if k in Data(h, src, t) {
        assert Data(h, src, t)[k] == m[k];
      } else {
        assert Data(h, dst, t)[k] == m[k];
      }
    }
  }

  // ---------- what it amounts to when commands fail ----------

  /** Every slot of S is served by src and by nobody else. */
  ghost predicate ServesAll(w: World, src: Id, S: set<Slot>) {
    forall t :: t in S ==> Claims(w, src, t)
  }

  /**
   * Whatever fails, only the two ends can serve a slot that is on the move; it has no owner
   * exactly when the source alone was told, and two exactly when the target alone was.
   */
  lemma ServedExactly(w: World, h: World, src: Id, dst: Id, S: set<Slot>, toldTarget: set<Slot>, toldSource: set<Slot>, t: Slot)
    requires Sound(w) && ServesAll(w, src, S) && src != dst && dst in w.nodes && t in S
    requires BulkAnyhow(w, h, src, dst, S, toldTarget, toldSource)
    ensures forall x :: Claims(h, x, t) <==> (x == src && t !in toldSource) || (x == dst && t in toldTarget)
    ensures Served(h, t) <==> t in toldTarget || t !in toldSource
    ensures Claims(h, src, t) && Claims(h, dst, t) <==> t in toldTarget && t !in toldSource
  {
    assert Claims(w, src, t);
    forall x ensures Claims(h, x, t) <==> (x == src && t !in toldSource) || (x == dst && t in toldTarget) {
      assert x != src ==> !Claims(w, x, t);
    }
    if t in toldTarget {
      assert Claims(h, dst, t);
    } else if t !in toldSource {
      assert Claims(h, src, t);
    }
  }

  /** With a client that loses at most MIGRATE, a slot has two owners exactly when the source still stores keys of it, and never none. */
  lemma SplitExactly(w: World, h: World, src: Id, dst: Id, S: set<Slot>, toldTarget: set<Slot>, toldSource: set<Slot>, t: Slot)
    requires Sound(w) && ServesAll(w, src, S) && src != dst && dst in w.nodes && t in S
    requires BulkAnyhow(w, h, src, dst, S, toldTarget, toldSource) && ToldSteadily(h, src, S, toldTarget, toldSource)
    ensures Claims(h, dst, t)
    ensures Claims(h, src, t) <==> Data(h, src, t) != map[]
  {
    ServedExactly(w, h, src, dst, S, toldTarget, toldSource, t);
  }

  /** Whatever fails, no key is lost as long as both ends are there. */
  lemma KeysAreHeld(w: World, h: World, src: Id, dst: Id, S: set<Slot>, toldTarget: set<Slot>, toldSource: set<Slot>, t: Slot)
    requires Sound(w) && ServesAll(w, src, S) && src != dst && dst in w.nodes && t < w.n
    requires BulkAnyhow(w, h, src, dst, S, toldTarget, toldSource)
    ensures Held(h, t, Data(w, Owner(w, t), t))
  {
    if t in S {
      OwnerIs(w, src, t);
      assert Claims(w, src, t);
      assert !Claims(w, dst, t) && Data(w, dst, t) == map[];
      SplitKeysHeld(h, src, dst, t, Data(w, src, t));
    } else {
      assert Data(h, Owner(w, t), t) == Data(w, Owner(w, t), t);
    }
  }

  lemma SplitKeysHeld(h: World, a: Id, b: Id, t: Slot, m: Contents)
    requires a in h.nodes && b in h.nodes && Data(h, b, t) + Data(h, a, t) == m
    ensures Held(h, t, m)
  {
    forall k | k in m ensures exists x :: x in h.nodes && k in Data(h, x, t) && Data(h, x, t)[k] == m[k] {
      if k in Data(h, a, t) {
        assert Data(h, a, t)[k] == m[k];
      } else {
        assert Data(h, b, t)[k] == m[k];
      }
    }
  }

  /**
   * Why going on after a failed key migration is not safe: the target accepts the slot, the
   * source, which still stores keys, refuses to let go of it, and both serve it.
   */
  lemma FailedMigrationSplitsSlot(w: World, src: Id, dst: Id, s: Slot)
    requires Sound(w) && Claims(w, src, s) && Data(w, src, s) != map[] && IsMaster(w, src) && IsMaster(w, dst) && src != dst
    ensures Accepts(w, SetSlot(dst, NODE, s, dst))
    ensures var h := Effect(w, SetSlot(dst, NODE, s, dst));
            !Accepts(h, SetSlot(src, NODE, s, dst)) && Claims(h, src, s) && Claims(h, dst, s) && !Sound(h)
  {
    var h := Effect(w, SetSlot(dst, NODE, s, dst));
    assert View(h, src, s) == src && Data(h, src, s) == Data(w, src, s);
    assert !Claims(w, dst, s);
    assert Claims(h, src, s) && Claims(h, dst, s);
  }

  /** And if the source is then forgotten, as it is when its StatefulSet is removed, its keys are gone. */
  lemma FailedMigrationLosesKeys(w: World, src: Id, dst: Id, s: Slot, k: Key)
    requires Sound(w) && Claims(w, src, s) && k in Data(w, src, s) && IsMaster(w, src) && IsMaster(w, dst) && src != dst
    ensures var h := Forget(Effect(w, SetSlot(dst, NODE, s, dst)), {src}, {});
            Claims(h, dst, s) && forall a :: a in h.nodes ==> k !in Data(h, a, s)
  {
    var g := Effect(w, SetSlot(dst, NODE, s, dst));
    var h := Forget(g, {src}, {});
    assert View(h, dst, s) == View(g, dst, s) == dst;
    forall a | a in h.nodes ensures k !in Data(h, a, s) {
      assert Data(h, a, s) == Data(w, a, s);
      assert !Claims(w, a, s);
    }
  }
}
