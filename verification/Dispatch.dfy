/** DispatchSlotToNewMasters of pkg/controller/clustering/migration.go: carrying out a plan. */
module Dispatch {
  import opened Basics
  import opened SlotLists
  import opened RedisWorld
  import opened Nodes
  import opened AdminClient
  import opened BulkMoveProtocol
  import opened Scattering
  import opened Filling
  import opened ScaleDownPlan

  // ---------- where every slot is listed ----------

  /** The masters' lists, which have no duplicates, put every slot where loc says. */
  ghost predicate Located(ns: seq<Node>, loc: map<Slot, Node>)
    reads ns
  {
    && (forall i :: 0 <= i < |ns| ==> NoDup(ns[i].Slots))
    && (forall i, s: Slot :: 0 <= i < |ns| ==> (s in ns[i].Slots <==> s in loc && loc[s] == ns[i]))
  }

  function Relocated(loc: map<Slot, Node>, slots: seq<Slot>, to: Node): map<Slot, Node> {
    loc + map s | s in slots :: to
  }

  /** The masters serve exactly what loc says, and nobody else serves anything. */
  ghost predicate ServedAsLocated(w: World, ns: seq<Node>, loc: map<Slot, Node>) {
    && (forall i, s: Slot :: 0 <= i < |ns| ==> (Claims(w, ns[i].ID, s) <==> s in loc && loc[s] == ns[i]))
    && (forall x, s: Slot :: Claims(w, x, s) ==> exists i :: 0 <= i < |ns| && ns[i].ID == x)
  }

  ghost predicate AllSane(ns: seq<Node>) {
    forall i, j :: 0 <= i < |ns| && 0 <= j < |ns| && ns[i].ID == ns[j].ID ==> ns[i] == ns[j]
  }

  ghost predicate AllMasters(w: World, ns: seq<Node>) {
    forall i :: 0 <= i < |ns| ==> IsMaster(w, ns[i].ID)
  }

  /** What a client that loses no command keeps true from the world w0 on. */
  ghost predicate Faithful(w0: World, w: World, ns: seq<Node>, loc: map<Slot, Node>) {
    && SameContents(w0, w) && w.nodes == w0.nodes && w.replicaOf == w0.replicaOf
    && w.importing.Keys <= w0.importing.Keys && w.migrating.Keys <= w0.migrating.Keys
    && ServedAsLocated(w, ns, loc)
  }

  /** x names the owner of every slot. */
  ghost predicate Agrees(w: World, x: Id)
    requires Sound(w)
  {
    forall s: Slot :: s < w.n ==> View(w, x, s) == Owner(w, s)
  }

  /** The views that named every owner in w do so in h, as far as the nodes ids are concerned. */
  ghost predicate StillAgree(w: World, h: World, ids: set<Id>)
    requires Sound(w) && Sound(h)
  {
    forall x :: x in ids && Agrees(w, x) ==> Agrees(h, x)
  }

  /** The ids of the nodes that list slots. */
  ghost function ListingIds(ns: seq<Node>): set<Id>
    reads ns
  {
    set x | x in ns && x.Slots != [] :: x.ID
  }

  // ---------- telling the other masters ----------

  /** All listed masters that still list slots know of the move. */
  ghost predicate ToldAll(ns: seq<Node>, k: nat, from: Id, to: Id, told: set<Id>)
    requires k <= |ns|
    reads ns
  {
    forall i :: 0 <= i < k && ns[i].Slots != [] && ns[i].ID != from && ns[i].ID != to ==> ns[i].ID in told
  }

  lemma OthersAccept(w: World, v: World, src: Id, dst: Id, S: set<Slot>, told: set<Id>, x: Id)
    requires Sound(w) && BulkReady(w, src, dst, S) && BulkDone(w, v, src, dst, S, told)
    requires IsMaster(w, x) && x != src && x != dst
    ensures forall s :: s in S ==> Accepts(v, SetSlot(x, NODE, s, dst))
  {
    forall s | s in S ensures View(v, x, s) != x {
      assert Claims(w, src, s);
      assert View(w, x, s) == x ==> Claims(w, x, s);
    }
  }

  /** migration.go lines 107 to 123. */
  method TellOthers(admin: Admin, ns: seq<Node>, from: Id, to: Id, slots: seq<Slot>, ghost w: World,
                    ghost toldTarget: set<Slot>, ghost toldSource: set<Slot>)
    returns (ghost told: set<Id>)
    requires BulkAnyhow(w, admin.world, from, to, ToSet(slots), toldTarget, toldSource)
    modifies admin
    ensures old(admin.hist) <= admin.hist && admin.world.data == old(admin.world).data
    ensures ToldAll(ns, |ns|, from, to, told)
    ensures BulkAnyhow(w, admin.world, from, to, ToSet(slots), toldTarget, toldSource)
    ensures AllSomehow(w, admin.hist, |old(admin.hist)|, from, to, ToSet(slots))
    ensures admin.reliable && Sound(w) && AllMasters(w, ns) && BulkReady(w, from, to, ToSet(slots))
            && BulkDone(w, old(admin.world), from, to, ToSet(slots), {}) ==>
              && BulkDone(w, admin.world, from, to, ToSet(slots), told)
              && forall i :: |old(admin.hist)| <= i < |admin.hist| ==> BulkStage(w, admin.hist[i], from, to, ToSet(slots))
  {
    told := {};
    ghost var S := ToSet(slots);
    ghost var fine := admin.reliable && Sound(w) && AllMasters(w, ns) && BulkReady(w, from, to, S)
                      && BulkDone(w, admin.world, from, to, S, {});
    for i := 0 to |ns|
      invariant old(admin.hist) <= admin.hist && admin.world.data == old(admin.world).data
      invariant ToldAll(ns, i, from, to, told)
      invariant BulkAnyhow(w, admin.world, from, to, S, toldTarget, toldSource)
      invariant AllSomehow(w, admin.hist, |old(admin.hist)|, from, to, S)
      invariant fine ==> BulkDone(w, admin.world, from, to, S, told)
      invariant fine ==> forall k :: |old(admin.hist)| <= k < |admin.hist| ==> BulkStage(w, admin.hist[k], from, to, S)
    {
      var master := ns[i];
      if master.ID == to || master.ID == from {
        continue;
      }
      if |master.Slots| == 0 {
        continue;
      }
      TellOther(admin, master.ID, from, to, slots, w, told, toldTarget, toldSource);
      told := told + {master.ID};
    }
  }

  method TellOther(admin: Admin, x: Id, from: Id, to: Id, slots: seq<Slot>, ghost w: World, ghost told: set<Id>,
                   ghost toldTarget: set<Slot>, ghost toldSource: set<Slot>)
    requires x != from && x != to && BulkAnyhow(w, admin.world, from, to, ToSet(slots), toldTarget, toldSource)
    modifies admin
    ensures old(admin.hist) <= admin.hist && admin.world.data == old(admin.world).data
    ensures BulkAnyhow(w, admin.world, from, to, ToSet(slots), toldTarget, toldSource)
    ensures AllSomehow(w, admin.hist, |old(admin.hist)|, from, to, ToSet(slots))
    ensures admin.reliable && Sound(w) && IsMaster(w, x) && BulkReady(w, from, to, ToSet(slots))
            && BulkDone(w, old(admin.world), from, to, ToSet(slots), told) ==>
              && BulkDone(w, admin.world, from, to, ToSet(slots), told + {x})
              && forall i :: |old(admin.hist)| <= i < |admin.hist| ==> BulkStage(w, admin.hist[i], from, to, ToSet(slots))
  {
    ghost var v, S := admin.world, ToSet(slots);
    ghost var fine := admin.reliable && Sound(w) && IsMaster(w, x) && BulkReady(w, from, to, S) && BulkDone(w, v, from, to, S, told);
    if fine {
      OthersAccept(w, v, from, to, S, told, x);
    }
    var ok: bool;
    ghost var applied;
    ok, applied := admin.SetSlots(x, NODE, slots, to);
    OtherToldAnyhow(w, v, admin.world, from, to, slots, toldTarget, toldSource, x, applied);
    forall i | |old(admin.hist)| <= i < |admin.hist| ensures SomehowMoved(w, admin.hist[i], from, to, S) {
      var T: set<Slot> :| SetSome(v, admin.hist[i], x, NODE, slots, to, T);
      OtherToldAnyhow(w, v, admin.hist[i], from, to, slots, toldTarget, toldSource, x, T);
    }
    if fine {
      OtherToldIsDone(w, v, from, to, S, told, x);
      forall i | |old(admin.hist)| <= i < |admin.hist| ensures BulkStage(w, admin.hist[i], from, to, S) {
        var T: set<Slot> :| SetSome(v, admin.hist[i], x, NODE, slots, to, T);
        OtherToldIsStage(w, v, from, to, S, told, x, T);
      }
    }
  }

  // ---------- one entry of the plan ----------

  lemma ReadyAsLocated(w: World, ns: seq<Node>, loc: map<Slot, Node>, from: Node, to: Node, slots: seq<Slot>)
    requires Sound(w) && ServedAsLocated(w, ns, loc) && AllMasters(w, ns) && AllSane(ns)
    requires from in ns && to in ns && from != to
    requires forall s :: s in slots ==> s in loc && loc[s] == from
    ensures BulkReady(w, from.ID, to.ID, ToSet(slots))
  {
    var i :| 0 <= i < |ns| && ns[i] == from;
    var j :| 0 <= j < |ns| && ns[j] == to;
    forall s | s in slots ensures s < w.n && View(w, from.ID, s) == from.ID && View(w, to.ID, s) != to.ID {
      assert Claims(w, ns[i].ID, s);
      assert !Claims(w, ns[j].ID, s);
    }
  }

  lemma RelocatedAt(loc: map<Slot, Node>, slots: seq<Slot>, to: Node, s: Slot, x: Node)
    ensures s in Relocated(loc, slots, to) && Relocated(loc, slots, to)[s] == x <==>
              if s in slots then x == to else s in loc && loc[s] == x
  {
  }

  lemma ServedStep(w: World, h: World, ns: seq<Node>, loc: map<Slot, Node>, to: Node, slots: seq<Slot>)
    requires ServedAsLocated(w, ns, loc) && AllSane(ns) && to in ns
    requires forall x, t: Slot :: Claims(h, x, t) <==> if t in ToSet(slots) then x == to.ID else Claims(w, x, t)
    ensures ServedAsLocated(h, ns, Relocated(loc, slots, to))
  {
    var j :| 0 <= j < |ns| && ns[j] == to;
    forall i, s: Slot | 0 <= i < |ns|
      ensures Claims(h, ns[i].ID, s) <==> s in Relocated(loc, slots, to) && Relocated(loc, slots, to)[s] == ns[i]
    {
      RelocatedAt(loc, slots, to, s, ns[i]);
      assert ns[i].ID == to.ID ==> ns[i] == ns[j];
    }
    forall x, s: Slot | Claims(h, x, s) ensures exists i :: 0 <= i < |ns| && ns[i].ID == x {
      if s in ToSet(slots) {
        assert ns[j].ID == x;
      } else {
        assert Claims(w, x, s);
      }
    }
  }

  lemma FaithfulStep(w0: World, w: World, h: World, ns: seq<Node>, loc: map<Slot, Node>, from: Node, to: Node, slots: seq<Slot>, told: set<Id>)
    requires Faithful(w0, w, ns, loc) && AllMasters(w, ns) && AllSane(ns) && from in ns && to in ns
    requires BulkReady(w, from.ID, to.ID, ToSet(slots)) && BulkDone(w, h, from.ID, to.ID, ToSet(slots), told)
    ensures Faithful(w0, h, ns, Relocated(loc, slots, to))
  {
    DoneIsPassedOn(w, h, from.ID, to.ID, ToSet(slots), told);
    SameContentsTransitive(w0, w, h);
    ServedStep(w, h, ns, loc, to, slots);
  }

  lemma AgreesStep(w: World, h: World, src: Id, dst: Id, S: set<Slot>, told: set<Id>, x: Id)
    requires Sound(w) && Sound(h) && BulkReady(w, src, dst, S) && BulkDone(w, h, src, dst, S, told) && PassedOn(w, h, dst, S)
    requires Agrees(w, x) && (x == src || x == dst || x in told)
    ensures Agrees(h, x)
  {
    forall s: Slot | s < h.n ensures View(h, x, s) == Owner(h, s) {
      if s in S {
        assert Claims(h, dst, s);
        OwnerIs(h, dst, s);
      } else {
        assert Claims(h, Owner(w, s), s);
        OwnerIs(h, Owner(w, s), s);
      }
    }
  }

  /** No command is lost, all masters are masters, and the run started from a sound world. */
  ghost predicate Fine(admin: Admin, w0: World, ns: seq<Node>) {
    admin.reliable && Sound(w0) && AllMasters(w0, ns)
  }

  /**
   * The commands of one entry with a source; told are the nodes that now name the new owner,
   * toldTarget and toldSource the slots of which the two ends were told.
   */
  method MoveKeysAndTell(admin: Admin, from: Node, to: Node, slots: seq<Slot>, ns: seq<Node>,
                         ghost loc: map<Slot, Node>, ghost w0: World)
    returns (ok: bool, ghost told: set<Id>, ghost toldTarget: set<Slot>, ghost toldSource: set<Slot>)
    requires AllSane(ns) && from in ns && to in ns && from != to
    requires forall s :: s in slots ==> s in loc && loc[s] == from
    requires Fine(admin, w0, ns) ==> Faithful(w0, admin.world, ns, loc)
    modifies admin, from`Slots
    ensures old(admin.hist) <= admin.hist
    ensures ok ==> from.Slots == Without(old(from.Slots), slots)
    ensures BulkAnyhow(old(admin.world), admin.world, from.ID, to.ID, ToSet(slots), toldTarget, toldSource)
    ensures AllSomehow(old(admin.world), admin.hist, |old(admin.hist)|, from.ID, to.ID, ToSet(slots))
    ensures (admin.reliable || admin.steady) && BulkReady(old(admin.world), from.ID, to.ID, ToSet(slots)) ==>
              ok && ToldSteadily(admin.world, from.ID, ToSet(slots), toldTarget, toldSource)
    ensures Fine(admin, w0, ns) ==>
              && ok && Faithful(w0, admin.world, ns, Relocated(loc, slots, to))
              && AllIntact(w0, admin.hist, |old(admin.hist)|)
              && StillAgree(old(admin.world), admin.world, told + {from.ID, to.ID})
    ensures ok ==> ToldAll(ns, |ns|, from.ID, to.ID, told)
  {
    SaneIds(ns, from, to);
    ghost var w, S, h0 := admin.world, ToSet(slots), admin.hist;
    told, toldTarget, toldSource := {}, {}, {};
    ok := OpenAndDrain(admin, from.ID, to.ID, slots);
    ghost var h1 := admin.hist;
    DrainingIsAnyhow(w, admin.world, from.ID, to.ID, S);
    DrainingIsSomehow(w, h1, |h0|, from.ID, to.ID, S);
    if Fine(admin, w0, ns) {
      ReadyAsLocated(w, ns, loc, from, to, slots);
    }
    if !ok {
      return;
    }
    toldTarget, toldSource := TellBoth(admin, from.ID, to.ID, slots, w);
    ghost var h2 := admin.hist;
    var rest := RemoveSlots(from.Slots, slots);
    from.Slots := rest;
    ghost var v := admin.world;
    told := TellOthers(admin, ns, from.ID, to.ID, slots, w, toldTarget, toldSource);
    SameDataAt(v, admin.world, from.ID);
    HistoriesMeet(w, h1, h2, admin.hist, |h0|, from.ID, to.ID, S);
    if Fine(admin, w0, ns) {
      FaithfulStep(w0, w, admin.world, ns, loc, from, to, slots, told);
      DrainedStages(w, h1, |h0|, from.ID, to.ID, S);
      StagesAreIntact(w0, w, h1, h2, admin.hist, |h0|, from.ID, to.ID, S);
      AgreesAfterEntry(w, admin.world, from.ID, to.ID, S, told);
    }
  }

  lemma StagesAreIntact(w0: World, w: World, h1: seq<World>, h2: seq<World>, h3: seq<World>, from: nat, src: Id, dst: Id, S: set<Slot>)
    requires from <= |h1| && h1 <= h2 <= h3 && SameContents(w0, w) && BulkReady(w, src, dst, S)
    requires forall i :: from <= i < |h1| ==> BulkStage(w, h1[i], src, dst, S)
    requires forall i :: |h1| <= i < |h2| ==> BulkStage(w, h2[i], src, dst, S)
    requires forall i :: |h2| <= i < |h3| ==> BulkStage(w, h3[i], src, dst, S)
    ensures AllIntact(w0, h3, from)
  {
    forall i | from <= i < |h3| ensures Intact(w0, h3[i]) {
      assert i < |h1| ==> h3[i] == h1[i];
      assert |h1| <= i < |h2| ==> h3[i] == h2[i];
      StageIsIntact(w0, w, h3[i], src, dst, S);
    }
  }

  lemma AgreesAfterEntry(w: World, h: World, src: Id, dst: Id, S: set<Slot>, told: set<Id>)
    requires Sound(w) && BulkReady(w, src, dst, S) && BulkDone(w, h, src, dst, S, told)
    ensures Sound(h) && StillAgree(w, h, told + {src, dst})
  {
    DoneIsPassedOn(w, h, src, dst, S, told);
    forall x | Agrees(w, x) && x in told + {src, dst} ensures Agrees(h, x) {
      AgreesStep(w, h, src, dst, S, told, x);
    }
  }

  lemma DrainingIsSomehow(w: World, hist: seq<World>, from: nat, src: Id, dst: Id, S: set<Slot>)
    requires forall i :: from <= i < |hist| ==> Draining(w, hist[i], src, dst, S)
    ensures AllSomehow(w, hist, from, src, dst, S)
  {
    forall i | from <= i < |hist| ensures SomehowMoved(w, hist[i], src, dst, S) {
      DrainingIsAnyhow(w, hist[i], src, dst, S);
    }
  }

  lemma DrainedStages(w: World, hist: seq<World>, from: nat, src: Id, dst: Id, S: set<Slot>)
    requires BulkReady(w, src, dst, S) && forall i :: from <= i < |hist| ==> Draining(w, hist[i], src, dst, S)
    ensures forall i :: from <= i < |hist| ==> BulkStage(w, hist[i], src, dst, S)
  {
    forall i | from <= i < |hist| ensures BulkStage(w, hist[i], src, dst, S) {
      DrainingIsStage(w, hist[i], src, dst, S);
    }
  }

  lemma HistoriesMeet(w: World, h1: seq<World>, h2: seq<World>, h3: seq<World>, from: nat, src: Id, dst: Id, S: set<Slot>)
    requires from <= |h1| && h1 <= h2 <= h3
    requires AllSomehow(w, h1, from, src, dst, S) && AllSomehow(w, h2, |h1|, src, dst, S) && AllSomehow(w, h3, |h2|, src, dst, S)
    ensures AllSomehow(w, h3, from, src, dst, S)
  {
    forall i | from <= i < |h3| ensures SomehowMoved(w, h3[i], src, dst, S) {
      assert i < |h1| ==> h3[i] == h1[i];
      assert |h1| <= i < |h2| ==> h3[i] == h2[i];
    }
  }

  lemma SaneIds(ns: seq<Node>, a: Node, b: Node)
    requires AllSane(ns) && a in ns && b in ns && a != b
    ensures a.ID != b.ID
  {
    var i :| 0 <= i < |ns| && ns[i] == a;
    var j :| 0 <= j < |ns| && ns[j] == b;
  }

  lemma RelocatedAnew(loc: map<Slot, Node>, slots: seq<Slot>, to: Node)
    ensures Relocated(loc - ToSet(slots), slots, to) == Relocated(loc, slots, to)
  {
  }

  /** The source's list without the slots; nothing lists them in between. */
  lemma TakenAway(ns: seq<Node>, loc: map<Slot, Node>, from: Node, slots: seq<Slot>, lists: map<Node, seq<Slot>>)
    requires from in ns && (forall x :: x in ns ==> x in lists) && (forall s :: s in slots ==> s in loc && loc[s] == from)
    requires forall i :: 0 <= i < |ns| ==> NoDup(lists[ns[i]])
    requires forall i, s: Slot :: 0 <= i < |ns| ==> (s in lists[ns[i]] <==> s in loc && loc[s] == ns[i])
    requires from.Slots == Without(lists[from], slots) && forall x :: x in ns && x != from ==> x.Slots == lists[x]
    ensures Located(ns, loc - ToSet(slots))
  {
    WithoutMembers(lists[from], slots);
  }

  /** The target's list with the slots, which nothing else lists. */
  method ListAt(to: Node, slots: seq<Slot>, ns: seq<Node>, ghost loc: map<Slot, Node>)
    requires to in ns && Located(ns, loc) && forall s :: s in slots ==> s !in loc
    modifies to`Slots
    ensures Located(ns, Relocated(loc, slots, to))
  {
    assert NoDup(to.Slots);
    var more := SlotLists.AddSlots(to.Slots, slots);
    to.Slots := more;
    forall i, s: Slot | 0 <= i < |ns|
      ensures s in ns[i].Slots <==> s in Relocated(loc, slots, to) && Relocated(loc, slots, to)[s] == ns[i]
    {
      RelocatedAt(loc, slots, to, s, ns[i]);
      assert old(s in ns[i].Slots) <==> s in loc && loc[s] == ns[i];
    }
  }

  lemma ToldOrEnd(ns: seq<Node>, from: Node, to: Node, told: set<Id>, x: Node)
    requires ToldAll(ns, |ns|, from.ID, to.ID, told) && x in ns && (x == from || x.Slots != [])
    ensures x.ID in told + {from.ID, to.ID}
  {
    var i :| 0 <= i < |ns| && ns[i] == x;
  }

  /** migration.go lines 70 to 126, for an entry with a source. */
  method MoveGroup(admin: Admin, from: Node, to: Node, slots: seq<Slot>, ns: seq<Node>, ghost loc: map<Slot, Node>, ghost w0: World)
    returns (ok: bool, ghost toldTarget: set<Slot>, ghost toldSource: set<Slot>)
    requires AllSane(ns) && from in ns && to in ns && from != to && Located(ns, loc)
    requires forall s :: s in slots ==> s in loc && loc[s] == from
    requires Fine(admin, w0, ns) ==> Faithful(w0, admin.world, ns, loc)
    modifies admin, from`Slots, to`Slots
    ensures old(admin.hist) <= admin.hist
    ensures ok ==> Located(ns, Relocated(loc, slots, to))
    ensures BulkAnyhow(old(admin.world), admin.world, from.ID, to.ID, ToSet(slots), toldTarget, toldSource)
    ensures AllSomehow(old(admin.world), admin.hist, |old(admin.hist)|, from.ID, to.ID, ToSet(slots))
    ensures (admin.reliable || admin.steady) && BulkReady(old(admin.world), from.ID, to.ID, ToSet(slots)) ==>
              ok && ToldSteadily(admin.world, from.ID, ToSet(slots), toldTarget, toldSource)
    ensures Fine(admin, w0, ns) ==>
              && ok && Faithful(w0, admin.world, ns, Relocated(loc, slots, to))
              && AllIntact(w0, admin.hist, |old(admin.hist)|)
              && StillAgree(old(admin.world), admin.world, old(ListingIds(ns)))
  {
    ghost var told;
    ghost var lists := map x | x in ns :: x.Slots;
    ok, told, toldTarget, toldSource := MoveKeysAndTell(admin, from, to, slots, ns, loc, w0);
    if !ok {
      return;
    }
    assert old(ListingIds(ns)) <= told + {from.ID, to.ID} by {
      forall x | x in ns && lists[x] != [] ensures x.ID in told + {from.ID, to.ID} {
        ToldOrEnd(ns, from, to, told, x);
      }
    }
    TakenAway(ns, loc, from, slots, lists);
    ListAt(to, slots, ns, loc - ToSet(slots));
    RelocatedAnew(loc, slots, to);
  }

  /** migration.go lines 63 to 69 and 126, for an entry of lost slots. */
  method AddLostSlots(admin: Admin, to: Node, slots: seq<Slot>, ns: seq<Node>, ghost loc: map<Slot, Node>) returns (ok: bool)
    requires to in ns && Located(ns, loc) && forall s :: s in slots ==> s !in loc
    modifies admin, to`Slots
    ensures old(admin.hist) <= admin.hist
    ensures ok ==> Located(ns, Relocated(loc, slots, to))
  {
    ok := admin.AddSlots(to.ID, slots);
    if !ok {
      return;
    }
    ListAt(to, slots, ns, loc);
  }

  // ---------- the whole plan ----------

  type Plan = map<MigrationInfo, seq<Slot>>

  /** Every entry takes slots from where loc has them, and no slot is in two entries. */
  ghost predicate GoodPlan(plan: Plan, ns: seq<Node>, loc: map<Slot, Node>) {
    && (forall e :: e in plan ==> e.To in ns && e.From != e.To && (e.From != null ==> e.From in ns))
    && (forall e, s :: e in plan && s in plan[e] ==> if e.From == null then s !in loc else s in loc && loc[s] == e.From)
    && (forall e, e', s :: e in plan && e' in plan && s in plan[e] && s in plan[e'] ==> e == e')
  }

  /** The entries outside rest have been carried out. */
  ghost predicate CarriedOut(plan: Plan, rest: set<MigrationInfo>, loc0: map<Slot, Node>, loc: map<Slot, Node>) {
    && (forall e, s :: e in plan && e !in rest && s in plan[e] ==> s in loc && loc[s] == e.To)
    && (forall s: Slot :: (forall e :: e in plan && e !in rest ==> s !in plan[e]) ==>
          (s in loc <==> s in loc0) && (s in loc ==> loc[s] == loc0[s]))
  }

  /** The slots of an entry that is still to come are where they were. */
  lemma StillThere(plan: Plan, ns: seq<Node>, rest: set<MigrationInfo>, loc0: map<Slot, Node>, loc: map<Slot, Node>, e: MigrationInfo, s: Slot)
    requires GoodPlan(plan, ns, loc0) && CarriedOut(plan, rest, loc0, loc) && e in rest && e in plan && s in plan[e]
    ensures (s in loc <==> s in loc0) && (s in loc ==> loc[s] == loc0[s])
    ensures if e.From == null then s !in loc else s in loc && loc[s] == e.From
  {
    assert forall e' :: e' in plan && e' !in rest ==> s !in plan[e'];
  }

  lemma CarriedOutStep(plan: Plan, ns: seq<Node>, rest: set<MigrationInfo>, loc0: map<Slot, Node>, loc: map<Slot, Node>, e: MigrationInfo)
    requires GoodPlan(plan, ns, loc0) && CarriedOut(plan, rest, loc0, loc) && e in rest && e in plan
    ensures CarriedOut(plan, rest - {e}, loc0, Relocated(loc, plan[e], e.To))
    ensures forall s :: s in plan[e] ==> if e.From == null then s !in loc else s in loc && loc[s] == e.From
  {
    forall s | s in plan[e] ensures if e.From == null then s !in loc else s in loc && loc[s] == e.From {
      StillThere(plan, ns, rest, loc0, loc, e, s);
    }
    var loc' := Relocated(loc, plan[e], e.To);
    forall e', s | e' in plan && e' !in rest - {e} && s in plan[e'] ensures s in loc' && loc'[s] == e'.To {
      if e' != e {
        assert s !in plan[e];
      }
    }
    forall s: Slot | forall e' :: e' in plan && e' !in rest - {e} ==> s !in plan[e']
      ensures (s in loc' <==> s in loc0) && (s in loc' ==> loc'[s] == loc0[s])
    {
      assert s !in plan[e];
      assert forall e' :: e' in plan && e' !in rest ==> s !in plan[e'];
    }
  }

  /** x keeps a slot of its own through the whole plan. */
  ghost predicate Anchored(plan: Plan, loc0: map<Slot, Node>, x: Node) {
    exists s :: s in loc0 && loc0[s] == x && forall e :: e in plan ==> s !in plan[e]
  }

  lemma AnchorHolds(plan: Plan, rest: set<MigrationInfo>, ns: seq<Node>, loc0: map<Slot, Node>, loc: map<Slot, Node>, i: nat)
    requires i < |ns| && Anchored(plan, loc0, ns[i]) && CarriedOut(plan, rest, loc0, loc) && Located(ns, loc)
    ensures ns[i].Slots != []
  {
    var s :| s in loc0 && loc0[s] == ns[i] && forall e :: e in plan ==> s !in plan[e];
    assert s in loc && loc[s] == ns[i];
    assert s in ns[i].Slots;
  }

  ghost function AnchoredIds(plan: Plan, loc0: map<Slot, Node>, ns: seq<Node>): set<Id> {
    set x | x in ns && Anchored(plan, loc0, x) :: x.ID
  }

  lemma AnchorsList(plan: Plan, rest: set<MigrationInfo>, ns: seq<Node>, loc0: map<Slot, Node>, loc: map<Slot, Node>)
    requires CarriedOut(plan, rest, loc0, loc) && Located(ns, loc)
    ensures AnchoredIds(plan, loc0, ns) <= ListingIds(ns)
  {
    forall x | x in ns && Anchored(plan, loc0, x) ensures x.Slots != [] {
      var i :| 0 <= i < |ns| && ns[i] == x;
      AnchorHolds(plan, rest, ns, loc0, loc, i);
    }
  }

  // ---------- the plan and the world, whatever fails ----------

  /** The plan moves slots from their owners in w0 to their goals. */
  ghost predicate Aims(w0: World, plan: Plan, goal: Goals) {
    && Sound(w0) && GoodGoals(w0, goal)
    && (forall e :: e in plan ==> e.From != null && e.From.ID != e.To.ID)
    && forall e, s :: e in plan && s in plan[e] ==> s < w0.n && Owner(w0, s) == e.From.ID && goal[s] == e.To.ID
  }

  lemma AimsAt(w0: World, plan: Plan, goal: Goals, e: MigrationInfo, t: Slot)
    requires Aims(w0, plan, goal) && e in plan && t in plan[e]
    ensures t < w0.n && Owner(w0, t) == e.From.ID && goal[t] == e.To.ID
  {
  }

  /** Of the slots of entries still to come nobody was told. */
  ghost predicate Untold(plan: Plan, rest: set<MigrationInfo>, toldTarget: set<Slot>, toldSource: set<Slot>) {
    forall e, s :: e in plan && e in rest && s in plan[e] ==> s !in toldTarget && s !in toldSource
  }

  /** A steady client has told the goals of all planned slots, and their old owners unless they still store keys. */
  ghost predicate SteadilyTold(w0: World, h: World, plan: Plan, rest: set<MigrationInfo>, toldTarget: set<Slot>, toldSource: set<Slot>)
    requires Sound(w0)
  {
    forall e, s :: e in plan && e !in rest && s in plan[e] && s < w0.n ==>
      s in toldTarget && (s in toldSource <==> Data(h, Owner(w0, s), s) == map[])
  }

  ghost predicate AllScattered(w0: World, hist: seq<World>, from: nat, goal: Goals)
    requires Sound(w0) && GoodGoals(w0, goal)
  {
    forall i :: from <= i < |hist| ==> SomehowScattered(w0, hist[i], goal)
  }

  /** Where the plan stands. */
  ghost predicate Underway(w0: World, w: World, hist: seq<World>, from: nat, plan: Plan, rest: set<MigrationInfo>, goal: Goals,
                           toldTarget: set<Slot>, toldSource: set<Slot>)
    requires Aims(w0, plan, goal)
  {
    && Scattered(w0, w, goal, toldTarget, toldSource) && AllScattered(w0, hist, from, goal)
    && Untold(plan, rest, toldTarget, toldSource)
  }

  lemma EntryReady(w0: World, w: World, plan: Plan, rest: set<MigrationInfo>, e: MigrationInfo, goal: Goals, toldTarget: set<Slot>,
                   toldSource: set<Slot>)
    requires Aims(w0, plan, goal) && e in plan && e in rest && Scattered(w0, w, goal, toldTarget, toldSource)
    requires Untold(plan, rest, toldTarget, toldSource)
    ensures StillToMove(w0, goal, toldTarget, toldSource, e.From.ID, e.To.ID, ToSet(plan[e]))
    ensures IsMaster(w0, e.From.ID) && IsMaster(w0, e.To.ID) ==> BulkReady(w, e.From.ID, e.To.ID, ToSet(plan[e]))
  {
    assert StillToMove(w0, goal, toldTarget, toldSource, e.From.ID, e.To.ID, ToSet(plan[e])) by {
      forall t: Slot | t in ToSet(plan[e])
        ensures t < w0.n && Owner(w0, t) == e.From.ID && goal[t] == e.To.ID && t !in toldTarget && t !in toldSource
      {
        AimsAt(w0, plan, goal, e, t);
      }
    }
    StillServed(w0, w, goal, toldTarget, toldSource, e.From.ID, e.To.ID, ToSet(plan[e]));
  }

  lemma EntryUnderway(w0: World, w: World, h: World, hist: seq<World>, from: nat, mid: nat, plan: Plan, rest: set<MigrationInfo>, ns: seq<Node>,
                      loc0: map<Slot, Node>, e: MigrationInfo, goal: Goals, toldTarget: set<Slot>, toldSource: set<Slot>, T: set<Slot>,
                      U: set<Slot>)
    requires Aims(w0, plan, goal) && GoodPlan(plan, ns, loc0) && e in plan && e in rest && from <= mid <= |hist|
    requires Underway(w0, w, hist[..mid], from, plan, rest, goal, toldTarget, toldSource)
    requires BulkAnyhow(w, h, e.From.ID, e.To.ID, ToSet(plan[e]), T, U) && AllSomehow(w, hist, mid, e.From.ID, e.To.ID, ToSet(plan[e]))
    ensures Underway(w0, h, hist, from, plan, rest - {e}, goal, toldTarget + T, toldSource + U)
  {
    var src, dst, S := e.From.ID, e.To.ID, ToSet(plan[e]);
    EntryReady(w0, w, plan, rest, e, goal, toldTarget, toldSource);
    ScatterStep(w0, w, h, goal, toldTarget, toldSource, src, dst, S, T, U);
    forall i | from <= i < |hist| ensures SomehowScattered(w0, hist[i], goal) {
      if i < mid {
        assert hist[i] == hist[..mid][i];
      } else {
        var T', U' :| BulkAnyhow(w, hist[i], src, dst, S, T', U');
        ScatterStep(w0, w, hist[i], goal, toldTarget, toldSource, src, dst, S, T', U');
      }
    }
    forall e', s | e' in plan && e' in rest - {e} && s in plan[e'] ensures s !in toldTarget + T && s !in toldSource + U {
      assert s !in plan[e];
    }
  }

  lemma EntrySteady(w0: World, w: World, h: World, plan: Plan, rest: set<MigrationInfo>, ns: seq<Node>, loc0: map<Slot, Node>, e: MigrationInfo,
                    goal: Goals, toldTarget: set<Slot>, toldSource: set<Slot>, T: set<Slot>, U: set<Slot>)
    requires Aims(w0, plan, goal) && GoodPlan(plan, ns, loc0) && e in plan && e in rest
    requires Untold(plan, rest, toldTarget, toldSource) && SteadilyTold(w0, w, plan, rest, toldTarget, toldSource)
    requires BulkAnyhow(w, h, e.From.ID, e.To.ID, ToSet(plan[e]), T, U) && ToldSteadily(h, e.From.ID, ToSet(plan[e]), T, U)
    ensures SteadilyTold(w0, h, plan, rest - {e}, toldTarget + T, toldSource + U)
  {
    forall e', s | e' in plan && e' !in rest - {e} && s in plan[e'] && s < w0.n
      ensures s in toldTarget + T && (s in toldSource + U <==> Data(h, Owner(w0, s), s) == map[])
    {
      if e' != e {
        assert s !in plan[e];
        assert Data(h, Owner(w0, s), s) == Data(w, Owner(w0, s), s);
      }
    }
  }

  /** migration.go lines 61 to 127: the entries in any order. */
  method CarryOut(admin: Admin, plan: Plan, ns: seq<Node>, ghost loc0: map<Slot, Node>, ghost goal: Goals)
    returns (ok: bool, ghost loc: map<Slot, Node>, ghost toldTarget: set<Slot>, ghost toldSource: set<Slot>)
    requires AllSane(ns) && Located(ns, loc0) && GoodPlan(plan, ns, loc0)
    requires Fine(admin, admin.world, ns) ==> ServedAsLocated(admin.world, ns, loc0) && forall e :: e in plan ==> e.From != null
    modifies admin, ns`Slots
    ensures old(admin.hist) <= admin.hist
    ensures ok ==> Located(ns, loc) && CarriedOut(plan, {}, loc0, loc)
    ensures Aims(old(admin.world), plan, goal) ==>
              && Scattered(old(admin.world), admin.world, goal, toldTarget, toldSource)
              && AllScattered(old(admin.world), admin.hist, |old(admin.hist)|, goal)
    ensures Aims(old(admin.world), plan, goal) && (admin.reliable || admin.steady) && AllMasters(old(admin.world), ns) ==>
              ok && SteadilyTold(old(admin.world), admin.world, plan, {}, toldTarget, toldSource)
    ensures Fine(admin, old(admin.world), ns) ==>
              && ok && Faithful(old(admin.world), admin.world, ns, loc)
              && AllIntact(old(admin.world), admin.hist, |old(admin.hist)|)
              && StillAgree(old(admin.world), admin.world, AnchoredIds(plan, loc0, ns))
  {
    ghost var w0, from := admin.world, |admin.hist|;
    ok, loc, toldTarget, toldSource := true, loc0, {}, {};
    var rest := plan.Keys;
    if Aims(w0, plan, goal) {
      NothingScattered(w0, goal);
    }
    while rest != {}
      invariant rest <= plan.Keys && ok
      invariant old(admin.hist) <= admin.hist
      invariant Located(ns, loc) && CarriedOut(plan, rest, loc0, loc)
      invariant Aims(w0, plan, goal) ==> Underway(w0, admin.world, admin.hist, from, plan, rest, goal, toldTarget, toldSource)
      invariant Aims(w0, plan, goal) && (admin.reliable || admin.steady) && AllMasters(w0, ns) ==>
                  SteadilyTold(w0, admin.world, plan, rest, toldTarget, toldSource)
      invariant Fine(admin, w0, ns) ==> Faithful(w0, admin.world, ns, loc)
      invariant Fine(admin, w0, ns) ==> AllIntact(w0, admin.hist, |old(admin.hist)|)
      invariant Fine(admin, w0, ns) ==> StillAgree(w0, admin.world, AnchoredIds(plan, loc0, ns))
      decreases rest
    {
      var e :| e in rest;
      CarriedOutStep(plan, ns, rest, loc0, loc, e);
      AnchorsList(plan, rest, ns, loc0, loc);
      ghost var hist := admin.hist;
      ghost var T, U;
      ok, T, U := CarryOutNext(admin, plan, rest, e, ns, loc0, loc, w0, from, goal, toldTarget, toldSource);
      toldTarget, toldSource := toldTarget + T, toldSource + U;
      if Fine(admin, w0, ns) {
        IntactOnwards(w0, hist, admin.hist, from);
      }
      if !ok {
        return;
      }
      rest, loc := rest - {e}, Relocated(loc, plan[e], e.To);
    }
  }

  /** The next entry, and where the plan stands afterwards. */
  method CarryOutNext(admin: Admin, plan: Plan, ghost rest: set<MigrationInfo>, e: MigrationInfo, ns: seq<Node>, ghost loc0: map<Slot, Node>,
                      ghost loc: map<Slot, Node>, ghost w0: World, ghost from: nat, ghost goal: Goals, ghost toldTarget: set<Slot>,
                      ghost toldSource: set<Slot>)
    returns (ok: bool, ghost T: set<Slot>, ghost U: set<Slot>)
    requires AllSane(ns) && Located(ns, loc) && GoodPlan(plan, ns, loc0) && e in plan && e in rest && from <= |admin.hist|
    requires forall s :: s in plan[e] ==> if e.From == null then s !in loc else s in loc && loc[s] == e.From
    requires Aims(w0, plan, goal) ==> Underway(w0, admin.world, admin.hist, from, plan, rest, goal, toldTarget, toldSource)
    requires Aims(w0, plan, goal) && (admin.reliable || admin.steady) && AllMasters(w0, ns) ==>
               SteadilyTold(w0, admin.world, plan, rest, toldTarget, toldSource)
    requires Fine(admin, w0, ns) ==> Faithful(w0, admin.world, ns, loc) && e.From != null
    modifies admin, ns`Slots
    ensures old(admin.hist) <= admin.hist
    ensures ok ==> Located(ns, Relocated(loc, plan[e], e.To))
    ensures Aims(w0, plan, goal) ==>
              Underway(w0, admin.world, admin.hist, from, plan, rest - {e}, goal, toldTarget + T, toldSource + U)
    ensures Aims(w0, plan, goal) && (admin.reliable || admin.steady) && AllMasters(w0, ns) ==>
              ok && SteadilyTold(w0, admin.world, plan, rest - {e}, toldTarget + T, toldSource + U)
    ensures Fine(admin, w0, ns) ==>
              && ok && Faithful(w0, admin.world, ns, Relocated(loc, plan[e], e.To))
              && AllIntact(w0, admin.hist, |old(admin.hist)|)
              && StillAgree(old(admin.world), admin.world, old(ListingIds(ns)))
  {
    ghost var w, before := admin.world, admin.hist;
    if Aims(w0, plan, goal) {
      EntryReady(w0, w, plan, rest, e, goal, toldTarget, toldSource);
      if AllMasters(w0, ns) {
        MastersOfEntry(w0, ns, e);
      }
    }
    ok, T, U := CarryOutEntry(admin, e, plan[e], ns, loc, w0);
    if Aims(w0, plan, goal) {
      assert admin.hist[..|before|] == before;
      EntryUnderway(w0, w, admin.world, admin.hist, from, |before|, plan, rest, ns, loc0, e, goal, toldTarget, toldSource, T, U);
      if (admin.reliable || admin.steady) && AllMasters(w0, ns) {
        EntrySteady(w0, w, admin.world, plan, rest, ns, loc0, e, goal, toldTarget, toldSource, T, U);
      }
    }
  }

  lemma MastersOfEntry(w0: World, ns: seq<Node>, e: MigrationInfo)
    requires AllMasters(w0, ns) && e.To in ns && e.From != null && e.From in ns
    ensures IsMaster(w0, e.From.ID) && IsMaster(w0, e.To.ID)
  {
  }

  method CarryOutEntry(admin: Admin, e: MigrationInfo, slots: seq<Slot>, ns: seq<Node>, ghost loc: map<Slot, Node>, ghost w0: World)
    returns (ok: bool, ghost toldTarget: set<Slot>, ghost toldSource: set<Slot>)
    requires AllSane(ns) && e.To in ns && e.From != e.To && (e.From != null ==> e.From in ns) && Located(ns, loc)
    requires forall s :: s in slots ==> if e.From == null then s !in loc else s in loc && loc[s] == e.From
    requires Fine(admin, w0, ns) ==> Faithful(w0, admin.world, ns, loc) && e.From != null
    modifies admin, ns`Slots
    ensures old(admin.hist) <= admin.hist
    ensures ok ==> Located(ns, Relocated(loc, slots, e.To))
    ensures e.From != null ==>
              && BulkAnyhow(old(admin.world), admin.world, e.From.ID, e.To.ID, ToSet(slots), toldTarget, toldSource)
              && AllSomehow(old(admin.world), admin.hist, |old(admin.hist)|, e.From.ID, e.To.ID, ToSet(slots))
    ensures e.From != null && (admin.reliable || admin.steady) && BulkReady(old(admin.world), e.From.ID, e.To.ID, ToSet(slots)) ==>
              ok && ToldSteadily(admin.world, e.From.ID, ToSet(slots), toldTarget, toldSource)
    ensures Fine(admin, w0, ns) ==>
              && ok && Faithful(w0, admin.world, ns, Relocated(loc, slots, e.To))
              && AllIntact(w0, admin.hist, |old(admin.hist)|)
              && StillAgree(old(admin.world), admin.world, old(ListingIds(ns)))
  {
    if e.From == null {
      ok := AddLostSlots(admin, e.To, slots, ns, loc);
      toldTarget, toldSource := {}, {};
    } else {
      ok, toldTarget, toldSource := MoveGroup(admin, e.From, e.To, slots, ns, loc, w0);
    }
  }

  // ---------- from the old lists to the new ones ----------

  ghost function HolderOf(ns: seq<Node>, s: Slot): Node
    requires HeldByAny(ns, s)
    reads ns
    ensures HolderOf(ns, s) in ns && s in HolderOf(ns, s).Slots
  {
    var i :| 0 <= i < |ns| && s in ns[i].Slots;
    ns[i]
  }

  ghost function LocOf(ns: seq<Node>, n: Slot): map<Slot, Node>
    reads ns
  {
    map s | s in ToSet(AllSlots(n)) && HeldByAny(ns, s) :: HolderOf(ns, s)
  }

  lemma LocatedAtStart(news: seq<Node>, olds: seq<Node>, n: Slot)
    requires GoodHoldings(news, olds, n)
    ensures AllSane(news + olds) && Located(news + olds, LocOf(olds, n))
    ensures forall s: Slot :: s in LocOf(olds, n) <==> HeldByAny(olds, s)
    ensures forall x, s: Slot :: x in olds && s in x.Slots ==> s in LocOf(olds, n) && LocOf(olds, n)[s] == x
  {
    var ns, loc := news + olds, LocOf(olds, n);
    AllSlotsCard(n);
    forall x, s: Slot | x in olds && s in x.Slots ensures s in loc && loc[s] == x {
      HolderHolds(olds, x, s);
      var k :| 0 <= k < |olds| && olds[k] == x;
      HolderIsUnique(news, olds, n, s, HolderOf(olds, s), x);
    }
    forall i | 0 <= i < |ns| ensures ns[i] in olds || ns[i].Slots == [] {
      assert i < |news| ==> ns[i] == news[i];
    }
    forall i | 0 <= i < |ns| ensures NoDup(ns[i].Slots) {
      if ns[i] in olds {
        var k :| 0 <= k < |olds| && olds[k] == ns[i];
      }
    }
  }

  lemma PlanIsGood(news: seq<Node>, olds: seq<Node>, n: Slot, adds: seq<seq<Slot>>, plan: Plan, done: set<Slot>)
    requires GoodHoldings(news, olds, n) && |adds| == |news| && NoDup(Flatten(adds)) && PlanOf(plan, news, olds, adds, done)
    ensures GoodPlan(plan, news + olds, LocOf(olds, n))
  {
    LocatedAtStart(news, olds, n);
    forall e, s | e in plan && s in plan[e]
      ensures if e.From == null then s !in LocOf(olds, n) else e.From in olds && s in LocOf(olds, n) && LocOf(olds, n)[s] == e.From
    {
      assert ComesFrom(olds, s, e.From);
    }
    forall e | e in plan ensures e.To in news + olds && (e.From != null ==> e.From in news + olds) {
      assert GoodEntry(e, plan[e], news, olds, adds);
      assert ComesFrom(olds, plan[e][0], e.From);
    }
    forall e, e', s | e in plan && e' in plan && s in plan[e] && s in plan[e'] ensures e == e' {
      assert GoesTo(news, adds, s, e.To) && GoesTo(news, adds, s, e'.To);
      TargetIsUnique(news, adds, s, e.To, e'.To);
      assert ComesFrom(olds, s, e.From) && ComesFrom(olds, s, e'.From);
      HolderIsUnique(news, olds, n, s, e.From, e'.From);
    }
  }

  /** In the end every slot is with a new master, which has what it kept and what it was dealt. */
  ghost predicate FinalLoc(loc: map<Slot, Node>, news: seq<Node>, kept: seq<seq<Slot>>, adds: seq<seq<Slot>>, n: Slot) {
    && |kept| == |adds| == |news|
    && (forall s: Slot :: s in loc <==> s < n)
    && (forall s :: s in loc ==> loc[s] in news)
    && (forall i, s: Slot :: 0 <= i < |news| ==> (s in loc && loc[s] == news[i] <==> s in kept[i] || s in adds[i]))
  }

  lemma DealtBackIsNotPlanned(news: seq<Node>, olds: seq<Node>, n: Slot, adds: seq<seq<Slot>>, plan: Plan, to: Node, s: Slot)
    requires GoodHoldings(news, olds, n) && |adds| == |news| && NoDup(Flatten(adds))
    requires PlanOf(plan, news, olds, adds, ToSet(Flatten(adds)))
    requires GoesTo(news, adds, s, to) && ComesFrom(olds, s, to)
    ensures forall e :: e in plan ==> s !in plan[e]
  {
    forall e | e in plan ensures s !in plan[e] {
      assert GoodEntry(e, plan[e], news, olds, adds);
      if s in plan[e] {
        TargetIsUnique(news, adds, s, to, e.To);
        HolderIsUnique(news, olds, n, s, to, e.From);
      }
    }
  }

  /** Slots that are dealt out end where they are dealt. */
  lemma DealtSlotEnds(news: seq<Node>, olds: seq<Node>, n: Slot, adds: seq<seq<Slot>>, plan: Plan, loc: map<Slot, Node>, i: nat, s: Slot)
    requires GoodHoldings(news, olds, n) && |adds| == |news| && NoDup(Flatten(adds))
    requires PlanOf(plan, news, olds, adds, ToSet(Flatten(adds))) && CarriedOut(plan, {}, LocOf(olds, n), loc)
    requires i < |news| && s in adds[i]
    ensures s in loc && loc[s] == news[i]
  {
    FlattenMember(adds, s);
    var to := news[i];
    assert GoesTo(news, adds, s, to);
    if !HeldByAny(olds, s) {
      assert Planned(plan, s, null, to);
    } else if HolderOf(olds, s) != to {
      assert Planned(plan, s, HolderOf(olds, s), to);
    } else {
      DealtBackIsNotPlanned(news, olds, n, adds, plan, to, s);
      LocatedAtStart(news, olds, n);
    }
  }

  lemma KeptSlotStays(news: seq<Node>, olds: seq<Node>, n: Slot, adds: seq<seq<Slot>>, plan: Plan, loc: map<Slot, Node>, s: Slot)
    requires GoodHoldings(news, olds, n) && |adds| == |news| && s !in Flatten(adds)
    requires PlanOf(plan, news, olds, adds, ToSet(Flatten(adds))) && CarriedOut(plan, {}, LocOf(olds, n), loc)
    ensures forall e :: e in plan ==> s !in plan[e]
    ensures (s in loc <==> s in LocOf(olds, n)) && (s in loc ==> loc[s] == LocOf(olds, n)[s])
  {
    FlattenMember(adds, s);
    forall e | e in plan ensures s !in plan[e] {
      assert GoodEntry(e, plan[e], news, olds, adds);
    }
  }

  lemma FinalLocHolds(news: seq<Node>, olds: seq<Node>, n: Slot, perNode: nat, adds: seq<seq<Slot>>, plan: Plan, loc: map<Slot, Node>)
    requires GoodHoldings(news, olds, n) && GoodShares(news, perNode, adds, n)
    requires PlanOf(plan, news, olds, adds, ToSet(Flatten(adds))) && CarriedOut(plan, {}, LocOf(olds, n), loc)
    ensures FinalLoc(loc, news, KeptLists(news, perNode), adds, n)
  {
    forall s: Slot
      ensures s in loc <==> s < n
      ensures s in loc ==> loc[s] in news
      ensures forall i :: 0 <= i < |news| ==> (s in loc && loc[s] == news[i] <==> s in KeptLists(news, perNode)[i] || s in adds[i])
    {
      if s in Flatten(adds) {
        DealtSlotAt(news, olds, n, perNode, adds, plan, loc, s);
      } else {
        KeptSlotAt(news, olds, n, perNode, adds, plan, loc, s);
      }
    }
  }

  lemma DealtSlotAt(news: seq<Node>, olds: seq<Node>, n: Slot, perNode: nat, adds: seq<seq<Slot>>, plan: Plan, loc: map<Slot, Node>, s: Slot)
    requires GoodHoldings(news, olds, n) && GoodShares(news, perNode, adds, n) && s in Flatten(adds)
    requires PlanOf(plan, news, olds, adds, ToSet(Flatten(adds))) && CarriedOut(plan, {}, LocOf(olds, n), loc)
    ensures s < n && s in loc && loc[s] in news
    ensures forall i :: 0 <= i < |news| ==> (loc[s] == news[i] <==> s in KeptLists(news, perNode)[i] || s in adds[i])
  {
    FlattenMember(adds, s);
    var k :| 0 <= k < |adds| && s in adds[k];
    DealtSlotEnds(news, olds, n, adds, plan, loc, k, s);
    forall i | 0 <= i < |news| ensures loc[s] == news[i] <==> s in KeptLists(news, perNode)[i] || s in adds[i] {
      DealtIsNotKept(news, perNode, adds, n, i, s);
      if s in adds[i] {
        DealtSlotEnds(news, olds, n, adds, plan, loc, i, s);
      }
      if news[i] == news[k] {
        SameMaster(news, i, k);
      }
    }
  }

  lemma DealtIsNotKept(news: seq<Node>, perNode: nat, adds: seq<seq<Slot>>, n: Slot, i: nat, s: Slot)
    requires GoodShares(news, perNode, adds, n) && i < |news| && s in Flatten(adds)
    ensures s < n && s !in KeptLists(news, perNode)[i]
  {
    assert KeptLists(news, perNode)[i] == KeptList(news[i], perNode);
  }

  lemma SameMaster(news: seq<Node>, i: nat, k: nat)
    requires DistinctNodes(news) && i < |news| && k < |news| && news[i] == news[k]
    ensures i == k
  {
  }

  lemma KeptSlotAt(news: seq<Node>, olds: seq<Node>, n: Slot, perNode: nat, adds: seq<seq<Slot>>, plan: Plan, loc: map<Slot, Node>, s: Slot)
    requires GoodHoldings(news, olds, n) && GoodShares(news, perNode, adds, n) && s !in Flatten(adds)
    requires PlanOf(plan, news, olds, adds, ToSet(Flatten(adds))) && CarriedOut(plan, {}, LocOf(olds, n), loc)
    ensures (s in loc <==> s < n) && (s in loc ==> loc[s] in news)
    ensures forall i :: 0 <= i < |news| ==> (s in loc && loc[s] == news[i] <==> s in KeptLists(news, perNode)[i] || s in adds[i])
  {
    LocatedAtStart(news, olds, n);
    KeptSlotStays(news, olds, n, adds, plan, loc, s);
    forall i | 0 <= i < |news| && s in KeptList(news[i], perNode) ensures s in loc && loc[s] == news[i] && s < n {
      assert news[i] in olds && s in news[i].Slots;
      var k :| 0 <= k < |olds| && olds[k] == news[i];
      assert s in olds[k].Slots;
    }
    FlattenMember(adds, s);
    if s < n {
      var k :| 0 <= k < |news| && s in KeptList(news[k], perNode);
    }
  }

  // ---------- DispatchSlotToNewMasters ----------

  /** The listed masters list exactly what they serve, and nobody else serves anything. */
  ghost predicate FullyListed(w: World, ns: seq<Node>)
    reads ns
  {
    && (forall i :: 0 <= i < |ns| ==> Truthful(w, ns[i].ID, ns[i].Slots))
    && (forall x, s: Slot :: Claims(w, x, s) ==> exists i :: 0 <= i < |ns| && ns[i].ID == x)
  }

  /** The masters' lists partition the slots 0 .. n - 1. */
  ghost predicate PartitionSlots(ns: seq<Node>, n: Slot)
    reads ns
  {
    && (forall i :: 0 <= i < |ns| ==> NoDup(ns[i].Slots))
    && (forall s: Slot :: HeldByAny(ns, s) <==> s < n)
    && (forall i, j, s: Slot :: 0 <= i < j < |ns| && s in ns[i].Slots ==> s !in ns[j].Slots)
  }

  /** With k >= 2 masters and c the ceiling of n / k, each lists between c - 2k + 3 and c + 1 slots. */
  ghost predicate WellBalanced(ns: seq<Node>, n: Slot)
    reads ns
  {
    |ns| >= 2 ==> forall i :: 0 <= i < |ns| ==>
      CeilDiv(n, |ns|) - 2 * |ns| + 3 <= |ns[i].Slots| <= CeilDiv(n, |ns|) + 1
  }

  lemma EverySlotIsListed(w: World, ns: seq<Node>, s: Slot)
    requires Sound(w) && FullyListed(w, ns) && s < w.n
    ensures HeldByAny(ns, s)
  {
    var x := Owner(w, s);
    var i :| 0 <= i < |ns| && ns[i].ID == x;
    assert Truthful(w, ns[i].ID, ns[i].Slots);
  }

  lemma ListedIsLocated(w: World, news: seq<Node>, olds: seq<Node>)
    requires GoodHoldings(news, olds, w.n) && FullyListed(w, news + olds)
    ensures ServedAsLocated(w, news + olds, LocOf(olds, w.n))
  {
    var ns, loc := news + olds, LocOf(olds, w.n);
    LocatedAtStart(news, olds, w.n);
    forall i, s: Slot | 0 <= i < |ns| ensures Claims(w, ns[i].ID, s) <==> s in loc && loc[s] == ns[i] {
      assert Truthful(w, ns[i].ID, ns[i].Slots);
    }
  }

  /** Fresh lists of a sound cluster leave nothing for ADDSLOTS to do. */
  lemma NothingLost(w: World, news: seq<Node>, olds: seq<Node>, plan: Plan, adds: seq<seq<Slot>>)
    requires Sound(w) && GoodHoldings(news, olds, w.n) && FullyListed(w, news + olds)
    requires |adds| == |news| && PlanOf(plan, news, olds, adds, ToSet(Flatten(adds)))
    requires forall s: Slot :: s in Flatten(adds) ==> s < w.n
    ensures forall e :: e in plan ==> e.From != null
  {
    LocatedAtStart(news, olds, w.n);
    forall e | e in plan ensures e.From != null {
      var s := plan[e][0];
      assert s in plan[e] && GoesTo(news, adds, s, e.To) && ComesFrom(olds, s, e.From);
      FlattenMember(adds, s);
      EverySlotIsListed(w, news + olds, s);
    }
  }

  lemma KeepersAreAnchored(news: seq<Node>, olds: seq<Node>, n: Slot, perNode: nat, adds: seq<seq<Slot>>, plan: Plan, i: nat)
    requires GoodHoldings(news, olds, n) && GoodShares(news, perNode, adds, n) && perNode >= 1
    requires PlanOf(plan, news, olds, adds, ToSet(Flatten(adds)))
    requires i < |news| && news[i].Slots != []
    ensures Anchored(plan, LocOf(olds, n), news[i])
  {
    var s := news[i].Slots[0];
    assert KeptList(news[i], perNode)[0] == s;
    assert KeptByAny(news, perNode, s);
    LocatedAtStart(news, olds, n);
    assert news[i] in olds && s in news[i].Slots;
    var loc0 := LocOf(olds, n);
    assert s in loc0 && loc0[s] == news[i];
    FlattenMember(adds, s);
    forall e | e in plan ensures s !in plan[e] {
      assert GoodEntry(e, plan[e], news, olds, adds);
    }
  }

  lemma SizeOfUnion(slots: seq<Slot>, a: seq<Slot>, b: seq<Slot>)
    requires NoDup(slots) && NoDup(a) && NoDup(b) && forall s :: s in a ==> s !in b
    requires forall s: Slot :: s in slots <==> s in a || s in b
    ensures |slots| == |a| + |b|
  {
    NoDupConcat(a, b);
    NoDupCard(slots);
    NoDupCard(a + b);
    assert ToSet(slots) == ToSet(a + b);
  }

  lemma SomeMember(slots: seq<Slot>)
    ensures slots != [] ==> exists s :: s in slots
  {
    if slots != [] {
      assert slots[0] in slots;
    }
  }

  /** What the lists look like once every slot is where FinalLoc says. */
  lemma FinalLists(news: seq<Node>, olds: seq<Node>, ns: seq<Node>, n: Slot, loc: map<Slot, Node>, kept: seq<seq<Slot>>, adds: seq<seq<Slot>>)
    requires ns == news + olds && DistinctNodes(news) && Located(ns, loc) && FinalLoc(loc, news, kept, adds, n)
    requires news != [] && SharesFit(kept, adds, CeilDiv(n, |news|))
    ensures PartitionSlots(news, n) && WellBalanced(news, n)
    ensures forall i :: 0 <= i < |olds| && olds[i] !in news ==> olds[i].Slots == []
  {
    forall i | 0 <= i < |news|
      ensures NoDup(news[i].Slots) && forall s: Slot :: s in news[i].Slots <==> s in loc && loc[s] == news[i]
    {
      assert ns[i] == news[i];
    }
    forall i | 0 <= i < |olds| && olds[i] !in news ensures olds[i].Slots == [] {
      assert ns[|news| + i] == olds[i];
      forall s: Slot ensures s !in olds[i].Slots {
        assert s in ns[|news| + i].Slots <==> s in loc && loc[s] == ns[|news| + i];
      }
      SomeMember(olds[i].Slots);
    }
    forall s: Slot ensures HeldByAny(news, s) <==> s < n {
      if s < n {
        var i :| 0 <= i < |news| && news[i] == loc[s];
      }
    }
    forall i | 0 <= i < |news| ensures |news[i].Slots| == |kept[i]| + |adds[i]| {
      SizeOfUnion(news[i].Slots, kept[i], adds[i]);
    }
  }

  /** What a run that loses no command leaves behind. */
  ghost predicate Dispatched(w0: World, w: World, hist: seq<World>, from: nat, all: seq<Node>)
    reads all
  {
    && SameContents(w0, w) && FullyListed(w, all)
    && w.nodes == w0.nodes && w.replicaOf == w0.replicaOf
    && w.importing.Keys <= w0.importing.Keys && w.migrating.Keys <= w0.migrating.Keys
    && AllIntact(w0, hist, from)
  }

  /** The operator's lists are right about a sound world, and all listed nodes are part of it. */
  ghost predicate WellKnown(w: World, ns: seq<Node>)
    reads ns
  {
    Sound(w) && FullyListed(w, ns) && forall i :: 0 <= i < |ns| ==> ns[i].ID in w.nodes
  }

  /** Where the plan wants every slot: with its new master, or where it is. */
  ghost function GoalOf(w: World, plan: Plan, t: Slot): Id
    requires Sound(w) && t < w.n
  {
    if e :| e in plan && t in plan[e] then e.To.ID else Owner(w, t)
  }

  ghost function PlanGoals(w: World, plan: Plan): (goal: Goals)
    requires Sound(w)
    ensures forall t: Slot :: t < w.n ==> t in goal && goal[t] == GoalOf(w, plan, t)
  {
    map t: Slot | 0 <= t < w.n :: GoalOf(w, plan, t)
  }

  lemma GoalIs(w: World, plan: Plan, ns: seq<Node>, loc0: map<Slot, Node>, e: MigrationInfo, t: Slot)
    requires Sound(w) && t < w.n && GoodPlan(plan, ns, loc0) && e in plan && t in plan[e]
    ensures GoalOf(w, plan, t) == e.To.ID
  {
    forall e' | e' in plan && t in plan[e'] ensures e' == e {
    }
  }

  lemma OwnerAsLocated(w: World, ns: seq<Node>, loc: map<Slot, Node>, x: Node, t: Slot)
    requires Sound(w) && ServedAsLocated(w, ns, loc) && x in ns && t in loc && loc[t] == x
    ensures t < w.n && Owner(w, t) == x.ID
  {
    var i :| 0 <= i < |ns| && ns[i] == x;
    assert Claims(w, ns[i].ID, t);
    OwnerIs(w, x.ID, t);
  }

  lemma PlanAims(w: World, plan: Plan, ns: seq<Node>, loc0: map<Slot, Node>)
    requires Sound(w) && ServedAsLocated(w, ns, loc0) && AllSane(ns) && GoodPlan(plan, ns, loc0)
    requires (forall i :: 0 <= i < |ns| ==> ns[i].ID in w.nodes) && forall e :: e in plan ==> e.From != null
    ensures Aims(w, plan, PlanGoals(w, plan))
  {
    var goal := PlanGoals(w, plan);
    forall t: Slot | t < w.n ensures goal[t] in w.nodes {
      assert Claims(w, Owner(w, t), t);
    }
    forall e | e in plan ensures e.From.ID != e.To.ID {
      SaneIds(ns, e.From, e.To);
    }
    forall e, s | e in plan && s in plan[e] ensures s < w.n {
      OwnerAsLocated(w, ns, loc0, e.From, s);
    }
    forall e, s | e in plan && s in plan[e] ensures Owner(w, s) == e.From.ID && goal[s] == e.To.ID {
      OwnerAsLocated(w, ns, loc0, e.From, s);
      GoalIs(w, plan, ns, loc0, e, s);
    }
  }

  /** Once the plan is carried out the lists have every slot at its goal. */
  ghost predicate ListsGoals(ns: seq<Node>, goal: Goals)
    reads ns
  {
    forall i, s :: 0 <= i < |ns| && s in ns[i].Slots ==> s in goal && goal[s] == ns[i].ID
  }

  lemma ListedAtGoal(w: World, plan: Plan, ns: seq<Node>, loc0: map<Slot, Node>, loc: map<Slot, Node>, i: nat, s: Slot)
    requires Sound(w) && ServedAsLocated(w, ns, loc0) && GoodPlan(plan, ns, loc0) && CarriedOut(plan, {}, loc0, loc) && Located(ns, loc)
    requires forall e :: e in plan ==> e.From != null
    requires i < |ns| && s in ns[i].Slots
    ensures s < w.n && GoalOf(w, plan, s) == ns[i].ID
  {
    assert s in loc && loc[s] == ns[i];
    if e :| e in plan && s in plan[e] {
      OwnerAsLocated(w, ns, loc0, e.From, s);
      GoalIs(w, plan, ns, loc0, e, s);
    } else {
      OwnerAsLocated(w, ns, loc0, ns[i], s);
    }
  }

  lemma GoalsAreListed(w: World, plan: Plan, ns: seq<Node>, loc0: map<Slot, Node>, loc: map<Slot, Node>)
    requires Sound(w) && ServedAsLocated(w, ns, loc0) && GoodPlan(plan, ns, loc0) && CarriedOut(plan, {}, loc0, loc) && Located(ns, loc)
    requires forall e :: e in plan ==> e.From != null
    ensures ListsGoals(ns, PlanGoals(w, plan))
  {
    var goal := PlanGoals(w, plan);
    forall i, s | 0 <= i < |ns| && s in ns[i].Slots ensures s in goal && goal[s] == ns[i].ID {
      ListedAtGoal(w, plan, ns, loc0, loc, i, s);
    }
  }

  /** What a steady client has told in the end. */
  ghost predicate AllToldSteadily(w0: World, h: World, goal: Goals, toldTarget: set<Slot>, toldSource: set<Slot>)
    requires Sound(w0) && GoodGoals(w0, goal)
  {
    forall t :: Moves(w0, goal, t) ==> t in toldTarget && (t in toldSource <==> Data(h, Owner(w0, t), t) == map[])
  }

  lemma ToldInTheEnd(w0: World, h: World, plan: Plan, toldTarget: set<Slot>, toldSource: set<Slot>)
    requires Sound(w0) && GoodGoals(w0, PlanGoals(w0, plan)) && SteadilyTold(w0, h, plan, {}, toldTarget, toldSource)
    ensures AllToldSteadily(w0, h, PlanGoals(w0, plan), toldTarget, toldSource)
  {
    forall t | Moves(w0, PlanGoals(w0, plan), t) ensures t in toldTarget && (t in toldSource <==> Data(h, Owner(w0, t), t) == map[]) {
      var e :| e in plan && t in plan[e];
    }
  }

  /** Where the world is after scaling down, however the commands ended. */
  ghost predicate DispatchedAnyhow(w0: World, w: World, hist: seq<World>, from: nat, goal: Goals, toldTarget: set<Slot>, toldSource: set<Slot>) {
    && Sound(w0) && GoodGoals(w0, goal)
    && Scattered(w0, w, goal, toldTarget, toldSource) && AllScattered(w0, hist, from, goal)
  }

  /** What carrying out the plan needs to know of the world. */
  lemma PlanInWorld(w: World, news: seq<Node>, olds: seq<Node>, all: seq<Node>, plan: Plan, adds: seq<seq<Slot>>)
    requires all == news + olds && AllSane(all) && GoodHoldings(news, olds, w.n) && |adds| == |news| && GoodPlan(plan, all, LocOf(olds, w.n))
    requires PlanOf(plan, news, olds, adds, ToSet(Flatten(adds))) && forall s: Slot :: s in Flatten(adds) ==> s < w.n
    ensures Sound(w) && FullyListed(w, all) ==> ServedAsLocated(w, all, LocOf(olds, w.n)) && forall e :: e in plan ==> e.From != null
    ensures WellKnown(w, all) ==> Aims(w, plan, PlanGoals(w, plan))
  {
    if Sound(w) && FullyListed(w, all) {
      ListedIsLocated(w, news, olds);
      NothingLost(w, news, olds, plan, adds);
    }
    if WellKnown(w, all) {
      PlanAims(w, plan, all, LocOf(olds, w.n));
    }
  }

  lemma AnchorsHold(news: seq<Node>, olds: seq<Node>, ns: seq<Node>, plan: Plan, loc0: map<Slot, Node>, loc: map<Slot, Node>)
    requires ns == news + olds && CarriedOut(plan, {}, loc0, loc) && Located(ns, loc)
    ensures forall i :: 0 <= i < |news| && Anchored(plan, loc0, news[i]) ==> news[i].Slots != []
  {
    forall i | 0 <= i < |news| && Anchored(plan, loc0, news[i]) ensures news[i].Slots != [] {
      assert ns[i] == news[i];
      AnchorHolds(plan, {}, ns, loc0, loc, i);
    }
  }

  /** CarryOut, and what the lists are afterwards. */
  method CarryOutListed(admin: Admin, plan: Plan, news: seq<Node>, olds: seq<Node>, all: seq<Node>, ghost loc0: map<Slot, Node>,
                        ghost kept: seq<seq<Slot>>, ghost adds: seq<seq<Slot>>, ghost n: Slot, ghost goal: Goals)
    returns (ok: bool, ghost loc: map<Slot, Node>, ghost toldTarget: set<Slot>, ghost toldSource: set<Slot>)
    requires all == news + olds && news != [] && DistinctNodes(news) && AllSane(all) && Located(all, loc0) && GoodPlan(plan, all, loc0)
    requires Fine(admin, admin.world, all) ==> ServedAsLocated(admin.world, all, loc0) && forall e :: e in plan ==> e.From != null
    requires forall loc :: CarriedOut(plan, {}, loc0, loc) ==> FinalLoc(loc, news, kept, adds, n)
    requires SharesFit(kept, adds, CeilDiv(n, |news|)) && |kept| == |news|
    requires forall i :: 0 <= i < |news| && news[i].Slots != [] ==> Anchored(plan, loc0, news[i])
    modifies admin, all`Slots
    ensures old(admin.hist) <= admin.hist
    ensures ok ==> Located(all, loc) && CarriedOut(plan, {}, loc0, loc)
    ensures ok ==> PartitionSlots(news, n) && WellBalanced(news, n)
    ensures ok ==> forall i :: 0 <= i < |olds| && olds[i] !in news ==> olds[i].Slots == []
    ensures ok ==> forall i :: 0 <= i < |news| && old(news[i].Slots) != [] ==> news[i].Slots != []
    ensures Aims(old(admin.world), plan, goal) ==>
              && Scattered(old(admin.world), admin.world, goal, toldTarget, toldSource)
              && AllScattered(old(admin.world), admin.hist, |old(admin.hist)|, goal)
    ensures Aims(old(admin.world), plan, goal) && (admin.reliable || admin.steady) && AllMasters(old(admin.world), all) ==>
              ok && SteadilyTold(old(admin.world), admin.world, plan, {}, toldTarget, toldSource)
    ensures Fine(admin, old(admin.world), all) ==>
              && ok && Faithful(old(admin.world), admin.world, all, loc)
              && AllIntact(old(admin.world), admin.hist, |old(admin.hist)|)
              && StillAgree(old(admin.world), admin.world, AnchoredIds(plan, loc0, all))
  {
    ok, loc, toldTarget, toldSource := CarryOut(admin, plan, all, loc0, goal);
    if ok {
      FinalLists(news, olds, all, n, loc, kept, adds);
      AnchorsHold(news, olds, all, plan, loc0, loc);
    }
  }

  /** migration.go lines 61 to 128, for a plan made for at least one new master. */
  method Execute(admin: Admin, plan: Plan, news: seq<Node>, olds: seq<Node>, all: seq<Node>, ghost adds: seq<seq<Slot>>)
    returns (ok: bool, ghost goal: Goals, ghost toldTarget: set<Slot>, ghost toldSource: set<Slot>)
    requires all == news + olds && news != [] && admin.world.n > 0 && GoodHoldings(news, olds, admin.world.n)
    requires GoodShares(news, CeilDiv(admin.world.n, |news|), adds, admin.world.n)
    requires PlanOf(plan, news, olds, adds, ToSet(Flatten(adds)))
    requires Fine(admin, admin.world, all) ==> FullyListed(admin.world, all)
    modifies admin, all`Slots
    ensures old(admin.hist) <= admin.hist
    ensures ok ==> PartitionSlots(news, old(admin.world).n) && WellBalanced(news, old(admin.world).n)
    ensures ok ==> forall i :: 0 <= i < |olds| && olds[i] !in news ==> olds[i].Slots == []
    ensures ok ==> forall i :: 0 <= i < |news| && old(news[i].Slots) != [] ==> news[i].Slots != []
    ensures old(WellKnown(admin.world, all)) ==>
              && DispatchedAnyhow(old(admin.world), admin.world, admin.hist, |old(admin.hist)|, goal, toldTarget, toldSource)
              && (ok ==> ListsGoals(all, goal))
    ensures old(WellKnown(admin.world, all)) && (admin.reliable || admin.steady) && AllMasters(old(admin.world), all) ==>
              ok && AllToldSteadily(old(admin.world), admin.world, goal, toldTarget, toldSource)
    ensures Fine(admin, old(admin.world), all) ==>
              && ok && Dispatched(old(admin.world), admin.world, admin.hist, |old(admin.hist)|, all)
              && StillAgree(old(admin.world), admin.world, old(ListingIds(news)))
  {
    ghost var n, w0 := admin.world.n, admin.world;
    ghost var loc0, perNode := LocOf(olds, n), CeilDiv(n, |news|);
    ghost var kept := KeptLists(news, perNode);
    ghost var known := WellKnown(w0, all);
    PlanFacts(news, olds, n, perNode, adds, plan);
    PlanInWorld(w0, news, olds, all, plan, adds);
    goal := if known then PlanGoals(w0, plan) else map[];
    ghost var loc;
    ok, loc, toldTarget, toldSource := CarryOutListed(admin, plan, news, olds, all, loc0, kept, adds, n, goal);
    if known {
      if ok {
        GoalsAreListed(w0, plan, all, loc0, loc);
      }
      if (admin.reliable || admin.steady) && AllMasters(w0, all) {
        ToldInTheEnd(w0, admin.world, plan, toldTarget, toldSource);
      }
    }
    if Fine(admin, w0, all) {
      ListedAsServed(admin.world, all, loc);
    }
  }

  /**
   * Scaling down. Whatever order the maps are visited in, after a run without an error return
   * the new masters' lists partition the slots, well balanced, and every removed master's list
   * is empty. However the commands end, at every instant every slot is where it was, or with
   * the new master that lists it in the end, or both or neither, as its two ends were told, and
   * no key is lost. If no command is lost there is no error, no key moves away from its slot's
   * owner, at every instant every slot is served, the lists are what is served, and the views
   * of new masters that had slots still name every slot's owner.
   */
  method DispatchSlotToNewMasters(admin: Admin, news: seq<Node>, olds: seq<Node>, all: seq<Node>)
    returns (ok: bool, ghost goal: Goals, ghost toldTarget: set<Slot>, ghost toldSource: set<Slot>)
    requires all == news + olds && admin.world.n > 0 && GoodHoldings(news, olds, admin.world.n)
    requires Fine(admin, admin.world, all) ==> FullyListed(admin.world, all)
    modifies admin, all`Slots
    ensures old(admin.hist) <= admin.hist
    ensures ok && news != [] ==> PartitionSlots(news, old(admin.world).n) && WellBalanced(news, old(admin.world).n)
    ensures ok && news != [] ==> forall i :: 0 <= i < |olds| && olds[i] !in news ==> olds[i].Slots == []
    ensures ok ==> forall i :: 0 <= i < |news| && old(news[i].Slots) != [] ==> news[i].Slots != []
    ensures news == [] ==> ok && admin.world == old(admin.world) && forall i :: 0 <= i < |olds| ==> olds[i].Slots == old(olds[i].Slots)
    ensures old(WellKnown(admin.world, all)) && news != [] ==>
              && DispatchedAnyhow(old(admin.world), admin.world, admin.hist, |old(admin.hist)|, goal, toldTarget, toldSource)
              && (ok ==> ListsGoals(all, goal))
    ensures old(WellKnown(admin.world, all)) && news != [] && (admin.reliable || admin.steady) && AllMasters(old(admin.world), all) ==>
              ok && AllToldSteadily(old(admin.world), admin.world, goal, toldTarget, toldSource)
    ensures Fine(admin, old(admin.world), all) ==>
              && ok && Dispatched(old(admin.world), admin.world, admin.hist, |old(admin.hist)|, all)
              && StillAgree(old(admin.world), admin.world, old(ListingIds(news)))
  {
    var plan;
    ghost var adds;
    plan, adds := FeedMigInfo(news, olds, admin.world.n);
    if news == [] {
      return true, map[], {}, {};  // the plan is empty
    }
    ok, goal, toldTarget, toldSource := Execute(admin, plan, news, olds, all, adds);
  }

  lemma ListedAsServed(w: World, ns: seq<Node>, loc: map<Slot, Node>)
    requires Located(ns, loc) && ServedAsLocated(w, ns, loc)
    ensures FullyListed(w, ns)
  {
    forall i | 0 <= i < |ns| ensures Truthful(w, ns[i].ID, ns[i].Slots) {
      assert forall s: Slot :: s in ns[i].Slots <==> s in loc && loc[s] == ns[i];
    }
  }

  /** All that carrying out the plan, and judging the result, needs to know. */
  lemma PlanFacts(news: seq<Node>, olds: seq<Node>, n: Slot, perNode: nat, adds: seq<seq<Slot>>, plan: Plan)
    requires n > 0 && news != [] && perNode == CeilDiv(n, |news|)
    requires GoodHoldings(news, olds, n) && GoodShares(news, perNode, adds, n)
    requires PlanOf(plan, news, olds, adds, ToSet(Flatten(adds)))
    ensures AllSane(news + olds) && Located(news + olds, LocOf(olds, n)) && GoodPlan(plan, news + olds, LocOf(olds, n))
    ensures forall loc :: CarriedOut(plan, {}, LocOf(olds, n), loc) ==> FinalLoc(loc, news, KeptLists(news, perNode), adds, n)
    ensures SharesFit(KeptLists(news, perNode), adds, perNode)
    ensures forall s: Slot :: s in Flatten(adds) ==> s < n
    ensures forall i :: 0 <= i < |news| && news[i].Slots != [] ==> Anchored(plan, LocOf(olds, n), news[i])
    ensures ListingIds(news) <= AnchoredIds(plan, LocOf(olds, n), news + olds)
  {
    LocatedAtStart(news, olds, n);
    PlanIsGood(news, olds, n, adds, plan, ToSet(Flatten(adds)));
    CeilDivIs(n, |news|);
    forall loc | CarriedOut(plan, {}, LocOf(olds, n), loc) ensures FinalLoc(loc, news, KeptLists(news, perNode), adds, n) {
      FinalLocHolds(news, olds, n, perNode, adds, plan, loc);
    }
    SharesFitTogether(news, olds, n, perNode, adds);
    forall i | 0 <= i < |news| && news[i].Slots != [] ensures Anchored(plan, LocOf(olds, n), news[i]) {
      KeepersAreAnchored(news, olds, n, perNode, adds, plan, i);
    }
    forall x | x in news && x.Slots != [] ensures x in news + olds && Anchored(plan, LocOf(olds, n), x) {
      var i :| 0 <= i < |news| && news[i] == x;
    }
  }

  /** No slot is both kept and dealt out, and the sizes are within the bounds. */
  ghost predicate SharesFit(kept: seq<seq<Slot>>, adds: seq<seq<Slot>>, perNode: nat) {
    && |kept| == |adds|
    && (forall i :: 0 <= i < |kept| ==> NoDup(kept[i]) && NoDup(adds[i]))
    && (forall i, s: Slot :: 0 <= i < |kept| && s in kept[i] ==> s !in adds[i])
    && (|kept| >= 2 ==> forall i :: 0 <= i < |kept| ==>
          perNode - 2 * |kept| + 3 <= |kept[i]| + |adds[i]| <= perNode + 1)
  }

  lemma SharesFitTogether(news: seq<Node>, olds: seq<Node>, n: Slot, perNode: nat, adds: seq<seq<Slot>>)
    requires GoodHoldings(news, olds, n) && GoodShares(news, perNode, adds, n)
    ensures SharesFit(KeptLists(news, perNode), adds, perNode)
  {
    var kept := KeptLists(news, perNode);
    KeptListsDisjoint(news, olds, n, perNode);
    FlattenNoDupParts(adds);
    forall i, s: Slot | 0 <= i < |news| && s in kept[i] ensures s !in adds[i] {
      FlattenMember(adds, s);
      assert s in KeptList(news[i], perNode);
    }
  }
}
