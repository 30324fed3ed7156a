/**
 * One reconciliation of the operator: syncCluster and scalingDown of
 * pkg/controller/distributedrediscluster/sync_handler.go.
 */
module Sync {
  import opened Basics
  import opened SlotLists
  import opened RedisWorld
  import opened Nodes
  import opened AdminClient
  import opened Placement
  import Rebalance
  import AllocSlots
  import ScaleDownPlan
  import Dispatch
  import Filling
  import Scattering

  // ---------- what a reconciliation starts from ----------

  /** The node list was read from w: it has every node, with its true role and slots. */
  ghost predicate Fresh(w: World, cluster: map<Id, Node>, ns: seq<Node>)
    reads ns
  {
    && NoDup(ns)
    && (forall i, j :: 0 <= i < j < |ns| ==> ns[i].IP != ns[j].IP)
    && (forall x :: x in ns ==> x.ID in cluster && cluster[x.ID] == x && x.ID != NOBODY && x.ID != "-" && x.ID in w.nodes)
    && (forall x :: x in ns ==> Truthful(w, x.ID, x.Slots))
    && (forall x :: x in ns ==> x.Role == if x.ID in w.replicaOf then SlaveRole else MasterRole)
    && (forall x :: x in ns && x.ID in w.replicaOf ==> x.MasterReferent == w.replicaOf[x.ID])
    && (forall x :: x in ns && x.ID in w.replicaOf ==> x.Slots == [])
    && (forall a :: a in w.nodes ==> a in cluster && cluster[a] in ns && cluster[a].ID == a)
  }

  /** What NewCtx and DispatchMasters make of it. */
  ghost predicate Selected(cluster: map<Id, Node>, ns: seq<Node>, groups: Groups, holders: seq<Node>, masters: Masters) {
    && SortsByStatefulSet(groups, cluster, ns) && NoDup(holders) && (forall x :: x in holders ==> x in ns)
    && (forall k :: k in masters ==> Chosen(groups, holders, k, masters[k]))
  }

  ghost predicate HoldersAre(holders: seq<Node>, ns: seq<Node>)
    reads ns
  {
    forall x :: x in ns ==> (x in holders <==> x.IsMasterWithSlot())
  }

  /** Replicas live only in StatefulSets that have a slot holder: the others are new. */
  ghost predicate NewSetsHaveNoReplicas(w: World, groups: Groups, holders: seq<Node>) {
    forall k, x :: k in groups && x in groups[k] && x.ID in w.replicaOf ==> exists y :: y in groups[k] && y in holders
  }

  lemma OneAddress(ns: seq<Node>, x: Node, y: Node)
    requires (forall i, j :: 0 <= i < j < |ns| ==> ns[i].IP != ns[j].IP) && x in ns && y in ns && x.IP == y.IP
    ensures x == y
  {
    var i :| 0 <= i < |ns| && ns[i] == x;
    var j :| 0 <= j < |ns| && ns[j] == y;
    assert !(i < j) && !(j < i);
  }

  lemma SelectedGroups(w: World, cluster: map<Id, Node>, ns: seq<Node>, groups: Groups, holders: seq<Node>, masters: Masters)
    requires Fresh(w, cluster, ns) && Selected(cluster, ns, groups, holders, masters)
    ensures Disjoint(groups) && KnownGroups(groups, cluster, masters) && MastersAmong(groups, masters)
    ensures forall k :: k in masters ==> masters[k] in ns
  {
    forall k, l, x | k in groups && l in groups && x in groups[k] && x in groups[l] ensures k == l {
      GroupsDisjoint(groups, cluster, ns, k, l, x);
    }
    forall k, x | k in groups && k in masters && x in groups[k] && x.IP == masters[k].IP ensures x == masters[k] {
      assert Chosen(groups, holders, k, masters[k]);
      assert x in ns && masters[k] in ns;
      OneAddress(ns, x, masters[k]);
    }
    forall k | k in masters ensures k in groups && masters[k] in groups[k] && masters[k] in ns {
      assert Chosen(groups, holders, k, masters[k]);
    }
  }

  /** Whoever serves a slot is a slot holder that lists it. */
  lemma ClaimersAreHolders(w: World, cluster: map<Id, Node>, ns: seq<Node>, holders: seq<Node>, a: Id, s: Slot)
    requires Fresh(w, cluster, ns) && HoldersAre(holders, ns) && Claims(w, a, s)
    ensures exists i :: 0 <= i < |holders| && holders[i].ID == a && s in holders[i].Slots
  {
    var x := cluster[a];
    assert s in x.Slots;
    assert x in ns && x.IsMasterWithSlot();
    var i :| 0 <= i < |holders| && holders[i] == x;
  }

  /** A node that holds no slots stores nothing. */
  lemma OthersHoldNothing(w: World, x: Node)
    requires Sound(w) || AllocSlots.Blank(w)
    requires x.ID in w.nodes && Truthful(w, x.ID, x.Slots) && x.Slots == []
    ensures HoldsNothing(w, x.ID)
  {
    forall s: int | 0 <= s < w.n ensures !Claims(w, x.ID, s) && Data(w, x.ID, s) == map[] {
      assert s !in x.Slots;
    }
  }

  /** Every node outside the slot holders lists no slots. */
  lemma NotHolding(w: World, cluster: map<Id, Node>, ns: seq<Node>, holders: seq<Node>, x: Node)
    requires Fresh(w, cluster, ns) && HoldersAre(holders, ns) && x in ns && x !in holders
    ensures x.Slots == []
  {
  }

  /** When every StatefulSet has a master, all slot holders are among the masters. */
  lemma HoldersAreChosen(cluster: map<Id, Node>, ns: seq<Node>, groups: Groups, holders: seq<Node>, masters: Masters, x: Node)
    requires Selected(cluster, ns, groups, holders, masters) && groups.Keys <= masters.Keys
    requires x in holders && x.ID in cluster
    ensures x in masters.Values
  {
    var k := StatefulSetOf(cluster, x);
    assert Grouped(groups, k, x);
    assert Chosen(groups, holders, k, masters[k]);
  }

  lemma ChosenAreMasters(w: World, cluster: map<Id, Node>, ns: seq<Node>, groups: Groups, holders: seq<Node>, masters: Masters, k: string)
    requires Fresh(w, cluster, ns) && Selected(cluster, ns, groups, holders, masters) && HoldersAre(holders, ns)
    requires NewSetsHaveNoReplicas(w, groups, holders) && k in masters
    ensures IsMaster(w, masters[k].ID)
  {
    assert Chosen(groups, holders, k, masters[k]);
    var x := masters[k];
    assert x in groups[k] && x in ns;
    assert x in holders ==> x.IsMasterWithSlot();
    assert forall y :: y in groups[k] && y in holders ==> y == x;
  }

  lemma EveryoneIsAttachable(w: World, cluster: map<Id, Node>, ns: seq<Node>, groups: Groups, holders: seq<Node>, masters: Masters)
    requires Fresh(w, cluster, ns) && Selected(cluster, ns, groups, holders, masters) && HoldersAre(holders, ns)
    requires NewSetsHaveNoReplicas(w, groups, holders) && groups.Keys <= masters.Keys
    requires Sound(w) || AllocSlots.Blank(w)
    ensures OthersAttachable(w, groups, masters)
  {
    forall k, x | k in masters && x in Others(groups, masters) ensures Attachable(w, masters[k].ID, x.ID) {
      ChosenAreMasters(w, cluster, ns, groups, holders, masters, k);
      var l :| l in groups && x in groups[l];
      assert x in ns && masters[k] in ns by {
        assert Chosen(groups, holders, k, masters[k]);
      }
      if x in holders {
        HoldersAreChosen(cluster, ns, groups, holders, masters, x);
        assert false;
      }
      NotHolding(w, cluster, ns, holders, x);
      OthersHoldNothing(w, x);
    }
  }

  // ---------- attaching changes no ownership ----------

  lemma AttachingKeeps(w: World, w': World, ids: set<Id>)
    requires OnlyAttached(w, w', ids)
    ensures forall a, s: Slot :: Claims(w', a, s) <==> Claims(w, a, s)
    ensures forall a, s: Slot :: View(w', a, s) == View(w, a, s) && Data(w', a, s) == Data(w, a, s)
    ensures forall a :: a !in ids && IsMaster(w, a) ==> IsMaster(w', a)
  {
  }

  lemma AttachingKeepsContents(w: World, w': World, ids: set<Id>)
    requires OnlyAttached(w, w', ids) && Sound(w)
    ensures SameContents(w, w') && Intact(w, w')
  {
    AttachingKeeps(w, w', ids);
    forall s: Slot | s < w.n ensures Served(w', s) {
      assert Claims(w', Owner(w, s), s);
    }
    assert Sound(w');
    forall s: Slot | s < w.n ensures Owner(w', s) == Owner(w, s) {
      OwnerIs(w', Owner(w, s), s);
    }
    SameContentsIntact(w, w');
  }

  lemma AttachingKeepsTruth(w: World, w': World, ids: set<Id>, a: Id, slots: seq<Slot>)
    requires OnlyAttached(w, w', ids) && Truthful(w, a, slots)
    ensures Truthful(w', a, slots)
  {
    AttachingKeeps(w, w', ids);
  }

  // ---------- scaling up ----------

  ghost predicate InSome(lists: seq<seq<Slot>>, s: Slot) {
    exists i :: 0 <= i < |lists| && s in lists[i]
  }

  lemma PartitionCounts(lists: seq<seq<Slot>>, n: Slot)
    requires PairwiseDisjoint(lists) && forall i :: 0 <= i < |lists| ==> NoDup(lists[i])
    requires forall s: Slot :: InSome(lists, s) <==> s < n
    ensures Sum(seq(|lists|, i requires 0 <= i < |lists| => |lists[i]|)) == n
  {
    FlattenNoDup(lists);
    NoDupCard(Flatten(lists));
    FlattenLength(lists);
    AllSlotsCard(n);
    forall s: Slot ensures s in Flatten(lists) <==> s < n {
      FlattenMember(lists, s);
      assert InSome(lists, s) <==> s in Flatten(lists);
    }
    assert ToSet(Flatten(lists)) == ToSet(AllSlots(n));
  }

  /** The pigeonhole principle: more masters than slot holders leave some master without slots. */
  lemma SomeMasterIsNew(news: seq<Node>, holders: seq<Node>)
    requires NoDup(news) && NoDup(holders) && |news| > |holders|
    ensures exists i :: 0 <= i < |news| && news[i] !in holders
  {
    if forall i :: 0 <= i < |news| ==> news[i] in holders {
      NoDupCard(news);
      NoDupCard(holders);
      assert ToSet(news) <= ToSet(holders);
      SubsetCard(ToSet(news), ToSet(holders));
      assert false;
    }
  }

  lemma SubsetCard<T>(a: set<T>, b: set<T>)
    requires a <= b
    ensures |a| <= |b|
  {
    assert b == a + (b - a);
  }

  ghost function ListsOf(ns: seq<Node>): (lists: seq<seq<Slot>>)
    reads ns
    ensures |lists| == |ns| && forall i :: 0 <= i < |ns| ==> lists[i] == ns[i].Slots
  {
    seq(|ns|, i requires 0 <= i < |ns| reads ns => ns[i].Slots)
  }

  ghost function Lengths(lists: seq<seq<Slot>>): (counts: seq<int>)
    ensures |counts| == |lists| && forall i :: 0 <= i < |lists| ==> counts[i] == |lists[i]|
  {
    seq(|lists|, i requires 0 <= i < |lists| => |lists[i]|)
  }

  /** Masters that include all slot holders list every slot exactly once. */
  lemma MastersPartition(w: World, cluster: map<Id, Node>, ns: seq<Node>, holders: seq<Node>, news: seq<Node>)
    requires Fresh(w, cluster, ns) && HoldersAre(holders, ns) && Sound(w)
    requires NoDup(news) && (forall x :: x in news ==> x in ns) && (forall x :: x in holders ==> x in news)
    ensures DistinctNodes(news) && Rebalance.AllTruthful(news, w)
    ensures Sum(Lengths(ListsOf(news))) == w.n
  {
    forall i, j | 0 <= i < j < |news| ensures news[i] != news[j] && news[i].ID != news[j].ID {
      assert news[i] in ns && news[j] in ns;
    }
    forall i | 0 <= i < |news| ensures Truthful(w, news[i].ID, news[i].Slots) {
      assert news[i] in ns;
    }
    var lists := ListsOf(news);
    forall s: Slot ensures InSome(lists, s) <==> s < w.n {
      if s < w.n {
        var k := HolderListing(w, cluster, ns, holders, s);
        assert holders[k] in news;
        var i :| 0 <= i < |news| && news[i] == holders[k];
        assert s in lists[i];
      }
      if i :| 0 <= i < |lists| && s in lists[i] {
        assert Claims(w, news[i].ID, s);
      }
    }
    forall i, j, s: Slot | 0 <= i < j < |lists| && s in lists[i] ensures s !in lists[j] {
      assert Claims(w, news[i].ID, s);
    }
    PartitionCounts(lists, w.n);
    assert Lengths(lists) == seq(|lists|, i requires 0 <= i < |lists| => |lists[i]|);
  }

  lemma HolderListing(w: World, cluster: map<Id, Node>, ns: seq<Node>, holders: seq<Node>, s: Slot) returns (k: nat)
    requires Fresh(w, cluster, ns) && HoldersAre(holders, ns) && Sound(w) && s < w.n
    ensures k < |holders| && s in holders[k].Slots
  {
    ClaimersAreHolders(w, cluster, ns, holders, Owner(w, s), s);
    k :| 0 <= k < |holders| && holders[k].ID == Owner(w, s) && s in holders[k].Slots;
  }

  /** Scaling up never starts the remainder loop without a master below the average. */
  lemma ScaleUpCanSpread(w: World, cluster: map<Id, Node>, ns: seq<Node>, holders: seq<Node>, news: seq<Node>)
    requires Fresh(w, cluster, ns) && HoldersAre(holders, ns) && NoDup(holders)
    requires NoDup(news) && (forall x :: x in news ==> x in ns)
    requires |holders| < |news| <= w.n
    ensures Rebalance.CanSpread(Lengths(ListsOf(news)), w.n)
  {
    SomeMasterIsNew(news, holders);
    var i :| 0 <= i < |news| && news[i] !in holders;
    assert news[i] in ns;
    NotHolding(w, cluster, ns, holders, news[i]);
    EmptyMasterCanSpread(Lengths(ListsOf(news)), w.n, i);
  }

  lemma EmptyMasterCanSpread(counts: seq<int>, n: nat, i: nat)
    requires i < |counts| <= n && counts[i] == 0
    ensures Rebalance.CanSpread(counts, n)
  {
    assert n / |counts| >= 1;
  }

  // ---------- the operations ----------

  datatype Operation = Creating | ScalingUp | ScalingSlaves | ScalingDown | Nothing

  /** Done, or the step that failed; Panicked is the missing master that PlaceSlaves dereferences. */
  datatype SyncResult =
    | Done(op: Operation)
    | Undecided(reason: Outcome)
    | Panicked
    | AttachingFailed
    | AllocatingFailed
    | RebalancingFailed
    | DispatchingFailed
    | NotEmpty(id: Id)

  ghost predicate Ready(ctx: Ctx, w: World, ns: seq<Node>)
    reads ctx, ns
  {
    && ctx.slavesByMaster == map[]
    && Fresh(w, ctx.cluster, ns) && HoldersAre(ctx.currentMasters, ns)
    && Selected(ctx.cluster, ns, ctx.nodes, ctx.currentMasters, ctx.newMastersBySts)
    && (Sound(w) || AllocSlots.Blank(w))
  }

  ghost predicate ListsMasters(news: seq<Node>, masters: Masters) {
    NoDup(news) && |news| == |masters| && (forall x :: x in news ==> x in masters.Values) && (forall k :: k in masters ==> masters[k] in news)
  }

  /** Nothing of w0 is lost, neither now nor at any moment since. */
  ghost predicate Kept(w0: World, w: World, hist: seq<World>, from: nat) {
    SameContents(w0, w) && forall i :: from <= i < |hist| ==> Intact(w0, hist[i])
  }

  /** What the operations know of the chosen masters. */
  ghost predicate Prepared(cluster: map<Id, Node>, groups: Groups, masters: Masters, ns: seq<Node>, news: seq<Node>) {
    && Disjoint(groups) && KnownGroups(groups, cluster, masters) && MastersAmong(groups, masters)
    && (forall x :: x in Others(groups, masters) ==> x in ns) && (forall k, x :: k in groups && x in groups[k] ==> x in ns)
    && DistinctNodes(news) && (forall i :: 0 <= i < |news| ==> news[i] in ns)
  }

  /** Nothing keeps slaves from being attached. */
  ghost predicate AttachingIsFine(w: World, groups: Groups, masters: Masters, news: seq<Node>) {
    OthersAttachable(w, groups, masters) && AllStay(w, news, OtherIds(groups, masters))
  }

  ghost predicate MastersAre(w: World, news: seq<Node>) {
    forall i :: 0 <= i < |news| ==> IsMaster(w, news[i].ID)
  }

  /** Attaching, as it is done before the slots of the new masters are settled. */
  method Attach(ctx: Ctx, admin: Admin, news: seq<Node>, ghost ns: seq<Node>) returns (r: AttachOutcome)
    requires Prepared(ctx.cluster, ctx.nodes, ctx.newMastersBySts, ns, news) && ctx.slavesByMaster == map[]
    requires TrueReferents(admin.world, ns)
    modifies ctx`slavesByMaster, ctx`bestEffort, admin, ns`Role, ns`MasterReferent
    ensures old(admin.hist) <= admin.hist
    ensures r == NoMaster <==> !(ctx.nodes.Keys <= ctx.newMastersBySts.Keys)
    ensures r == NoMaster ==> admin.world == old(admin.world) && admin.hist == old(admin.hist)
    ensures OnlyAttached(old(admin.world), admin.world, OtherIds(ctx.nodes, ctx.newMastersBySts))
    ensures Sound(old(admin.world)) ==> Kept(old(admin.world), admin.world, admin.hist, |old(admin.hist)|)
    ensures AttachingIsFine(old(admin.world), ctx.nodes, ctx.newMastersBySts, news) ==>
              MastersAre(admin.world, news) && (admin.reliable ==> r != AttachFailed)
    ensures r == Attached ==> AllReplicate(admin.world, ctx.nodes, ctx.newMastersBySts)
  {
    ghost var w0, mid, ids := admin.world, |admin.hist|, OtherIds(ctx.nodes, ctx.newMastersBySts);
    r := ctx.PlaceAndAttach(admin, ns);
    AttachedFacts(w0, admin.world, admin.hist, mid, ids, news);
  }

  /** The chosen masters are masters, and are not going to be attached. */
  ghost predicate AllStay(w: World, news: seq<Node>, ids: set<Id>) {
    forall i :: 0 <= i < |news| ==> IsMaster(w, news[i].ID) && news[i].ID !in ids
  }

  lemma PreparedFacts(w: World, cluster: map<Id, Node>, ns: seq<Node>, groups: Groups, holders: seq<Node>, masters: Masters, news: seq<Node>)
    requires Fresh(w, cluster, ns) && Selected(cluster, ns, groups, holders, masters) && ListsMasters(news, masters)
    ensures Prepared(cluster, groups, masters, ns, news)
  {
    MastersInList(w, cluster, ns, groups, holders, masters, news);
    SelectedGroups(w, cluster, ns, groups, holders, masters);
    GroupsInList(cluster, ns, groups, masters);
  }

  /** All that attaching has to know. */
  lemma ReadyFacts(w: World, cluster: map<Id, Node>, ns: seq<Node>, groups: Groups, holders: seq<Node>, masters: Masters, news: seq<Node>)
    requires Fresh(w, cluster, ns) && Selected(cluster, ns, groups, holders, masters) && HoldersAre(holders, ns)
    requires ListsMasters(news, masters) && (Sound(w) || AllocSlots.Blank(w))
    ensures Prepared(cluster, groups, masters, ns, news)
    ensures groups.Keys <= masters.Keys && NewSetsHaveNoReplicas(w, groups, holders) ==> AttachingIsFine(w, groups, masters, news)
  {
    PreparedFacts(w, cluster, ns, groups, holders, masters, news);
    if groups.Keys <= masters.Keys && NewSetsHaveNoReplicas(w, groups, holders) {
      EveryoneIsAttachable(w, cluster, ns, groups, holders, masters);
      MastersStay(w, cluster, ns, groups, holders, masters);
    }
  }

  /** What attaching leaves as it was. */
  lemma AttachedFacts(w: World, w': World, hist: seq<World>, from: nat, ids: set<Id>, news: seq<Node>)
    requires from <= |hist| && OnlyAttached(w, w', ids) && forall i :: from <= i < |hist| ==> OnlyAttached(w, hist[i], ids)
    ensures Sound(w) ==> Kept(w, w', hist, from)
    ensures AllStay(w, news, ids) ==> MastersAre(w', news)
  {
    AttachingKeeps(w, w', ids);
    if Sound(w) {
      AttachingKeepsContents(w, w', ids);
      forall i | from <= i < |hist| ensures Intact(w, hist[i]) {
        AttachingKeepsContents(w, hist[i], ids);
      }
    }
  }

  lemma GroupsInList(cluster: map<Id, Node>, ns: seq<Node>, groups: Groups, masters: Masters)
    requires SortsByStatefulSet(groups, cluster, ns)
    ensures forall k, x :: k in groups && x in groups[k] ==> x in ns
    ensures forall x :: x in Others(groups, masters) ==> x in ns
  {
  }

  /** The chosen masters are masters, and none of them is attached to another. */
  lemma MastersStay(w: World, cluster: map<Id, Node>, ns: seq<Node>, groups: Groups, holders: seq<Node>, masters: Masters)
    requires Fresh(w, cluster, ns) && Selected(cluster, ns, groups, holders, masters) && HoldersAre(holders, ns)
    requires NewSetsHaveNoReplicas(w, groups, holders)
    ensures forall x :: x in masters.Values ==> IsMaster(w, x.ID) && x.ID !in OtherIds(groups, masters)
  {
    forall x | x in masters.Values ensures IsMaster(w, x.ID) && x.ID !in OtherIds(groups, masters) {
      var k :| k in masters && masters[k] == x;
      ChosenAreMasters(w, cluster, ns, groups, holders, masters, k);
      assert Chosen(groups, holders, k, x);
      forall y | y in Others(groups, masters) ensures y.ID != x.ID {
      }
    }
  }

  lemma BlankStays(w: World, w': World, ids: set<Id>)
    requires OnlyAttached(w, w', ids) && AllocSlots.Blank(w)
    ensures AllocSlots.Blank(w')
  {
    AttachingKeeps(w, w', ids);
  }

  lemma MastersAreDistinct(w: World, cluster: map<Id, Node>, ns: seq<Node>, news: seq<Node>)
    requires Fresh(w, cluster, ns) && NoDup(news) && forall x :: x in news ==> x in ns
    ensures DistinctNodes(news)
  {
    forall i, j | 0 <= i < j < |news| ensures news[i] != news[j] && news[i].ID != news[j].ID {
      assert news[i] in ns && news[j] in ns;
    }
  }

  lemma MastersInList(w: World, cluster: map<Id, Node>, ns: seq<Node>, groups: Groups, holders: seq<Node>, masters: Masters, news: seq<Node>)
    requires Fresh(w, cluster, ns) && Selected(cluster, ns, groups, holders, masters) && ListsMasters(news, masters)
    ensures DistinctNodes(news) && forall i :: 0 <= i < |news| ==> news[i] in ns
  {
    SelectedGroups(w, cluster, ns, groups, holders, masters);
    forall x | x in news ensures x in ns {
      assert x in masters.Values;
    }
    MastersAreDistinct(w, cluster, ns, news);
  }

  /** Creating a cluster: the slots are cut into ranges, one for each master. */
  method Create(ctx: Ctx, admin: Admin, news: seq<Node>, ghost ns: seq<Node>) returns (r: SyncResult)
    requires Prepared(ctx.cluster, ctx.nodes, ctx.newMastersBySts, ns, news) && ctx.slavesByMaster == map[]
    requires TrueReferents(admin.world, ns)
    requires AllocSlots.Blank(admin.world) && |news| <= admin.world.n && 2 * admin.world.n < MAX_SLOT
    modifies ctx`slavesByMaster, ctx`bestEffort, admin, ns`Role, ns`MasterReferent, ns`Slots
    ensures old(admin.hist) <= admin.hist
    ensures r in {Done(Creating), Panicked, AttachingFailed, AllocatingFailed}
    ensures r == Panicked <==> !(ctx.nodes.Keys <= ctx.newMastersBySts.Keys)
    ensures r == Panicked ==> admin.world == old(admin.world) && admin.hist == old(admin.hist)
    ensures admin.reliable && AttachingIsFine(old(admin.world), ctx.nodes, ctx.newMastersBySts, news) && r != Panicked ==>
              && r == Done(Creating) && Created(old(admin.world), admin.world, news) && MastersAre(admin.world, news)
              && AllReplicate(admin.world, ctx.nodes, ctx.newMastersBySts)
  {
    ghost var w0 := admin.world;
    var attached := Attach(ctx, admin, news, ns);
    if attached == NoMaster {
      return Panicked;
    } else if attached == AttachFailed {
      return AttachingFailed;
    }
    BlankStays(w0, admin.world, OtherIds(ctx.nodes, ctx.newMastersBySts));
    var ok := Allocate(admin, news);
    return if ok then Done(Creating) else AllocatingFailed;
  }

  /** The slots are served, cut into ranges, the i-th for the i-th master. */
  ghost predicate Created(w0: World, w: World, news: seq<Node>) {
    w.n == w0.n && w.nodes == w0.nodes && w.data == w0.data && (news != [] ==> Sound(w) && RangesServed(w, news))
  }

  method Allocate(admin: Admin, news: seq<Node>) returns (ok: bool)
    requires DistinctNodes(news) && AllocSlots.Blank(admin.world) && |news| <= admin.world.n && 2 * admin.world.n < MAX_SLOT
    modifies admin, news`Slots
    ensures old(admin.hist) <= admin.hist
    ensures admin.reliable && MastersAre(old(admin.world), news) ==>
              ok && Created(old(admin.world), admin.world, news) && admin.world.replicaOf == old(admin.world).replicaOf
  {
    ghost var w := admin.world;
    ok := AllocSlots.AllocSlots(admin, news);
    if news != [] && AllocSlots.CanAllocate(admin, w, AllocSlots.IdsOf(news)) {
      AllocSlots.AllocatedIsSound(w, admin.world, AllocSlots.IdsOf(news));
    }
  }

  /** The i-th master serves exactly the i-th range. */
  ghost predicate RangesServed(w: World, news: seq<Node>)
    requires news != []
  {
    forall i, s: Slot :: 0 <= i < |news| ==> (Claims(w, news[i].ID, s) <==> AllocSlots.InRange(w.n, |news|, i, s))
  }

  /** The masters hold their fair counts, given those they started with. */
  ghost predicate FairlyServed(w: World, news: seq<Node>, counts: seq<int>)
    requires |counts| == |news|
  {
    forall i :: 0 <= i < |news| ==> HasFairCount(w, news[i].ID, counts, i)
  }

  ghost predicate HasFairCount(w: World, a: Id, counts: seq<int>, i: nat)
    requires i < |counts|
  {
    |Owned(w, a)| == Rebalance.FairCount(counts, w.n, i)
  }

  lemma KeptLonger(w0: World, w1: World, w2: World, hist: seq<World>, from: nat, mid: nat)
    requires from <= mid <= |hist| && SameContents(w0, w1) && Kept(w1, w2, hist, mid)
    requires forall i :: from <= i < mid ==> Intact(w0, hist[i])
    ensures Kept(w0, w2, hist, from)
  {
    SameContentsTransitive(w0, w1, w2);
    forall i | from <= i < |hist| ensures Intact(w0, hist[i]) {
      if i >= mid {
        Rebalance.IntactLater(w0, w1, hist[i]);
      }
    }
  }

  lemma StillReplicate(w: World, w': World, groups: Groups, masters: Masters)
    requires groups.Keys <= masters.Keys && AllReplicate(w, groups, masters)
    ensures w'.replicaOf == w.replicaOf ==> AllReplicate(w', groups, masters)
  {
  }

  /** Scaling up: slots move to the new masters. */
  method ScaleUp(ctx: Ctx, admin: Admin, news: seq<Node>, ghost ns: seq<Node>, ghost lists: seq<seq<Slot>>) returns (r: SyncResult)
    requires Prepared(ctx.cluster, ctx.nodes, ctx.newMastersBySts, ns, news) && ctx.slavesByMaster == map[]
    requires TrueReferents(admin.world, ns)
    requires |lists| == |news| && forall i :: 0 <= i < |news| ==> lists[i] == news[i].Slots
    requires Sound(admin.world)
    requires ctx.nodes.Keys <= ctx.newMastersBySts.Keys ==> CanLevel(admin.world, news, lists)
    modifies ctx`slavesByMaster, ctx`bestEffort, admin, ns`Role, ns`MasterReferent, ns`Slots, ns`balance
    ensures old(admin.hist) <= admin.hist
    ensures r in {Done(ScalingUp), Panicked, AttachingFailed, RebalancingFailed}
    ensures r == Panicked <==> !(ctx.nodes.Keys <= ctx.newMastersBySts.Keys)
    ensures r == Panicked ==> admin.world == old(admin.world) && admin.hist == old(admin.hist)
    ensures admin.reliable && AttachingIsFine(old(admin.world), ctx.nodes, ctx.newMastersBySts, news) && r != Panicked ==>
              && r == Done(ScalingUp) && Kept(old(admin.world), admin.world, admin.hist, |old(admin.hist)|)
              && FairlyServed(admin.world, news, Lengths(lists)) && NobodyElseChanged(old(admin.world), admin.world, news)
              && MastersAre(admin.world, news) && AllReplicate(admin.world, ctx.nodes, ctx.newMastersBySts)
  {
    ghost var w0 := admin.world;
    var attached := Attach(ctx, admin, news, ns);
    if attached == NoMaster {
      return Panicked;
    } else if attached == AttachFailed {
      return AttachingFailed;
    }
    ghost var w1 := admin.world;
    var ok := Level(admin, news, lists, w0, OtherIds(ctx.nodes, ctx.newMastersBySts), |old(admin.hist)|);
    StillReplicate(w1, admin.world, ctx.nodes, ctx.newMastersBySts);
    return if ok then Done(ScalingUp) else RebalancingFailed;
  }

  /** Nodes outside news serve what they served. */
  ghost predicate NobodyElseChanged(w0: World, w: World, news: seq<Node>) {
    w.nodes == w0.nodes && forall x, t: Slot :: (forall j :: 0 <= j < |news| ==> x != news[j].ID) ==> (Claims(w, x, t) <==> Claims(w0, x, t))
  }

  /** lists are the true slots of news, all slots are among them, and the remainder can be spread. */
  ghost predicate CanLevel(w: World, news: seq<Node>, lists: seq<seq<Slot>>) {
    TrueLists(w, news, lists) && Sum(Lengths(lists)) == w.n && Rebalance.CanSpread(Lengths(lists), w.n)
  }

  /** RebalancedCluster, after nothing but attaching has happened since w0. */
  method Level(admin: Admin, news: seq<Node>, ghost lists: seq<seq<Slot>>, ghost w0: World, ghost ids: set<Id>, ghost from: nat)
    returns (ok: bool)
    requires OnlyAttached(w0, admin.world, ids) && Sound(w0) && CanLevel(w0, news, lists)
    requires from <= |admin.hist| && Kept(w0, admin.world, admin.hist, from)
    requires DistinctNodes(news) && forall i :: 0 <= i < |news| ==> lists[i] == news[i].Slots
    modifies admin, news`Slots, news`balance
    ensures old(admin.hist) <= admin.hist
    ensures admin.reliable && MastersAre(old(admin.world), news) ==>
              && ok && Kept(w0, admin.world, admin.hist, from) && FairlyServed(admin.world, news, Lengths(lists))
              && NobodyElseChanged(w0, admin.world, news) && admin.world.replicaOf == old(admin.world).replicaOf
  {
    ghost var w, mid, counts := admin.world, |admin.hist|, Lengths(lists);
    TruthStays(w0, w, ids, news, lists);
    AttachingKeepsContents(w0, w, ids);
    ok := Rebalance.RebalancedCluster(admin, news, counts);
    if admin.reliable && Rebalance.AllMasters(w, news) {
      FairCountsServed(w, admin.world, news, counts);
      KeptLonger(w0, w, admin.world, admin.hist, from, mid);
      AttachingKeeps(w0, w, ids);
    }
  }

  lemma FairCountsServed(w: World, w': World, news: seq<Node>, counts: seq<int>)
    requires |counts| == |news| && Rebalance.Balanced(w, w', news, Rebalance.FairCounts(counts, w.n, |counts|))
    ensures FairlyServed(w', news, counts)
  {
    forall i | 0 <= i < |news| ensures HasFairCount(w', news[i].ID, counts, i) {
      FairCountServed(w, w', news, counts, i);
    }
  }

  lemma FairCountServed(w: World, w': World, news: seq<Node>, counts: seq<int>, i: nat)
    requires |counts| == |news| && Rebalance.Balanced(w, w', news, Rebalance.FairCounts(counts, w.n, |counts|)) && i < |news|
    ensures HasFairCount(w', news[i].ID, counts, i)
  {
    Rebalance.FairCountsAt(counts, w.n, |counts|, i);
  }

  /** news lists exactly what is in lists, and w agrees. */
  ghost predicate TrueLists(w: World, news: seq<Node>, lists: seq<seq<Slot>>) {
    |lists| == |news| && forall i :: 0 <= i < |news| ==> Truthful(w, news[i].ID, lists[i])
  }

  lemma TruthStays(w: World, w': World, ids: set<Id>, news: seq<Node>, lists: seq<seq<Slot>>)
    requires OnlyAttached(w, w', ids)
    ensures TrueLists(w, news, lists) ==> TrueLists(w', news, lists)
  {
    if TrueLists(w, news, lists) {
      forall i | 0 <= i < |news| ensures Truthful(w', news[i].ID, lists[i]) {
        AttachingKeepsTruth(w, w', ids, news[i].ID, lists[i]);
      }
    }
  }

  /** All that scaling up has to know before it attaches anything. */
  lemma ScaleUpFacts(w: World, cluster: map<Id, Node>, ns: seq<Node>, groups: Groups, holders: seq<Node>, masters: Masters, news: seq<Node>,
                     lists: seq<seq<Slot>>)
    requires Fresh(w, cluster, ns) && Selected(cluster, ns, groups, holders, masters) && HoldersAre(holders, ns)
    requires |lists| == |news| && forall i :: 0 <= i < |news| ==> lists[i] == news[i].Slots
    requires ListsMasters(news, masters) && Sound(w) && |holders| < |news| <= w.n
    ensures groups.Keys <= masters.Keys ==> CanLevel(w, news, lists)
  {
    assert lists == ListsOf(news);
    MastersInList(w, cluster, ns, groups, holders, masters, news);
    ScaleUpCanSpread(w, cluster, ns, holders, news);
    if groups.Keys <= masters.Keys {
      forall x | x in holders ensures x in news {
        HoldersAreChosen(cluster, ns, groups, holders, masters, x);
      }
      MastersPartition(w, cluster, ns, holders, news);
    }
  }

  // ---------- scaling down ----------

  ghost predicate ServesNothing(w: World, a: Id) {
    forall s: Slot :: !Claims(w, a, s)
  }

  /** The nodes of ids, and all replicas, serve nothing. */
  ghost predicate CanForget(w: World, ids: set<Id>) {
    && Sound(w) && (forall a :: a in ids ==> ServesNothing(w, a))
    && (forall a :: a in w.replicaOf ==> ServesNothing(w, a))
  }

  /** Some nodes have left; the others serve what they served. */
  ghost predicate Forgotten(w0: World, w: World, hist: seq<World>, from: nat) {
    && Kept(w0, w, hist, from) && w.replicaOf.Keys <= w0.replicaOf.Keys
    && (forall a, s: Slot :: Claims(w, a, s) <==> Claims(w0, a, s))
  }

  /** h is w0 without the nodes gone, which are among ids, and with some former replicas reset. */
  ghost predicate ForgotSome(w0: World, h: World, ids: set<Id>, gone: set<Id>, reset: set<Id>) {
    gone <= ids && reset <= w0.replicaOf.Keys && h == Forget(w0, gone, reset)
  }

  lemma SomeAreForgotten(w0: World, h: World, hist: seq<World>, from: nat, ids: set<Id>, gone: set<Id>, reset: set<Id>)
    requires CanForget(w0, ids) && ForgotSome(w0, h, ids, gone, reset)
    ensures Intact(w0, h) && (AllIntact(w0, hist, from) ==> Forgotten(w0, h, hist, from))
  {
    forall a, s: Slot | a in gone + reset ensures !Claims(w0, a, s) {
      assert ServesNothing(w0, a);
    }
    ForgetKeepsContents(w0, gone, reset);
    SameContentsIntact(w0, h);
  }

  /** One ForgetNode among those of scalingDown, which began at w0. */
  method ForgetOne(admin: Admin, id: Id, connected: set<Id>, ghost ids: set<Id>, ghost w0: World, ghost from: nat,
                   ghost gone: set<Id>, ghost reset: set<Id>)
    returns (ghost gone': set<Id>, ghost reset': set<Id>)
    requires id in ids && from <= |admin.hist|
    requires CanForget(w0, ids) ==> AllIntact(w0, admin.hist, from)
    requires ForgotSome(w0, admin.world, ids, gone, reset)
    modifies admin
    ensures ForgotSome(w0, admin.world, ids, gone', reset') && gone <= gone'
    ensures admin.reliable || admin.steady ==> gone' == gone + {id}
    ensures old(admin.hist) <= admin.hist
    ensures CanForget(w0, ids) ==> AllIntact(w0, admin.hist, from)
    ensures old(admin.world).nodes - {id} <= admin.world.nodes <= old(admin.world).nodes
    ensures admin.reliable ==> admin.world.nodes == old(admin.world).nodes - {id}
  {
    ghost var g, d := admin.ForgetNode(id, connected);
    gone', reset' := gone + g, reset + d;
    ForgetTwice(w0, gone, reset, g, d);
    if CanForget(w0, ids) {
      SomeAreForgotten(w0, admin.world, admin.hist, from, ids, gone', reset');
    }
  }

  ghost function IdsIn(group: seq<Node>): set<Id> {
    set x | x in group :: x.ID
  }

  /** The nodes of one StatefulSet, up to the first that lists slots. */
  method ForgetGroup(admin: Admin, group: seq<Node>, connected: set<Id>, ghost ids: set<Id>, ghost w0: World, ghost from: nat,
                     ghost gone: set<Id>, ghost reset: set<Id>)
    returns (full: Option<Id>, ghost gone': set<Id>, ghost reset': set<Id>)
    requires ForgotSome(w0, admin.world, ids, gone, reset)
    requires from <= |admin.hist| && forall x :: x in group && x.Slots == [] ==> x.ID in ids
    requires CanForget(w0, ids) ==> AllIntact(w0, admin.hist, from)
    modifies admin
    ensures old(admin.hist) <= admin.hist
    ensures CanForget(w0, ids) ==> AllIntact(w0, admin.hist, from)
    ensures full == None <==> forall x :: x in group ==> x.Slots == []
    ensures full.Some? ==> exists x :: x in group && x.ID == full.value && x.Slots != []
    ensures ForgotSome(w0, admin.world, ids, gone', reset')
    ensures (admin.reliable || admin.steady) && full == None ==> gone' == gone + IdsIn(group)
  {
    gone', reset' := gone, reset;
    for i := 0 to |group|
      invariant old(admin.hist) <= admin.hist
      invariant CanForget(w0, ids) ==> AllIntact(w0, admin.hist, from)
      invariant forall x :: x in group[..i] ==> x.Slots == []
      invariant ForgotSome(w0, admin.world, ids, gone', reset')
      invariant admin.reliable || admin.steady ==> gone' == gone + IdsIn(group[..i])
    {
      if |group[i].Slots| > 0 {
        return Some(group[i].ID), gone', reset';
      }
      gone', reset' := ForgetOne(admin, group[i].ID, connected, ids, w0, from, gone', reset');
      assert group[..i + 1] == group[..i] + [group[i]];
      assert IdsIn(group[..i + 1]) == IdsIn(group[..i]) + {group[i].ID};
    }
    assert group[..|group|] == group;
    return None, gone', reset';
  }

  function NodesOf(groups: Groups, clusterName: string, i: nat): seq<Node> {
    var k := ClusterStatefulSetName(clusterName, i);
    if k in groups then groups[k] else []
  }

  /** The nodes of the StatefulSets lo to hi - 1. */
  ghost function NodesFrom(groups: Groups, clusterName: string, lo: nat, hi: nat): set<Node>
    decreases hi - lo
  {
    if hi <= lo then {} else ToSet(NodesOf(groups, clusterName, lo)) + NodesFrom(groups, clusterName, lo + 1, hi)
  }

  lemma {:induction false} NodeIsFrom(groups: Groups, clusterName: string, lo: nat, hi: nat, x: Node) returns (i: nat)
    requires x in NodesFrom(groups, clusterName, lo, hi)
    ensures lo <= i < hi && x in NodesOf(groups, clusterName, i)
    decreases hi - lo
  {
    if x in NodesOf(groups, clusterName, lo) {
      i := lo;
    } else {
      i := NodeIsFrom(groups, clusterName, lo + 1, hi, x);
    }
  }

  /** The nodes of the surplus StatefulSets. */
  ghost function RemovedNodes(groups: Groups, clusterName: string, expectMasterNum: nat, currentMasterNum: nat): set<Node> {
    NodesFrom(groups, clusterName, expectMasterNum, currentMasterNum)
  }

  ghost function IdsOf(ns: set<Node>): set<Id> {
    set x | x in ns :: x.ID
  }

  /** scalingDown: the surplus StatefulSets leave, the last one first, unless one of their nodes still lists slots. */
  method RemoveStatefulSets(admin: Admin, groups: Groups, clusterName: string, currentMasterNum: nat, expectMasterNum: nat)
    returns (full: Option<Id>, ghost gone: set<Id>, ghost reset: set<Id>)
    requires expectMasterNum <= currentMasterNum
    modifies admin
    ensures old(admin.hist) <= admin.hist
    ensures full == None <==> forall x :: x in RemovedNodes(groups, clusterName, expectMasterNum, currentMasterNum) ==> x.Slots == []
    ensures full.Some? ==> exists x :: x in RemovedNodes(groups, clusterName, expectMasterNum, currentMasterNum) &&
                                       x.ID == full.value && x.Slots != []
    ensures CanForget(old(admin.world), IdsOf(RemovedNodes(groups, clusterName, expectMasterNum, currentMasterNum))) ==>
              Forgotten(old(admin.world), admin.world, admin.hist, |old(admin.hist)|)
    ensures ForgotSome(old(admin.world), admin.world, IdsOf(RemovedNodes(groups, clusterName, expectMasterNum, currentMasterNum)), gone, reset)
    ensures (admin.reliable || admin.steady) && full == None ==>
              gone == IdsOf(RemovedNodes(groups, clusterName, expectMasterNum, currentMasterNum))
  {
    ghost var w0, from, all := admin.world, |admin.hist|, RemovedNodes(groups, clusterName, expectMasterNum, currentMasterNum);
    var connected := admin.world.nodes;
    for i := currentMasterNum downto expectMasterNum
    {
      connected := connected - set x | x in NodesOf(groups, clusterName, i) :: x.ID;
    }
    full, gone, reset := ForgetSets(admin, groups, clusterName, currentMasterNum, expectMasterNum, connected, all);
    if CanForget(w0, IdsOf(all)) {
      SomeAreForgotten(w0, admin.world, admin.hist, from, IdsOf(all), gone, reset);
    }
  }

  /** The second loop of scalingDown, over the StatefulSets whose nodes are all. */
  method ForgetSets(admin: Admin, groups: Groups, clusterName: string, currentMasterNum: nat, expectMasterNum: nat, connected: set<Id>,
                    ghost all: set<Node>)
    returns (full: Option<Id>, ghost gone: set<Id>, ghost reset: set<Id>)
    requires expectMasterNum <= currentMasterNum && all == NodesFrom(groups, clusterName, expectMasterNum, currentMasterNum)
    modifies admin
    ensures old(admin.hist) <= admin.hist
    ensures full == None <==> forall x :: x in all ==> x.Slots == []
    ensures full.Some? ==> exists x :: x in all && x.ID == full.value && x.Slots != []
    ensures CanForget(old(admin.world), IdsOf(all)) ==> AllIntact(old(admin.world), admin.hist, |old(admin.hist)|)
    ensures ForgotSome(old(admin.world), admin.world, IdsOf(all), gone, reset)
    ensures (admin.reliable || admin.steady) && full == None ==> gone == IdsOf(all)
  {
    ghost var w0, from := admin.world, |admin.hist|;
    ghost var ids, done: set<Node> := IdsOf(all), {};
    gone, reset := {}, {};
    ForgetNone(w0);
    for i := currentMasterNum downto expectMasterNum
      invariant old(admin.hist) <= admin.hist
      invariant CanForget(w0, ids) ==> AllIntact(w0, admin.hist, from)
      invariant done == NodesFrom(groups, clusterName, i, currentMasterNum) && done <= all
      invariant forall x :: x in done ==> x.Slots == []
      invariant ForgotSome(w0, admin.world, ids, gone, reset)
      invariant admin.reliable || admin.steady ==> gone == IdsOf(done)
    {
      var group := NodesOf(groups, clusterName, i);
      OneSetMore(groups, clusterName, expectMasterNum, i, currentMasterNum, done, all, group);
      full, gone, reset := ForgetGroup(admin, group, connected, ids, w0, from, gone, reset);
      if full.Some? {
        return;
      }
      done := done + ToSet(group);
    }
    full := None;
  }

  lemma IdsOfMore(ns: set<Node>, group: seq<Node>)
    ensures IdsOf(ns + ToSet(group)) == IdsOf(ns) + IdsIn(group)
  {
  }

  lemma OneSetMore(groups: Groups, clusterName: string, lo: nat, i: nat, hi: nat, done: set<Node>, all: set<Node>, group: seq<Node>)
    requires lo <= i < hi && done == NodesFrom(groups, clusterName, i + 1, hi) && all == NodesFrom(groups, clusterName, lo, hi)
    requires group == NodesOf(groups, clusterName, i)
    ensures done + ToSet(group) == NodesFrom(groups, clusterName, i, hi) && done + ToSet(group) <= all
    ensures IdsOf(done + ToSet(group)) == IdsOf(done) + IdsIn(group)
    ensures forall x :: x in group ==> x in all
    ensures forall x :: x in done + ToSet(group) <==> x in done || x in group
  {
    RemovedGroup(groups, clusterName, lo, i, hi);
    IdsOfMore(done, group);
  }

  lemma {:induction false} RemovedGroup(groups: Groups, clusterName: string, lo: nat, i: nat, hi: nat)
    requires lo <= i < hi
    ensures NodesFrom(groups, clusterName, i, hi) <= NodesFrom(groups, clusterName, lo, hi)
    ensures NodesFrom(groups, clusterName, i, hi) == NodesFrom(groups, clusterName, i + 1, hi) + ToSet(NodesOf(groups, clusterName, i))
    decreases i - lo
  {
    if lo < i {
      RemovedGroup(groups, clusterName, lo + 1, i, hi);
    }
  }

  /** What DispatchSlotToNewMasters needs, and what keeps the "is not empty" guard from firing. */
  ghost predicate CanDispatch(w: World, news: seq<Node>, olds: seq<Node>, removed: set<Node>)
    reads news, olds, removed
  {
    && ScaleDownPlan.GoodHoldings(news, olds, w.n) && Dispatch.FullyListed(w, news + olds)
    && (forall x :: x in removed ==> x !in news && (x in olds || x.Slots == []))
    && (forall i, x :: 0 <= i < |news + olds| && x in removed && x.ID == (news + olds)[i].ID ==> x == (news + olds)[i])
  }

  /** The masters serve everything, and about equally much. */
  ghost predicate ServedByNews(w: World, news: seq<Node>) {
    && (forall a, s: Slot :: Claims(w, a, s) ==> exists i :: 0 <= i < |news| && news[i].ID == a)
    && (|news| >= 2 ==> forall i :: 0 <= i < |news| ==>
          Filling.CeilDiv(w.n, |news|) - 2 * |news| + 3 <= |Owned(w, news[i].ID)| <= Filling.CeilDiv(w.n, |news|) + 1)
  }

  lemma RemovedCanBeForgotten(w0: World, w: World, news: seq<Node>, olds: seq<Node>, removed: set<Node>)
    requires Sound(w) && Dispatch.FullyListed(w, news + olds) && w.replicaOf == w0.replicaOf && w.nodes == w0.nodes
    requires Dispatch.AllMasters(w0, news + olds)
    requires forall x :: x in removed ==> x.Slots == []
    requires forall i, x :: 0 <= i < |news + olds| && x in removed && x.ID == (news + olds)[i].ID ==> x == (news + olds)[i]
    ensures CanForget(w, IdsOf(removed))
  {
    var all := news + olds;
    forall a, s: Slot | a in IdsOf(removed) ensures !Claims(w, a, s) {
      var x :| x in removed && x.ID == a;
      forall i | 0 <= i < |all| && all[i].ID == a ensures !Claims(w, a, s) {
        assert Truthful(w, all[i].ID, all[i].Slots);
      }
    }
    forall a, s: Slot | a in w.replicaOf ensures !Claims(w, a, s) {
      forall i | 0 <= i < |all| ensures all[i].ID != a {
        assert IsMaster(w0, all[i].ID);
      }
    }
  }

  lemma DispatchedToNews(w: World, news: seq<Node>, olds: seq<Node>)
    requires Sound(w) && Dispatch.FullyListed(w, news + olds)
    requires forall i :: 0 <= i < |olds| && olds[i] !in news ==> olds[i].Slots == []
    requires Dispatch.WellBalanced(news, w.n)
    ensures ServedByNews(w, news)
  {
    var all := news + olds;
    forall a, s: Slot | Claims(w, a, s) ensures exists i :: 0 <= i < |news| && news[i].ID == a {
      var i :| 0 <= i < |all| && all[i].ID == a;
      assert s in all[i].Slots;
      assert all[i] in news;
    }
    forall i | 0 <= i < |news| ensures |Owned(w, news[i].ID)| == |news[i].Slots| {
      assert all[i] == news[i];
      Rebalance.TruthfulCount(w, news[i].ID, news[i].Slots);
    }
  }

  lemma StillServedByNews(w: World, w': World, news: seq<Node>)
    requires ServedByNews(w, news) && w'.n == w.n && forall a, s: Slot :: Claims(w', a, s) <==> Claims(w, a, s)
    ensures ServedByNews(w', news)
  {
    forall i | 0 <= i < |news| ensures Owned(w', news[i].ID) == Owned(w, news[i].ID) {
    }
  }

  /** Where scaling down has led: the world after the slots were dispatched, what was told, and who has left. */
  datatype Trail = Trail(dispatched: World, goal: Scattering.Goals, toldTarget: set<Slot>, toldSource: set<Slot>, gone: set<Id>)

  /**
   * What is left of w0 in w. No key is lost exactly if all that a node that has left still
   * stored of a slot is at the slot's goal, and a slot is served exactly if its goal was told
   * or its old owner neither was nor has left.
   */
  ghost predicate LeftExactly(w0: World, w: World, trail: Trail) {
    && Sound(w0) && Scattering.GoodGoals(w0, trail.goal)
    && Scattering.Scattered(w0, trail.dispatched, trail.goal, trail.toldTarget, trail.toldSource)
    && (Scattering.AllKept(w0, w) <==>
          forall t: Slot :: t < w0.n && Owner(w0, t) in trail.gone ==>
            Scattering.Copied(trail.dispatched, Owner(w0, t), trail.goal[t], t))
    && forall t: Slot :: t < w0.n ==>
         (Served(w, t) <==> t in trail.toldTarget || (t !in trail.toldSource && Owner(w0, t) !in trail.gone))
  }

  /** The goals are masters that stay. */
  lemma GoalsStay(w0: World, news: seq<Node>, olds: seq<Node>, removed: set<Node>, goal: Scattering.Goals, gone: set<Id>, reset: set<Id>)
    requires Sound(w0) && Scattering.GoodGoals(w0, goal) && Dispatch.AllMasters(w0, news + olds)
    requires forall x, s: Slot :: Claims(w0, x, s) ==> exists i :: 0 <= i < |news + olds| && (news + olds)[i].ID == x
    requires Dispatch.ListsGoals(news + olds, goal) && Dispatch.PartitionSlots(news, w0.n)
    requires forall x :: x in removed ==> x !in news
    requires forall i, x :: 0 <= i < |news + olds| && x in removed && x.ID == (news + olds)[i].ID ==> x == (news + olds)[i]
    requires gone <= IdsOf(removed) && reset <= w0.replicaOf.Keys
    ensures Scattering.MayLeave(w0, goal, gone, reset)
  {
    var all := news + olds;
    forall t: Slot | t < w0.n ensures goal[t] !in gone && goal[t] !in reset && Owner(w0, t) !in reset {
      assert ScaleDownPlan.HeldByAny(news, t);
      var i :| 0 <= i < |news| && t in news[i].Slots;
      assert all[i] == news[i] && goal[t] == news[i].ID && IsMaster(w0, all[i].ID);
      assert Claims(w0, Owner(w0, t), t);
      var j :| 0 <= j < |all| && all[j].ID == Owner(w0, t);
      assert IsMaster(w0, all[j].ID);
    }
  }

  lemma NewsStay(w0: World, w: World, news: seq<Node>, olds: seq<Node>, removed: set<Node>)
    requires Dispatch.AllMasters(w0, news + olds) && w.nodes == w0.nodes - IdsOf(removed) && w.replicaOf.Keys <= w0.replicaOf.Keys
    requires forall x :: x in removed ==> x !in news
    requires forall i, x :: 0 <= i < |news + olds| && x in removed && x.ID == (news + olds)[i].ID ==> x == (news + olds)[i]
    ensures MastersAre(w, news)
  {
    forall i | 0 <= i < |news| ensures IsMaster(w, news[i].ID) {
      assert (news + olds)[i] == news[i] && IsMaster(w0, (news + olds)[i].ID);
    }
  }

  lemma LeftAfterForgetting(w0: World, w: World, trail: Trail, reset: set<Id>)
    requires Sound(w0) && Scattering.GoodGoals(w0, trail.goal)
    requires Scattering.Scattered(w0, trail.dispatched, trail.goal, trail.toldTarget, trail.toldSource)
    requires Scattering.MayLeave(w0, trail.goal, trail.gone, reset) && w == Forget(trail.dispatched, trail.gone, reset)
    ensures LeftExactly(w0, w, trail)
  {
    Scattering.NothingLostExactly(w0, trail.dispatched, trail.goal, trail.toldTarget, trail.toldSource, trail.gone, reset);
    forall t: Slot | t < w0.n
      ensures Served(w, t) <==> t in trail.toldTarget || (t !in trail.toldSource && Owner(w0, t) !in trail.gone)
    {
      Scattering.ServedAfterExactly(w0, trail.dispatched, trail.goal, trail.toldTarget, trail.toldSource, trail.gone, reset, t);
    }
  }

  /**
   * Scaling down. However the commands end, a removed node is never found non-empty once the
   * slots were dispatched, unless no master at all is expected, because the lists follow the
   * plan and not the keys: the nodes are forgotten even if keys are still on them. What is
   * lost then, the trail tells exactly.
   */
  method ScaleDown(admin: Admin, news: seq<Node>, olds: seq<Node>, groups: Groups, clusterName: string, expectMasterNum: nat,
                   ghost removed: set<Node>)
    returns (r: SyncResult, ghost trail: Trail)
    requires expectMasterNum <= |olds| && admin.world.n > 0 && removed == RemovedNodes(groups, clusterName, expectMasterNum, |olds|)
    requires CanDispatch(admin.world, news, olds, removed)
    modifies admin, news`Slots, olds`Slots
    ensures old(admin.hist) <= admin.hist
    ensures r == Done(ScalingDown) || r == DispatchingFailed || (r.NotEmpty? && news == [])
    ensures Sound(old(admin.world)) && Dispatch.AllMasters(old(admin.world), news + olds) && news != [] && r == Done(ScalingDown) ==>
              LeftExactly(old(admin.world), admin.world, trail) && trail.gone <= IdsOf(removed)
    ensures Sound(old(admin.world)) && Dispatch.AllMasters(old(admin.world), news + olds) && news != [] && (admin.reliable || admin.steady) ==>
              && r == Done(ScalingDown) && trail.gone == IdsOf(removed)
              && LeftExactly(old(admin.world), admin.world, trail)
              && Dispatch.AllToldSteadily(old(admin.world), trail.dispatched, trail.goal, trail.toldTarget, trail.toldSource)
    ensures Dispatch.Fine(admin, old(admin.world), news + olds) && news != [] ==>
              && r == Done(ScalingDown) && Kept(old(admin.world), admin.world, admin.hist, |old(admin.hist)|)
              && ServedByNews(admin.world, news)
              && admin.world.nodes == old(admin.world).nodes - IdsOf(removed)
              && admin.world.replicaOf.Keys <= old(admin.world).replicaOf.Keys && MastersAre(admin.world, news)
              && forall i :: 0 <= i < |news| && old(news[i].Slots) != [] ==> !ServesNothing(admin.world, news[i].ID)
  {
    ghost var w0, from, all := admin.world, |admin.hist|, news + olds;
    ghost var known := Dispatch.WellKnown(w0, all);
    var ok;
    ghost var goal, toldTarget, toldSource;
    ok, goal, toldTarget, toldSource := Dispatch.DispatchSlotToNewMasters(admin, news, olds, news + olds);
    trail := Trail(admin.world, goal, toldTarget, toldSource, {});
    if !ok {
      return DispatchingFailed, trail;
    }
    forall x | x in removed && news != [] ensures x.Slots == [] {
      if x in olds {
        var i :| 0 <= i < |olds| && olds[i] == x;
      } else {
        assert x !in all;
      }
    }
    ghost var w1, mid := admin.world, |admin.hist|;
    if Dispatch.Fine(admin, w0, all) && news != [] {
      RemovedCanBeForgotten(w0, w1, news, olds, removed);
      DispatchedToNews(w1, news, olds);
      StillListingServes(w1, news, olds);
    }
    var full;
    ghost var gone, reset;
    full, gone, reset := RemoveStatefulSets(admin, groups, clusterName, |olds|, expectMasterNum);
    trail := Trail(w1, goal, toldTarget, toldSource, gone);
    if known && Dispatch.AllMasters(w0, all) && news != [] {
      GoalsStay(w0, news, olds, removed, goal, gone, reset);
      LeftAfterForgetting(w0, admin.world, trail, reset);
    }
    if Dispatch.Fine(admin, w0, all) && news != [] {
      KeptLonger(w0, w1, admin.world, admin.hist, from, mid);
      StillServedByNews(w1, admin.world, news);
      NewsStay(w0, admin.world, news, olds, removed);
    }
    r := if full == None then Done(ScalingDown) else NotEmpty(full.value);
  }

  lemma StillListingServes(w: World, news: seq<Node>, olds: seq<Node>)
    requires Dispatch.FullyListed(w, news + olds)
    ensures forall i :: 0 <= i < |news| && news[i].Slots != [] ==> !ServesNothing(w, news[i].ID)
  {
    forall i | 0 <= i < |news| && news[i].Slots != [] ensures !ServesNothing(w, news[i].ID) {
      assert (news + olds)[i] == news[i];
      ListedIsServed(w, news[i].ID, news[i].Slots);
    }
  }

  lemma RemovedAreNotChosen(cluster: map<Id, Node>, ns: seq<Node>, groups: Groups, holders: seq<Node>, masters: Masters,
                            clusterName: string, expectMasterNum: nat, hi: nat, x: Node)
    requires SortsByStatefulSet(groups, cluster, ns) && ChosenUpTo(clusterName, groups, holders, masters, expectMasterNum)
    requires x in RemovedNodes(groups, clusterName, expectMasterNum, hi)
    ensures x in ns && x !in masters.Values
  {
    var i := NodeIsFrom(groups, clusterName, expectMasterNum, hi, x);
    forall k | k in masters ensures masters[k] != x {
      assert Chosen(groups, holders, k, masters[k]);
      if x in groups[k] {
        GroupsDisjoint(groups, cluster, ns, k, ClusterStatefulSetName(clusterName, i), x);
      }
      var j :| 0 <= j < expectMasterNum && k == ClusterStatefulSetName(clusterName, j);
      NamesDiffer(clusterName, i, j);
    }
  }

  lemma GoodHoldingsFromWorld(w: World, cluster: map<Id, Node>, ns: seq<Node>, holders: seq<Node>, news: seq<Node>)
    requires Fresh(w, cluster, ns) && HoldersAre(holders, ns) && Sound(w)
    requires NoDup(holders) && (forall x :: x in holders ==> x in ns) && DistinctNodes(news) && (forall x :: x in news ==> x in ns)
    ensures ScaleDownPlan.GoodHoldings(news, holders, w.n)
    ensures Dispatch.FullyListed(w, news + holders)
  {
    MastersAreDistinct(w, cluster, ns, holders);
    forall i | 0 <= i < |holders| ensures holders[i].ID != NOBODY && Truthful(w, holders[i].ID, holders[i].Slots) {
      assert holders[i] in ns;
    }
    forall i, j, s: Slot | 0 <= i < j < |holders| && s in holders[i].Slots ensures s !in holders[j].Slots {
      assert Claims(w, holders[i].ID, s);
    }
    forall i, j | 0 <= i < |news| && 0 <= j < |holders| && news[i].ID == holders[j].ID ensures news[i] == holders[j] {
      assert news[i] in ns && holders[j] in ns;
    }
    forall i | 0 <= i < |news| && news[i] !in holders ensures news[i].Slots == [] {
      assert news[i] in ns;
      NotHolding(w, cluster, ns, holders, news[i]);
    }
    var all := news + holders;
    forall i | 0 <= i < |all| ensures Truthful(w, all[i].ID, all[i].Slots) {
      assert all[i] in ns;
    }
    forall a, s: Slot | Claims(w, a, s) ensures exists i :: 0 <= i < |all| && all[i].ID == a {
      ClaimersAreHolders(w, cluster, ns, holders, a, s);
      var i :| 0 <= i < |holders| && holders[i].ID == a && s in holders[i].Slots;
      assert all[|news| + i].ID == a;
    }
  }

  lemma HoldersAreMasters(w: World, cluster: map<Id, Node>, ns: seq<Node>, holders: seq<Node>)
    requires Fresh(w, cluster, ns) && HoldersAre(holders, ns) && forall x :: x in holders ==> x in ns
    ensures MastersAre(w, holders)
  {
    forall i | 0 <= i < |holders| ensures IsMaster(w, holders[i].ID) {
      assert holders[i] in ns && holders[i].IsMasterWithSlot();
    }
  }

  lemma RemovedFacts(w: World, cluster: map<Id, Node>, ns: seq<Node>, groups: Groups, holders: seq<Node>, masters: Masters, news: seq<Node>,
                     clusterName: string, expectMasterNum: nat, x: Node)
    requires Fresh(w, cluster, ns) && SortsByStatefulSet(groups, cluster, ns) && HoldersAre(holders, ns)
    requires ChosenUpTo(clusterName, groups, holders, masters, expectMasterNum) && forall y :: y in news ==> y in masters.Values
    requires x in RemovedNodes(groups, clusterName, expectMasterNum, |holders|)
    ensures x.ID in cluster && cluster[x.ID] == x && x !in news && (x in holders || x.Slots == [])
  {
    RemovedAreNotChosen(cluster, ns, groups, holders, masters, clusterName, expectMasterNum, |holders|, x);
    if x !in holders {
      NotHolding(w, cluster, ns, holders, x);
    }
  }

  /** All that scaling down has to know. */
  lemma ScaleDownFacts(w: World, cluster: map<Id, Node>, ns: seq<Node>, groups: Groups, holders: seq<Node>, masters: Masters, news: seq<Node>,
                       clusterName: string, expectMasterNum: nat, removed: set<Node>)
    requires Fresh(w, cluster, ns) && Selected(cluster, ns, groups, holders, masters) && HoldersAre(holders, ns)
    requires ChosenUpTo(clusterName, groups, holders, masters, expectMasterNum)
    requires ListsMasters(news, masters) && Sound(w)
    requires removed == RemovedNodes(groups, clusterName, expectMasterNum, |holders|)
    ensures CanDispatch(w, news, holders, removed)
  {
    MastersInList(w, cluster, ns, groups, holders, masters, news);
    GoodHoldingsFromWorld(w, cluster, ns, holders, news);
    forall x | x in removed ensures x.ID in cluster && cluster[x.ID] == x && x !in news && (x in holders || x.Slots == []) {
      RemovedFacts(w, cluster, ns, groups, holders, masters, news, clusterName, expectMasterNum, x);
    }
    var all := news + holders;
    forall i | 0 <= i < |all| ensures all[i].ID in cluster && cluster[all[i].ID] == all[i] {
      assert all[i] in ns;
    }
  }

  lemma EveryoneIsMaster(w: World, cluster: map<Id, Node>, ns: seq<Node>, groups: Groups, holders: seq<Node>, masters: Masters, news: seq<Node>)
    requires Fresh(w, cluster, ns) && Selected(cluster, ns, groups, holders, masters) && HoldersAre(holders, ns)
    requires ListsMasters(news, masters) && NewSetsHaveNoReplicas(w, groups, holders)
    ensures Dispatch.AllMasters(w, news + holders)
  {
    MastersStay(w, cluster, ns, groups, holders, masters);
    HoldersAreMasters(w, cluster, ns, holders);
  }

  // ---------- one reconciliation ----------

  /** holders are the nodes of the list that are masters with slots. */
  ghost predicate SlotHolders(holders: set<Node>, ns: seq<Node>)
    reads ns
  {
    (forall x :: x in holders ==> x in ns) && forall x :: x in ns ==> (x in holders <==> x.IsMasterWithSlot())
  }

  /** Replicas live only in StatefulSets that also have a slot holder. */
  ghost predicate NewSetsAreEmpty(w: World, cluster: map<Id, Node>, ns: seq<Node>, holders: set<Node>)
    requires forall x :: x in ns ==> x.ID in cluster
  {
    forall x :: x in ns && x.ID in w.replicaOf ==>
      exists y :: y in ns && y in holders && StatefulSetOf(cluster, y) == StatefulSetOf(cluster, x)
  }

  /** Which operation a number of slot holders and the specification call for. */
  predicate CallsFor(holders: nat, masterSize: nat, tooFewReplicas: bool, op: Operation) {
    match op
    case Creating => holders == 0
    case ScalingUp => 0 < holders < masterSize
    case ScalingSlaves => 0 < holders && masterSize <= holders && tooFewReplicas
    case ScalingDown => masterSize < holders && 0 < holders && !tooFewReplicas
    case Nothing => 0 < holders && holders == masterSize && !tooFewReplicas
  }

  /** What the operation achieves; lists are the slots its masters started with, removed the nodes that are to leave. */
  ghost predicate Achieved(op: Operation, w0: World, w: World, hist: seq<World>, from: nat, news: seq<Node>, lists: seq<seq<Slot>>,
                           removed: set<Node>)
    requires |lists| == |news|
  {
    match op
    case Creating => Created(w0, w, news) && MastersAre(w, news)
    case ScalingUp =>
      Kept(w0, w, hist, from) && FairlyServed(w, news, Lengths(lists)) && NobodyElseChanged(w0, w, news) && MastersAre(w, news)
    case ScalingDown =>
      && Kept(w0, w, hist, from) && ServedByNews(w, news) && MastersAre(w, news) && w.nodes == w0.nodes - IdsOf(removed)
      && w.replicaOf.Keys <= w0.replicaOf.Keys && forall i :: 0 <= i < |news| && lists[i] != [] ==> !ServesNothing(w, news[i].ID)
    case ScalingSlaves => Kept(w0, w, hist, from) && MastersAre(w, news) && w == w0.(replicaOf := w.replicaOf)
    case Nothing => Kept(w0, w, hist, from) && w == w0
  }

  /** The operations after which every node that is no master replicates the master of its StatefulSet. */
  predicate Attaches(op: Operation) {
    op in {Creating, ScalingUp, ScalingSlaves}
  }

  lemma NewSetsInGroups(w: World, cluster: map<Id, Node>, ns: seq<Node>, groups: Groups, holders: seq<Node>)
    requires SortsByStatefulSet(groups, cluster, ns) && forall x :: x in ns ==> x.ID in cluster
    requires NewSetsAreEmpty(w, cluster, ns, ToSet(holders))
    ensures NewSetsHaveNoReplicas(w, groups, holders)
  {
    forall k, x | k in groups && x in groups[k] && x.ID in w.replicaOf ensures exists y :: y in groups[k] && y in holders {
      var y :| y in ns && y in ToSet(holders) && StatefulSetOf(cluster, y) == StatefulSetOf(cluster, x);
      assert Grouped(groups, k, y);
    }
  }

  lemma FirstHolder(ns: seq<Node>, holders: seq<Node>)
    requires HoldersAre(holders, ns) && holders != [] && holders[0] in ns
    ensures exists i :: 0 <= i < |ns| && ns[i].Slots != []
  {
    assert holders[0].IsMasterWithSlot();
  }

  lemma ListedIsServed(w: World, a: Id, slots: seq<Slot>)
    requires Truthful(w, a, slots) && slots != []
    ensures !ServesNothing(w, a)
  {
    assert slots[0] in slots;
  }

  /** A blank cluster has no slot holders, a sound one has. */
  lemma BlankOrHeld(w: World, cluster: map<Id, Node>, ns: seq<Node>, holders: seq<Node>)
    requires Fresh(w, cluster, ns) && HoldersAre(holders, ns) && (forall x :: x in holders ==> x in ns) && w.n > 0
    ensures AllocSlots.Blank(w) ==> holders == []
    ensures Sound(w) ==> holders != []
  {
    if AllocSlots.Blank(w) {
      forall x | x in ns ensures x.Slots == [] {
        if x.Slots != [] {
          ListedIsServed(w, x.ID, x.Slots);
          assert false;
        }
      }
      if holders != [] {
        FirstHolder(ns, holders);
        assert false;
      }
    }
    if Sound(w) {
      var k := HolderListing(w, cluster, ns, holders, 0);
    }
  }

  lemma HoldersAreCounted(holders: seq<Node>, ns: seq<Node>, all: set<Node>)
    requires NoDup(holders) && HoldersAre(holders, ns) && (forall x :: x in holders ==> x in ns) && SlotHolders(all, ns)
    ensures all == ToSet(holders) && |holders| == |all|
  {
    NoDupCard(holders);
    assert ToSet(holders) == all;
  }

  /** More slot holders than masters: some StatefulSet has no chosen master. */
  lemma SurplusHolders(cluster: map<Id, Node>, ns: seq<Node>, groups: Groups, holders: seq<Node>, masters: Masters, news: seq<Node>)
    requires Selected(cluster, ns, groups, holders, masters) && (forall x :: x in ns ==> x.ID in cluster)
    requires ListsMasters(news, masters) && |holders| > |news|
    ensures !(groups.Keys <= masters.Keys)
  {
    SomeMasterIsNew(holders, news);
    var i :| 0 <= i < |holders| && holders[i] !in news;
    if groups.Keys <= masters.Keys {
      HoldersAreChosen(cluster, ns, groups, holders, masters, holders[i]);
      assert false;
    }
  }

  // ---------- the StatefulSets of the node list ----------

  /** x belongs to one of the StatefulSets lo to hi - 1. */
  ghost predicate InSets(cluster: map<Id, Node>, x: Node, clusterName: string, lo: nat, hi: nat)
    requires x.ID in cluster
  {
    exists i :: lo <= i < hi && StatefulSetOf(cluster, x) == ClusterStatefulSetName(clusterName, i)
  }

  /** All nodes belong to the first m StatefulSets. */
  ghost predicate NothingUnexpected(cluster: map<Id, Node>, ns: seq<Node>, clusterName: string, m: nat)
    requires forall x :: x in ns ==> x.ID in cluster
  {
    forall x :: x in ns ==> InSets(cluster, x, clusterName, 0, m)
  }

  /** The StatefulSet has nodes, and at most one of them holds slots. */
  ghost predicate DecidableSet(cluster: map<Id, Node>, ns: seq<Node>, holders: set<Node>, name: string)
    requires forall x :: x in ns ==> x.ID in cluster
  {
    && (exists x :: x in ns && StatefulSetOf(cluster, x) == name)
    && forall x, y :: x in ns && y in ns && x in holders && y in holders && StatefulSetOf(cluster, x) == StatefulSetOf(cluster, y) == name ==>
         x == y
  }

  ghost predicate AllDecidable(cluster: map<Id, Node>, ns: seq<Node>, holders: set<Node>, clusterName: string, m: nat)
    requires forall x :: x in ns ==> x.ID in cluster
  {
    forall i :: 0 <= i < m ==> DecidableSet(cluster, ns, holders, ClusterStatefulSetName(clusterName, i))
  }

  lemma DecidableInList(cluster: map<Id, Node>, ns: seq<Node>, groups: Groups, holders: seq<Node>, k: string)
    requires SortsByStatefulSet(groups, cluster, ns) && forall x :: x in ns ==> x.ID in cluster
    ensures Decidable(groups, holders, k) <==> DecidableSet(cluster, ns, ToSet(holders), k)
  {
    forall x | x in ns && StatefulSetOf(cluster, x) == k ensures k in groups && x in groups[k] {
      assert Grouped(groups, k, x);
    }
    if Decidable(groups, holders, k) {
      assert groups[k][0] in ns && StatefulSetOf(cluster, groups[k][0]) == k;
    }
    if DecidableSet(cluster, ns, ToSet(holders), k) {
      forall x, y | x in groups[k] && y in groups[k] && x in holders && y in holders ensures x == y {
        assert x in ns && y in ns && x in ToSet(holders) && y in ToSet(holders);
        assert StatefulSetOf(cluster, x) == k && StatefulSetOf(cluster, y) == k;
      }
    }
  }

  /** Every StatefulSet has a chosen master exactly if there are no others than the expected ones. */
  lemma ExpectedKeys(cluster: map<Id, Node>, ns: seq<Node>, groups: Groups, holders: seq<Node>, masters: Masters, clusterName: string, m: nat)
    requires SortsByStatefulSet(groups, cluster, ns) && ChosenUpTo(clusterName, groups, holders, masters, m)
    requires forall x :: x in ns ==> x.ID in cluster
    ensures groups.Keys <= masters.Keys <==> NothingUnexpected(cluster, ns, clusterName, m)
  {
    if groups.Keys <= masters.Keys {
      forall x | x in ns ensures InSets(cluster, x, clusterName, 0, m) {
        var k := StatefulSetOf(cluster, x);
        assert Grouped(groups, k, x);
        assert k in groups.Keys;
        assert k in masters;
      }
    }
    if NothingUnexpected(cluster, ns, clusterName, m) {
      forall k | k in groups ensures k in masters {
        assert groups[k][0] in groups[k];
        assert InSets(cluster, groups[k][0], clusterName, 0, m);
      }
    }
  }

  /** In Redis, every node that is not in news replicates the one of news that is in its StatefulSet. */
  ghost predicate Follows(w: World, cluster: map<Id, Node>, ns: seq<Node>, news: seq<Node>)
    requires forall x :: x in ns ==> x.ID in cluster
  {
    forall x :: x in ns && x !in news ==>
      x.ID in w.replicaOf &&
      exists y :: y in news && y in ns && StatefulSetOf(cluster, y) == StatefulSetOf(cluster, x) && w.replicaOf[x.ID] == y.ID
  }

  lemma ReplicatingIsFollowing(w: World, cluster: map<Id, Node>, ns: seq<Node>, groups: Groups, holders: seq<Node>, masters: Masters, news: seq<Node>)
    requires Selected(cluster, ns, groups, holders, masters) && ListsMasters(news, masters) && forall x :: x in ns ==> x.ID in cluster
    requires groups.Keys <= masters.Keys && AllReplicate(w, groups, masters)
    ensures Follows(w, cluster, ns, news)
  {
    forall x | x in ns && x !in news
      ensures x.ID in w.replicaOf
      ensures exists y :: y in news && y in ns && StatefulSetOf(cluster, y) == StatefulSetOf(cluster, x) && w.replicaOf[x.ID] == y.ID
    {
      var k := StatefulSetOf(cluster, x);
      assert Grouped(groups, k, x);
      assert k in groups.Keys;
      assert Chosen(groups, holders, k, masters[k]);
      assert masters[k] in news && masters[k] in ns && StatefulSetOf(cluster, masters[k]) == k;
    }
  }

  ghost function NodesInSets(cluster: map<Id, Node>, ns: seq<Node>, clusterName: string, lo: nat, hi: nat): set<Node>
    requires forall x :: x in ns ==> x.ID in cluster
  {
    set x | x in ns && InSets(cluster, x, clusterName, lo, hi)
  }

  lemma RemovedInList(cluster: map<Id, Node>, ns: seq<Node>, groups: Groups, clusterName: string, lo: nat, hi: nat)
    requires SortsByStatefulSet(groups, cluster, ns) && forall x :: x in ns ==> x.ID in cluster
    ensures RemovedNodes(groups, clusterName, lo, hi) == NodesInSets(cluster, ns, clusterName, lo, hi)
  {
    forall x | x in RemovedNodes(groups, clusterName, lo, hi) ensures x in NodesInSets(cluster, ns, clusterName, lo, hi) {
      var i := NodeIsFrom(groups, clusterName, lo, hi, x);
      assert StatefulSetOf(cluster, x) == ClusterStatefulSetName(clusterName, i);
    }
    forall x | x in NodesInSets(cluster, ns, clusterName, lo, hi) ensures x in RemovedNodes(groups, clusterName, lo, hi) {
      var i :| lo <= i < hi && StatefulSetOf(cluster, x) == ClusterStatefulSetName(clusterName, i);
      assert Grouped(groups, ClusterStatefulSetName(clusterName, i), x);
      RemovedGroup(groups, clusterName, lo, i, hi);
      assert x in NodesOf(groups, clusterName, i);
    }
  }

  /** What the choice of the masters amounts to, in terms of the node list. */
  ghost predicate Charted(cluster: map<Id, Node>, ns: seq<Node>, groups: Groups, masters: Masters, news: seq<Node>, clusterName: string,
                          m: nat, current: nat, removed: set<Node>)
    requires forall x :: x in ns ==> x.ID in cluster
  {
    && (groups.Keys <= masters.Keys <==> NothingUnexpected(cluster, ns, clusterName, m))
    && (forall w :: groups.Keys <= masters.Keys && AllReplicate(w, groups, masters) ==> Follows(w, cluster, ns, news))
    && removed == NodesInSets(cluster, ns, clusterName, m, current)
  }

  lemma DecidedIsCharted(ctx: Ctx, w: World, ns: seq<Node>, news: seq<Node>, removed: set<Node>)
    requires Decided(ctx, w, ns, news)
    requires removed == RemovedNodes(ctx.nodes, ctx.clusterName, ctx.expectedMasterNum, |ctx.currentMasters|)
    ensures Charted(ctx.cluster, ns, ctx.nodes, ctx.newMastersBySts, news, ctx.clusterName, ctx.expectedMasterNum, |ctx.currentMasters|, removed)
  {
    var cluster, groups, holders, masters := ctx.cluster, ctx.nodes, ctx.currentMasters, ctx.newMastersBySts;
    ExpectedKeys(cluster, ns, groups, holders, masters, ctx.clusterName, ctx.expectedMasterNum);
    forall v | groups.Keys <= masters.Keys && AllReplicate(v, groups, masters) ensures Follows(v, cluster, ns, news) {
      ReplicatingIsFollowing(v, cluster, ns, groups, holders, masters, news);
    }
    RemovedInList(cluster, ns, groups, ctx.clusterName, ctx.expectedMasterNum, |holders|);
  }

  /** After scaling down nothing but the expected StatefulSets is left if and only if none had a number from the slot holders' on. */
  lemma NothingElseLeftExactly(cluster: map<Id, Node>, ns: seq<Node>, clusterName: string, m: nat, current: nat)
    requires m <= current && forall x :: x in ns ==> x.ID in cluster
    ensures (forall x :: x in ns && x !in NodesInSets(cluster, ns, clusterName, m, current) ==> InSets(cluster, x, clusterName, 0, m)) <==>
            NothingUnexpected(cluster, ns, clusterName, current)
  {
    forall x | x in ns
      ensures InSets(cluster, x, clusterName, 0, current) <==>
        InSets(cluster, x, clusterName, 0, m) || InSets(cluster, x, clusterName, m, current)
    {
      if i :| 0 <= i < current && StatefulSetOf(cluster, x) == ClusterStatefulSetName(clusterName, i) {
        assert i < m || m <= i;
      }
    }
    forall x, i, j | x in ns && 0 <= i < m <= j < current && StatefulSetOf(cluster, x) == ClusterStatefulSetName(clusterName, i)
      ensures StatefulSetOf(cluster, x) != ClusterStatefulSetName(clusterName, j)
    {
      NamesDiffer(clusterName, i, j);
    }
  }

  /** Everything a reconciliation knows once the masters are chosen. */
  ghost predicate Decided(ctx: Ctx, w: World, ns: seq<Node>, news: seq<Node>)
    reads ctx, ns
  {
    && ctx.slavesByMaster == map[]
    && Fresh(w, ctx.cluster, ns) && HoldersAre(ctx.currentMasters, ns)
    && Selected(ctx.cluster, ns, ctx.nodes, ctx.currentMasters, ctx.newMastersBySts)
    && ChosenUpTo(ctx.clusterName, ctx.nodes, ctx.currentMasters, ctx.newMastersBySts, ctx.expectedMasterNum)
    && ListsMasters(news, ctx.newMastersBySts)
    && |news| == ctx.expectedMasterNum
  }

  method Decide(cluster: map<Id, Node>, ns: seq<Node>, masterSize: nat, clusterName: string) returns (ctx: Ctx, placed: Outcome)
    requires NoDup(ns) && forall x :: x in ns ==> x.ID in cluster
    ensures fresh(ctx) && ctx.cluster == cluster && ctx.expectedMasterNum == masterSize && ctx.clusterName == clusterName
    ensures ctx.slavesByMaster == map[] && HoldersAre(ctx.currentMasters, ns)
    ensures NoDup(ctx.currentMasters) && forall x :: x in ctx.currentMasters ==> x in ns
    ensures placed == Placed <==> AllDecidable(cluster, ns, ToSet(ctx.currentMasters), clusterName, masterSize)
    ensures placed == Placed ==>
              && Selected(cluster, ns, ctx.nodes, ctx.currentMasters, ctx.newMastersBySts)
              && ChosenUpTo(clusterName, ctx.nodes, ctx.currentMasters, ctx.newMastersBySts, masterSize)
              && |ctx.newMastersBySts| == masterSize
  {
    ctx := new Ctx(cluster, ns, masterSize, clusterName);
    forall i | 0 <= i < masterSize
      ensures Decidable(ctx.nodes, ctx.currentMasters, ctx.Name(i)) <==>
                DecidableSet(cluster, ns, ToSet(ctx.currentMasters), ClusterStatefulSetName(clusterName, i))
    {
      DecidableInList(cluster, ns, ctx.nodes, ctx.currentMasters, ctx.Name(i));
    }
    placed := ctx.DispatchMasters();
  }

  /** The first half of a reconciliation: the masters are chosen. */
  method ChooseMasters(cluster: map<Id, Node>, ns: seq<Node>, masterSize: nat, clusterName: string, ghost w: World)
    returns (ctx: Ctx, placed: Outcome, news: seq<Node>)
    requires Fresh(w, cluster, ns)
    ensures fresh(ctx) && ctx.cluster == cluster && ctx.expectedMasterNum == masterSize && ctx.clusterName == clusterName
    ensures HoldersAre(ctx.currentMasters, ns) && NoDup(ctx.currentMasters) && forall x :: x in ctx.currentMasters ==> x in ns
    ensures placed == Placed <==> AllDecidable(cluster, ns, ToSet(ctx.currentMasters), clusterName, masterSize)
    ensures placed == Placed ==> Decided(ctx, w, ns, news)
  {
    ctx, placed := Decide(cluster, ns, masterSize, clusterName);
    news := [];
    if placed == Placed {
      SelectedGroups(w, cluster, ns, ctx.nodes, ctx.currentMasters, ctx.newMastersBySts);
      news := ctx.GetNewMasters();
    }
  }

  /** The second half of a reconciliation: the operation that the masters call for. */
  method Operate(ctx: Ctx, admin: Admin, news: seq<Node>, tooFewReplicas: bool, ghost ns: seq<Node>, ghost lists: seq<seq<Slot>>,
                 ghost removed: set<Node>)
    returns (r: SyncResult)
    requires OperateReady(ctx, admin.world, ns, news, lists, removed)
    modifies ctx`slavesByMaster, ctx`bestEffort, admin, ns`Role, ns`MasterReferent, ns`Slots, ns`balance
    ensures old(admin.hist) <= admin.hist
    ensures !r.NotEmpty? && !r.Undecided?
    ensures r.Done? ==> CallsFor(|ctx.currentMasters|, |news|, tooFewReplicas, r.op)
    ensures r.Done? ==> if r.op == Creating then AllocSlots.Blank(old(admin.world)) else Sound(old(admin.world))
    ensures r == Panicked ==> admin.world == old(admin.world) && admin.hist == old(admin.hist)
    ensures |ctx.currentMasters| > |news| && tooFewReplicas ==> r == Panicked
    ensures r == Panicked <==> (|ctx.currentMasters| < |news| || tooFewReplicas) && !(ctx.nodes.Keys <= ctx.newMastersBySts.Keys)
    ensures admin.reliable && OperatesFine(old(admin.world), ctx, news) && r != Panicked ==>
              && r.Done? && Achieved(r.op, old(admin.world), admin.world, admin.hist, |old(admin.hist)|, news, lists, removed)
              && (Attaches(r.op) ==> AllReplicate(admin.world, ctx.nodes, ctx.newMastersBySts))
  {
    var curMasters := ctx.currentMasters;
    if |curMasters| == 0 {
      r := Create(ctx, admin, news, ns);
    } else if |news| > |curMasters| {
      r := ScaleUp(ctx, admin, news, ns, lists);
    } else if tooFewReplicas {
      var attached := Attach(ctx, admin, news, ns);
      r := if attached == NoMaster then Panicked else if attached == AttachFailed then AttachingFailed else Done(ScalingSlaves);
    } else if |curMasters| > ctx.expectedMasterNum {
      ghost var trail;
      r, trail := ScaleDown(admin, news, curMasters, ctx.nodes, ctx.clusterName, ctx.expectedMasterNum, removed);
    } else {
      r := Done(Nothing);
    }
  }

  /** What the operations may rely on, whichever is chosen. */
  ghost predicate OperateReady(ctx: Ctx, w: World, ns: seq<Node>, news: seq<Node>, lists: seq<seq<Slot>>, removed: set<Node>)
    reads ctx, ns, news, ctx.currentMasters, removed
  {
    && Prepared(ctx.cluster, ctx.nodes, ctx.newMastersBySts, ns, news) && ctx.slavesByMaster == map[]
    && |news| == ctx.expectedMasterNum && 0 < |news| <= w.n && 2 * w.n < MAX_SLOT
    && |lists| == |news| && (forall i :: 0 <= i < |news| ==> lists[i] == news[i].Slots)
    && (forall i :: 0 <= i < |ctx.currentMasters| ==> ctx.currentMasters[i] in ns) && TrueReferents(w, ns)
    && removed == RemovedNodes(ctx.nodes, ctx.clusterName, ctx.expectedMasterNum, |ctx.currentMasters|)
    && Operable(w, ctx.nodes, ctx.currentMasters, ctx.newMastersBySts, news, lists, removed)
  }

  ghost predicate Operable(w: World, groups: Groups, holders: seq<Node>, masters: Masters, news: seq<Node>, lists: seq<seq<Slot>>,
                           removed: set<Node>)
    reads news, holders, removed
  {
    && (holders == [] ==> AllocSlots.Blank(w)) && (holders != [] ==> Sound(w))
    && (|holders| < |news| && Sound(w) && groups.Keys <= masters.Keys ==> CanLevel(w, news, lists))
    && (|holders| > |news| ==> !(groups.Keys <= masters.Keys))
    && (Sound(w) ==> CanDispatch(w, news, holders, removed))
  }

  ghost predicate OperatesFine(w: World, ctx: Ctx, news: seq<Node>)
    reads ctx
  {
    && (ctx.nodes.Keys <= ctx.newMastersBySts.Keys ==> AttachingIsFine(w, ctx.nodes, ctx.newMastersBySts, news))
    && Dispatch.AllMasters(w, news + ctx.currentMasters)
  }

  lemma FreshFacts(w: World, cluster: map<Id, Node>, ns: seq<Node>, groups: Groups, holders: seq<Node>, masters: Masters)
    requires Fresh(w, cluster, ns) && Selected(cluster, ns, groups, holders, masters)
    ensures TrueReferents(w, ns) && forall i :: 0 <= i < |holders| ==> holders[i] in ns
  {
    forall i | 0 <= i < |holders| ensures holders[i] in ns {
      assert holders[i] in holders;
    }
  }

  lemma CanOperate(ctx: Ctx, w: World, ns: seq<Node>, news: seq<Node>, lists: seq<seq<Slot>>, removed: set<Node>)
    requires Decided(ctx, w, ns, news) && (Sound(w) || AllocSlots.Blank(w))
    requires 0 < |news| <= w.n && 2 * w.n < MAX_SLOT
    requires |lists| == |news| && (forall i :: 0 <= i < |news| ==> lists[i] == news[i].Slots)
    requires removed == RemovedNodes(ctx.nodes, ctx.clusterName, ctx.expectedMasterNum, |ctx.currentMasters|)
    ensures OperateReady(ctx, w, ns, news, lists, removed)
  {
    var cluster, groups, holders, masters := ctx.cluster, ctx.nodes, ctx.currentMasters, ctx.newMastersBySts;
    PreparedFacts(w, cluster, ns, groups, holders, masters, news);
    FreshFacts(w, cluster, ns, groups, holders, masters);
    OperationFacts(w, cluster, ns, groups, holders, masters, news, lists, ctx.clusterName, ctx.expectedMasterNum, removed);
  }

  lemma OperationFacts(w: World, cluster: map<Id, Node>, ns: seq<Node>, groups: Groups, holders: seq<Node>, masters: Masters, news: seq<Node>,
                       lists: seq<seq<Slot>>, clusterName: string, masterSize: nat, removed: set<Node>)
    requires Fresh(w, cluster, ns) && Selected(cluster, ns, groups, holders, masters) && HoldersAre(holders, ns)
    requires ChosenUpTo(clusterName, groups, holders, masters, masterSize) && ListsMasters(news, masters)
    requires (Sound(w) || AllocSlots.Blank(w)) && 0 < |news| <= w.n
    requires |lists| == |news| && (forall i :: 0 <= i < |news| ==> lists[i] == news[i].Slots)
    requires removed == RemovedNodes(groups, clusterName, masterSize, |holders|)
    ensures Operable(w, groups, holders, masters, news, lists, removed)
  {
    BlankOrHeld(w, cluster, ns, holders);
    if Sound(w) {
      ScaleDownFacts(w, cluster, ns, groups, holders, masters, news, clusterName, masterSize, removed);
      if |holders| < |news| {
        ScaleUpFacts(w, cluster, ns, groups, holders, masters, news, lists);
      }
    }
    if |holders| > |news| {
      SurplusHolders(cluster, ns, groups, holders, masters, news);
    }
  }

  lemma OperatingIsFine(ctx: Ctx, w: World, ns: seq<Node>, news: seq<Node>)
    requires Decided(ctx, w, ns, news) && (Sound(w) || AllocSlots.Blank(w))
    requires NewSetsAreEmpty(w, ctx.cluster, ns, ToSet(ctx.currentMasters))
    ensures OperatesFine(w, ctx, news)
  {
    var cluster, groups, holders, masters := ctx.cluster, ctx.nodes, ctx.currentMasters, ctx.newMastersBySts;
    NewSetsInGroups(w, cluster, ns, groups, holders);
    ReadyFacts(w, cluster, ns, groups, holders, masters, news);
    EveryoneIsMaster(w, cluster, ns, groups, holders, masters, news);
  }

  /** news has exactly one node of each of the first StatefulSets. */
  ghost predicate OneOfEach(cluster: map<Id, Node>, ns: seq<Node>, news: seq<Node>, clusterName: string)
    requires forall x :: x in ns ==> x.ID in cluster
  {
    && (forall x :: x in news ==> x in ns)
    && (forall x, y :: x in ns && x in news && y in ns && y in news && StatefulSetOf(cluster, x) == StatefulSetOf(cluster, y) ==> x == y)
    && (forall i :: 0 <= i < |news| ==> exists x :: x in news && x in ns && StatefulSetOf(cluster, x) == ClusterStatefulSetName(clusterName, i))
    && (forall x :: x in ns && x in news ==> InSets(cluster, x, clusterName, 0, |news|))
  }

  /** And all slot holders in them. */
  ghost predicate OnePerSet(cluster: map<Id, Node>, ns: seq<Node>, holders: set<Node>, news: seq<Node>, clusterName: string)
    requires forall x :: x in ns ==> x.ID in cluster
  {
    && OneOfEach(cluster, ns, news, clusterName)
    && forall x :: x in ns && InSets(cluster, x, clusterName, 0, |news|) && x in holders ==> x in news
  }

  lemma DecidedPerSet(ctx: Ctx, w: World, ns: seq<Node>, news: seq<Node>)
    requires Decided(ctx, w, ns, news)
    ensures OnePerSet(ctx.cluster, ns, ToSet(ctx.currentMasters), news, ctx.clusterName)
  {
    DecidedOneOfEach(ctx, w, ns, news);
    var cluster, groups, holders, masters := ctx.cluster, ctx.nodes, ctx.currentMasters, ctx.newMastersBySts;
    forall x | x in ns && InSets(cluster, x, ctx.clusterName, 0, |news|) && x in ToSet(holders) ensures x in news {
      HolderIsChosen(cluster, ns, groups, holders, masters, news, ctx.clusterName, x);
    }
  }

  lemma HolderIsChosen(cluster: map<Id, Node>, ns: seq<Node>, groups: Groups, holders: seq<Node>, masters: Masters, news: seq<Node>,
                       clusterName: string, x: Node)
    requires SortsByStatefulSet(groups, cluster, ns) && ListsMasters(news, masters) && x in ns && x.ID in cluster && x in holders
    requires ChosenUpTo(clusterName, groups, holders, masters, |news|) && forall k :: k in masters ==> Chosen(groups, holders, k, masters[k])
    requires InSets(cluster, x, clusterName, 0, |news|)
    ensures x in news
  {
    var i :| 0 <= i < |news| && StatefulSetOf(cluster, x) == ClusterStatefulSetName(clusterName, i);
    var k := ClusterStatefulSetName(clusterName, i);
    assert Chosen(groups, holders, k, masters[k]);
    assert Grouped(groups, k, x);
  }

  lemma DecidedOneOfEach(ctx: Ctx, w: World, ns: seq<Node>, news: seq<Node>)
    requires Decided(ctx, w, ns, news)
    ensures OneOfEach(ctx.cluster, ns, news, ctx.clusterName)
  {
    var cluster, groups, holders, masters := ctx.cluster, ctx.nodes, ctx.currentMasters, ctx.newMastersBySts;
    forall x | x in news
      ensures x in ns && InSets(cluster, x, ctx.clusterName, 0, |news|)
      ensures StatefulSetOf(cluster, x) in masters && masters[StatefulSetOf(cluster, x)] == x
    {
      var k :| k in masters && masters[k] == x;
      assert Chosen(groups, holders, k, masters[k]);
      assert StatefulSetOf(cluster, x) == k;
    }
    forall i | 0 <= i < |news|
      ensures exists x :: x in news && x in ns && StatefulSetOf(cluster, x) == ClusterStatefulSetName(ctx.clusterName, i)
    {
      var k := ClusterStatefulSetName(ctx.clusterName, i);
      assert Chosen(groups, holders, k, masters[k]);
      assert masters[k] in news && StatefulSetOf(cluster, masters[k]) == k;
    }
  }

  /** Everything up to the first command. */
  method Prepare(cluster: map<Id, Node>, ns: seq<Node>, masterSize: nat, clusterName: string, ghost w: World, ghost holders: set<Node>)
    returns (ctx: Ctx, placed: Outcome, news: seq<Node>, ghost lists: seq<seq<Slot>>, ghost removed: set<Node>)
    requires Fresh(w, cluster, ns) && (Sound(w) || AllocSlots.Blank(w)) && 0 < masterSize <= w.n && 2 * w.n < MAX_SLOT
    requires SlotHolders(holders, ns)
    ensures fresh(ctx) && |lists| == |news|
    ensures placed == Placed <==> AllDecidable(cluster, ns, holders, clusterName, masterSize)
    ensures placed == Placed ==> OnePerSet(cluster, ns, holders, news, clusterName)
    ensures placed == Placed && NewSetsAreEmpty(w, cluster, ns, holders) ==> OperatesFine(w, ctx, news)
    ensures |ctx.currentMasters| == |holders|
    ensures placed == Placed ==> Charted(cluster, ns, ctx.nodes, ctx.newMastersBySts, news, clusterName, masterSize, |holders|, removed)
    ensures placed == Placed ==> |news| == masterSize && OperateReady(ctx, w, ns, news, lists, removed)
    ensures forall i, j :: 0 <= i < |news| && 0 <= j < |ns| && news[i] == ns[j] ==> lists[i] == ns[j].Slots
    ensures placed == Placed ==> removed == NodesInSets(cluster, ns, clusterName, masterSize, |holders|)
  {
    ctx, placed, news := ChooseMasters(cluster, ns, masterSize, clusterName, w);
    HoldersAreCounted(ctx.currentMasters, ns, holders);
    lists := ListsOf(news);
    removed := RemovedNodes(ctx.nodes, ctx.clusterName, ctx.expectedMasterNum, |ctx.currentMasters|);
    if placed != Placed {
      return;
    }
    CanOperate(ctx, w, ns, news, lists, removed);
    if NewSetsAreEmpty(w, cluster, ns, holders) {
      OperatingIsFine(ctx, w, ns, news);
    }
    DecidedPerSet(ctx, w, ns, news);
    DecidedIsCharted(ctx, w, ns, news, removed);
  }

  /** The operation has done what it is for, with every other node a replica of its set's master if it attaches any. */
  ghost predicate Succeeded(r: SyncResult, w0: World, w: World, hist: seq<World>, from: nat, cluster: map<Id, Node>, ns: seq<Node>,
                            news: seq<Node>, lists: seq<seq<Slot>>, removed: set<Node>)
    requires |lists| == |news| && forall x :: x in ns ==> x.ID in cluster
  {
    && r.Done? && Achieved(r.op, w0, w, hist, from, news, lists, removed)
    && (Attaches(r.op) ==> Follows(w, cluster, ns, news))
  }

  /** PlaceSlaves is going to meet a StatefulSet without master. */
  ghost predicate WillPanic(cluster: map<Id, Node>, ns: seq<Node>, holders: set<Node>, masterSize: nat, clusterName: string, tooFewReplicas: bool)
    requires forall x :: x in ns ==> x.ID in cluster
  {
    (|holders| < masterSize || tooFewReplicas) && !NothingUnexpected(cluster, ns, clusterName, masterSize)
  }

  /** Operate, in terms of the node list. */
  method OperateOnList(ctx: Ctx, admin: Admin, news: seq<Node>, tooFewReplicas: bool, cluster: map<Id, Node>, ghost ns: seq<Node>,
                       clusterName: string, ghost lists: seq<seq<Slot>>, ghost removed: set<Node>, ghost w0: World, ghost from: nat,
                       ghost holders: set<Node>, ghost fine: bool)
    returns (r: SyncResult)
    requires OperateReady(ctx, admin.world, ns, news, lists, removed) && forall x :: x in ns ==> x.ID in cluster
    requires Charted(cluster, ns, ctx.nodes, ctx.newMastersBySts, news, clusterName, |news|, |ctx.currentMasters|, removed)
    requires w0 == admin.world && from == |admin.hist| && |holders| == |ctx.currentMasters| && (fine ==> OperatesFine(w0, ctx, news))
    modifies ctx`slavesByMaster, ctx`bestEffort, admin, ns`Role, ns`MasterReferent, ns`Slots, ns`balance
    ensures old(admin.hist) <= admin.hist
    ensures !r.NotEmpty? && !r.Undecided?
    ensures r.Done? ==> CallsFor(|holders|, |news|, tooFewReplicas, r.op)
    ensures r.Done? ==> if r.op == Creating then AllocSlots.Blank(w0) else Sound(w0)
    ensures r == Panicked ==> admin.world == w0 && admin.hist == old(admin.hist)
    ensures |holders| > |news| && tooFewReplicas ==> r == Panicked
    ensures r == Panicked <==> WillPanic(cluster, ns, holders, |news|, clusterName, tooFewReplicas)
    ensures admin.reliable && fine && !WillPanic(cluster, ns, holders, |news|, clusterName, tooFewReplicas) ==>
              Succeeded(r, w0, admin.world, admin.hist, from, cluster, ns, news, lists, removed)
  {
    r := Operate(ctx, admin, news, tooFewReplicas, ns, lists, removed);
  }

  /**
   * syncCluster. With a reliable client and replicas only where there are slot holders, the
   * operation that is called for succeeds, unless the masters cannot be decided or some
   * StatefulSet has no master to attach slaves to; nothing is ever lost on the way.
   */
  method SyncCluster(admin: Admin, cluster: map<Id, Node>, ns: seq<Node>, masterSize: nat, clusterName: string, tooFewReplicas: bool,
                     ghost holders: set<Node>)
    returns (r: SyncResult, ghost news: seq<Node>, ghost lists: seq<seq<Slot>>, ghost removed: set<Node>)
    requires Fresh(admin.world, cluster, ns) && (Sound(admin.world) || AllocSlots.Blank(admin.world)) && SlotHolders(holders, ns)
    requires 0 < masterSize <= admin.world.n && 2 * admin.world.n < MAX_SLOT
    modifies admin, ns
    ensures old(admin.hist) <= admin.hist && |lists| == |news|
    ensures r.Done? ==> CallsFor(|holders|, masterSize, tooFewReplicas, r.op)
    ensures r.Done? ==> if r.op == Creating then AllocSlots.Blank(old(admin.world)) else Sound(old(admin.world))
    ensures r.Undecided? <==> !AllDecidable(cluster, ns, holders, clusterName, masterSize)
    ensures r == Panicked <==>
              AllDecidable(cluster, ns, holders, clusterName, masterSize) && WillPanic(cluster, ns, holders, masterSize, clusterName, tooFewReplicas)
    ensures |holders| > masterSize && tooFewReplicas ==> r.Undecided? || r == Panicked
    ensures r.Undecided? || r == Panicked ==> admin.world == old(admin.world) && admin.hist == old(admin.hist)
    ensures !r.NotEmpty?
    ensures !r.Undecided? ==> |news| == masterSize && OnePerSet(cluster, ns, holders, news, clusterName)
    ensures forall i, j :: 0 <= i < |news| && 0 <= j < |ns| && news[i] == ns[j] ==> lists[i] == old(ns[j].Slots)
    ensures !r.Undecided? ==> removed == NodesInSets(cluster, ns, clusterName, masterSize, |holders|)
    ensures admin.reliable && NewSetsAreEmpty(old(admin.world), cluster, ns, holders) && AllDecidable(cluster, ns, holders, clusterName, masterSize)
            && !WillPanic(cluster, ns, holders, masterSize, clusterName, tooFewReplicas) ==>
              Succeeded(r, old(admin.world), admin.world, admin.hist, |old(admin.hist)|, cluster, ns, news, lists, removed)
  {
    ghost var w0, from, fine := admin.world, |admin.hist|, NewSetsAreEmpty(admin.world, cluster, ns, holders);
    var ctx, placed, newMasters;
    ctx, placed, newMasters, lists, removed := Prepare(cluster, ns, masterSize, clusterName, admin.world, holders);
    if placed != Placed {
      return Undecided(placed), [], [], {};
    }
    news := newMasters;
    r := OperateOnList(ctx, admin, newMasters, tooFewReplicas, cluster, ns, clusterName, lists, removed, w0, from, holders, fine);
  }
}
