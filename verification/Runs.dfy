/**
 * Whole runs of the operator: any sequence of reconciliations, each with a fresh reading of the
 * cluster, of pods that join and of writes of clients. A cluster that is set up once never
 * leaves a slot unserved or served twice, and stores, seen as one map, what clients wrote.
 */
module Runs {
  import opened Basics
  import opened SlotLists
  import opened RedisWorld
  import opened Nodes
  import opened AdminClient
  import opened Placement
  import opened Sync
  import AllocSlots
  import Rebalance

  // ---------- pods ----------

  datatype Pod = Pod(ip: string, machine: string, statefulSet: string)

  type Directory = map<Id, Pod>

  function SetOf(dir: Directory, a: Id): string
    requires a in dir
  {
    if dir[a].statefulSet != "" then dir[a].statefulSet else UNKNOWN_VM_NAME
  }

  /** All nodes are listed, under proper ids and with addresses of their own. */
  ghost predicate Known(w: World, dir: Directory) {
    && (forall a :: a in w.nodes ==> a in dir && a != NOBODY && a != "-")
    && forall a, b :: a in w.nodes && b in w.nodes && a in dir && b in dir && dir[a].ip == dir[b].ip ==> a == b
  }

  // ---------- what every reconciliation relies on and leaves behind ----------

  ghost predicate Healthy(w: World) {
    Sound(w) || AllocSlots.Blank(w)
  }

  ghost predicate Serving(w: World, a: Id) {
    !ServesNothing(w, a)
  }

  /** Some node of the StatefulSet serves. */
  ghost predicate ServedSet(w: World, dir: Directory, name: string)
    requires Known(w, dir)
  {
    exists b :: b in w.nodes && Serving(w, b) && SetOf(dir, b) == name
  }

  /** The serving nodes are one each of the first h StatefulSets. */
  ghost predicate HoldersFirst(w: World, dir: Directory, clusterName: string, h: nat)
    requires Known(w, dir)
  {
    && (forall b :: b in w.nodes && Serving(w, b) ==> exists i :: 0 <= i < h && SetOf(dir, b) == ClusterStatefulSetName(clusterName, i))
    && (forall i :: 0 <= i < h ==> ServedSet(w, dir, ClusterStatefulSetName(clusterName, i)))
    && (forall b, c :: b in w.nodes && c in w.nodes && Serving(w, b) && Serving(w, c) && SetOf(dir, b) == SetOf(dir, c) ==> b == c)
  }

  /** Replicas serve nothing, and live only in StatefulSets with a serving node. */
  ghost predicate ReplicasApart(w: World, dir: Directory)
    requires Known(w, dir)
  {
    && (forall a :: a in w.replicaOf ==> ServesNothing(w, a))
    && (forall a :: a in w.nodes && a in w.replicaOf ==> exists b :: b in w.nodes && Serving(w, b) && SetOf(dir, b) == SetOf(dir, a))
  }

  ghost predicate Orderly(w: World, dir: Directory, clusterName: string) {
    Healthy(w) && Known(w, dir) && ReplicasApart(w, dir) && exists h: nat :: HoldersFirst(w, dir, clusterName, h)
  }

  // ---------- a fresh reading ----------

  /** All slots that a serves, in order. */
  method ReadSlots(w: World, a: Id) returns (slots: seq<Slot>)
    requires forall s: Slot :: Claims(w, a, s) ==> s < w.n
    ensures Truthful(w, a, slots)
  {
    slots := [];
    for s := 0 to w.n
      invariant NoDup(slots) && forall t: Slot :: t in slots <==> t < s && Claims(w, a, t)
    {
      if Claims(w, a, s) {
        slots := slots + [s];
      }
    }
  }

  ghost predicate ReadFrom(w: World, dir: Directory, x: Node)
    reads x
  {
    && x.ID in w.nodes && x.ID in dir && x.IP == dir[x.ID].ip && x.StatefulSet == dir[x.ID].statefulSet
    && Truthful(w, x.ID, x.Slots)
    && x.Role == (if x.ID in w.replicaOf then SlaveRole else MasterRole)
    && (x.ID in w.replicaOf ==> x.MasterReferent == w.replicaOf[x.ID])
  }

  /** ns lists the nodes of w, and dir has their StatefulSets. */
  ghost predicate Lists(w: World, dir: Directory, cluster: map<Id, Node>, ns: seq<Node>) {
    && (forall x :: x in ns ==> x.ID in w.nodes && x.ID in dir && x.ID in cluster && cluster[x.ID] == x && StatefulSetOf(cluster, x) == SetOf(dir, x.ID))
    && (forall a :: a in w.nodes ==> a in cluster && cluster[a] in ns && cluster[a].ID == a)
  }

  method ReadNode(w: World, dir: Directory, a: Id) returns (x: Node)
    requires a in w.nodes && a in dir && forall s: Slot :: Claims(w, a, s) ==> s < w.n
    ensures fresh(x) && x.ID == a && ReadFrom(w, dir, x)
  {
    var slots := ReadSlots(w, a);
    var replica := a in w.replicaOf;
    x := new Node(a, dir[a].ip, dir[a].machine, dir[a].statefulSet, if replica then SlaveRole else MasterRole,
                  if replica then w.replicaOf[a] else NOBODY, slots);
  }

  method ReadNodes(w: World, dir: Directory) returns (ns: seq<Node>, cluster: map<Id, Node>)
    requires Known(w, dir) && Healthy(w) && forall a :: a in w.replicaOf ==> ServesNothing(w, a)
    ensures forall i :: 0 <= i < |ns| ==> fresh(ns[i])
    ensures Fresh(w, cluster, ns) && Lists(w, dir, cluster, ns)
  {
    ns, cluster := [], map[];
    var rest := w.nodes;
    while rest != {}
      invariant rest <= w.nodes && cluster.Keys == w.nodes - rest
      invariant forall x :: x in ns ==> fresh(x) && ReadFrom(w, dir, x) && x.ID !in rest && x.ID in cluster && cluster[x.ID] == x
      invariant forall a :: a in cluster ==> cluster[a] in ns && cluster[a].ID == a
      invariant NoDup(ns) && forall i :: 0 <= i < |ns| ==> fresh(ns[i])
      decreases rest
    {
      var a :| a in rest;
      HealthyClaims(w, a);
      var x := ReadNode(w, dir, a);
      assert x !in ns;
      ns, cluster, rest := ns + [x], cluster[a := x], rest - {a};
    }
    forall i, j | 0 <= i < j < |ns| ensures ns[i].IP != ns[j].IP {
      assert ns[i] in ns && ns[j] in ns && ns[i] != ns[j];
    }
    forall x | x in ns && x.ID in w.replicaOf ensures x.Slots == [] {
      if x.Slots != [] {
        ListedIsServed(w, x.ID, x.Slots);
        assert false;
      }
    }
  }

  lemma HealthyClaims(w: World, a: Id)
    requires Healthy(w) && a != NOBODY
    ensures forall s: Slot :: Claims(w, a, s) ==> s < w.n
  {
  }

  // ---------- what one reconciliation knows ----------

  ghost predicate HoldersServe(w: World, ns: seq<Node>, holders: set<Node>) {
    forall x :: x in ns ==> (x in holders <==> Serving(w, x.ID))
  }

  lemma HoldersAreServing(w: World, dir: Directory, cluster: map<Id, Node>, ns: seq<Node>, holders: set<Node>)
    requires Fresh(w, cluster, ns) && SlotHolders(holders, ns) && forall a :: a in w.replicaOf ==> ServesNothing(w, a)
    ensures HoldersServe(w, ns, holders)
  {
    forall x | x in ns ensures x in holders <==> Serving(w, x.ID) {
      assert Truthful(w, x.ID, x.Slots);
      if x.Slots != [] {
        ListedIsServed(w, x.ID, x.Slots);
      }
      if s: Slot :| Claims(w, x.ID, s) {
        assert s in x.Slots;
      }
    }
  }

  lemma NewSetsEmpty(w: World, dir: Directory, cluster: map<Id, Node>, ns: seq<Node>, holders: set<Node>)
    requires Known(w, dir) && ReplicasApart(w, dir) && Lists(w, dir, cluster, ns) && HoldersServe(w, ns, holders)
    ensures NewSetsAreEmpty(w, cluster, ns, holders)
  {
    forall x | x in ns && x.ID in w.replicaOf
      ensures exists y :: y in ns && y in holders && StatefulSetOf(cluster, y) == StatefulSetOf(cluster, x)
    {
      var b :| b in w.nodes && Serving(w, b) && SetOf(dir, b) == SetOf(dir, x.ID);
      assert cluster[b] in ns && cluster[b] in holders;
    }
  }

  /** The holders of the first i StatefulSets. */
  ghost function HoldersOf(cluster: map<Id, Node>, ns: seq<Node>, holders: set<Node>, clusterName: string, i: nat): set<Node>
    requires forall x :: x in ns ==> x.ID in cluster
  {
    set x | x in ns && x in holders && InSets(cluster, x, clusterName, 0, i)
  }

  /** One StatefulSet more or less. */
  lemma InNextSet(cluster: map<Id, Node>, x: Node, clusterName: string, i: nat)
    requires x.ID in cluster
    ensures InSets(cluster, x, clusterName, 0, i + 1) <==>
              InSets(cluster, x, clusterName, 0, i) || StatefulSetOf(cluster, x) == ClusterStatefulSetName(clusterName, i)
    ensures StatefulSetOf(cluster, x) == ClusterStatefulSetName(clusterName, i) ==> !InSets(cluster, x, clusterName, 0, i)
  {
    forall j | 0 <= j < i ensures ClusterStatefulSetName(clusterName, j) != ClusterStatefulSetName(clusterName, i) {
      NamesDiffer(clusterName, i, j);
    }
  }

  lemma NextHolder(w: World, dir: Directory, clusterName: string, h: nat, cluster: map<Id, Node>, ns: seq<Node>, holders: set<Node>, i: nat)
    requires Known(w, dir) && HoldersFirst(w, dir, clusterName, h) && Lists(w, dir, cluster, ns) && HoldersServe(w, ns, holders) && i < h
    ensures |HoldersOf(cluster, ns, holders, clusterName, i + 1)| == |HoldersOf(cluster, ns, holders, clusterName, i)| + 1
  {
    var name := ClusterStatefulSetName(clusterName, i);
    assert ServedSet(w, dir, name);
    var b :| b in w.nodes && Serving(w, b) && SetOf(dir, b) == name;
    var y, before := cluster[b], HoldersOf(cluster, ns, holders, clusterName, i);
    InNextSet(cluster, y, clusterName, i);
    forall x | x in ns && x in holders
      ensures InSets(cluster, x, clusterName, 0, i + 1) <==> InSets(cluster, x, clusterName, 0, i) || x == y
    {
      InNextSet(cluster, x, clusterName, i);
      assert StatefulSetOf(cluster, x) == name ==> x.ID == b;
    }
    assert HoldersOf(cluster, ns, holders, clusterName, i + 1) == before + {y};
  }

  lemma NoHolders(cluster: map<Id, Node>, ns: seq<Node>, holders: set<Node>, clusterName: string)
    requires forall x :: x in ns ==> x.ID in cluster
    ensures |HoldersOf(cluster, ns, holders, clusterName, 0)| == 0
  {
    assert HoldersOf(cluster, ns, holders, clusterName, 0) == {};
  }

  lemma {:induction false} FirstHolders(w: World, dir: Directory, clusterName: string, h: nat, cluster: map<Id, Node>, ns: seq<Node>,
                                        holders: set<Node>, i: nat)
    requires Known(w, dir) && HoldersFirst(w, dir, clusterName, h) && Lists(w, dir, cluster, ns) && HoldersServe(w, ns, holders) && i <= h
    ensures |HoldersOf(cluster, ns, holders, clusterName, i)| == i
  {
    NoHolders(cluster, ns, holders, clusterName);
    if i > 0 {
      var j: nat := i - 1;
      FirstHolders(w, dir, clusterName, h, cluster, ns, holders, j);
      NextHolder(w, dir, clusterName, h, cluster, ns, holders, j);
      assert j + 1 == i;
    }
  }

  lemma HoldersCounted(w: World, dir: Directory, clusterName: string, h: nat, cluster: map<Id, Node>, ns: seq<Node>, holders: set<Node>)
    requires Known(w, dir) && HoldersFirst(w, dir, clusterName, h) && Lists(w, dir, cluster, ns) && HoldersServe(w, ns, holders)
    requires forall x :: x in holders ==> x in ns
    ensures |holders| == h
  {
    FirstHolders(w, dir, clusterName, h, cluster, ns, holders, h);
    forall x | x in holders ensures InSets(cluster, x, clusterName, 0, h) {
      assert Serving(w, x.ID);
    }
    assert HoldersOf(cluster, ns, holders, clusterName, h) == holders;
  }

  // ---------- what one reconciliation leaves behind ----------

  /** Exactly the nodes of news serve. */
  ghost predicate NewsServe(w: World, news: seq<Node>) {
    && (forall x :: x in news ==> x.ID in w.nodes && Serving(w, x.ID))
    && (forall b :: b in w.nodes && Serving(w, b) ==> exists x :: x in news && x.ID == b)
  }

  lemma NewsAreFirst(w: World, w': World, dir: Directory, clusterName: string, cluster: map<Id, Node>, ns: seq<Node>, news: seq<Node>)
    requires Known(w, dir) && Lists(w, dir, cluster, ns) && OneOfEach(cluster, ns, news, clusterName)
    requires NewsServe(w', news) && w'.nodes <= w.nodes
    ensures Known(w', dir) && HoldersFirst(w', dir, clusterName, |news|)
  {
    forall b | b in w'.nodes && Serving(w', b) ensures exists i :: 0 <= i < |news| && SetOf(dir, b) == ClusterStatefulSetName(clusterName, i) {
      var x :| x in news && x.ID == b;
      assert InSets(cluster, x, clusterName, 0, |news|);
    }
    forall i | 0 <= i < |news| ensures ServedSet(w', dir, ClusterStatefulSetName(clusterName, i)) {
      var name := ClusterStatefulSetName(clusterName, i);
      var x :| x in news && x in ns && StatefulSetOf(cluster, x) == name;
      assert x.ID in w'.nodes && Serving(w', x.ID) && SetOf(dir, x.ID) == name;
    }
    forall b, c | b in w'.nodes && c in w'.nodes && Serving(w', b) && Serving(w', c) && SetOf(dir, b) == SetOf(dir, c) ensures b == c {
      var x :| x in news && x.ID == b;
      var y :| y in news && y.ID == c;
      assert x in ns && y in ns;
    }
  }

  lemma NewsServeAlone(w: World, news: seq<Node>, a: Id)
    requires NewsServe(w, news) && MastersAre(w, news) && a in w.replicaOf
    ensures ServesNothing(w, a)
  {
    forall x | x in news ensures x.ID != a {
      var i :| 0 <= i < |news| && news[i] == x;
      assert IsMaster(w, news[i].ID);
    }
    assert (exists s: Slot :: Claims(w, a, s)) ==> a in w.nodes;
  }

  /** After an operation that attaches slaves. */
  lemma FollowersApart(w: World, w': World, dir: Directory, cluster: map<Id, Node>, ns: seq<Node>, news: seq<Node>)
    requires Known(w, dir) && Lists(w, dir, cluster, ns) && w'.nodes == w.nodes && forall x :: x in news ==> x in ns
    requires NewsServe(w', news) && MastersAre(w', news) && Follows(w', cluster, ns, news)
    ensures Known(w', dir) && ReplicasApart(w', dir)
  {
    forall a | a in w'.replicaOf ensures ServesNothing(w', a) {
      NewsServeAlone(w', news, a);
    }
    forall a | a in w'.nodes && a in w'.replicaOf ensures exists b :: b in w'.nodes && Serving(w', b) && SetOf(dir, b) == SetOf(dir, a) {
      var x := cluster[a];
      forall i | 0 <= i < |news| ensures news[i] != x {
        assert IsMaster(w', news[i].ID);
      }
      var y :| y in news && y in ns && StatefulSetOf(cluster, y) == StatefulSetOf(cluster, x) && w'.replicaOf[x.ID] == y.ID;
      assert Serving(w', y.ID);
    }
  }

  lemma CreatedServe(w: World, w': World, news: seq<Node>)
    requires Created(w, w', news) && 0 < |news| <= w.n && forall x :: x in news ==> x.ID in w.nodes
    ensures NewsServe(w', news)
  {
    var n, m := w'.n, |news|;
    AllocSlots.BoundEnds(n, m);
    forall x | x in news ensures Serving(w', x.ID) {
      var i :| 0 <= i < m && news[i] == x;
      AllocSlots.BoundsAscend(n, m, 0, i);
      AllocSlots.BoundsAscend(n, m, i, i + 1);
      AllocSlots.BoundsAscend(n, m, i + 1, m);
      var s: Slot := AllocSlots.Bound(n, m, i);
      assert AllocSlots.InRange(n, m, i, s);
      assert Claims(w', news[i].ID, s);
    }
    forall b | b in w'.nodes && Serving(w', b) ensures exists x :: x in news && x.ID == b {
      var s: Slot :| Claims(w', b, s);
      var k := AllocSlots.RangeOfSlot(n, m, m, s);
      assert Claims(w', news[k].ID, s);
      assert news[k] in news;
    }
  }

  /** If nothing is unexpected, all holders are among news. */
  lemma HoldersInNews(cluster: map<Id, Node>, ns: seq<Node>, holders: set<Node>, news: seq<Node>, clusterName: string, x: Node)
    requires (forall y :: y in ns ==> y.ID in cluster) && OnePerSet(cluster, ns, holders, news, clusterName)
    requires NothingUnexpected(cluster, ns, clusterName, |news|) && x in ns && x in holders
    ensures x in news
  {
  }

  lemma LevelledServe(w: World, w': World, dir: Directory, clusterName: string, cluster: map<Id, Node>, ns: seq<Node>, holders: set<Node>,
                      news: seq<Node>, counts: seq<int>)
    requires Known(w, dir) && Lists(w, dir, cluster, ns) && HoldersServe(w, ns, holders) && OnePerSet(cluster, ns, holders, news, clusterName)
    requires NothingUnexpected(cluster, ns, clusterName, |news|) && 0 < |news| <= w'.n && |counts| == |news|
    requires FairlyServed(w', news, counts) && NobodyElseChanged(w, w', news)
    ensures NewsServe(w', news)
  {
    forall x | x in news ensures Serving(w', x.ID) {
      var i :| 0 <= i < |news| && news[i] == x;
      FairAtLeastOne(counts, w'.n, i);
      assert Owned(w', news[i].ID) != {};
      var s :| s in Owned(w', news[i].ID);
    }
    forall b | b in w'.nodes && Serving(w', b) ensures exists x :: x in news && x.ID == b {
      var s: Slot :| Claims(w', b, s);
      if Claims(w, b, s) {
        assert Serving(w, b);
        HoldersInNews(cluster, ns, holders, news, clusterName, cluster[b]);
      } else {
        var j :| 0 <= j < |news| && b == news[j].ID;
        assert news[j] in news;
      }
    }
  }

  lemma FairAtLeastOne(counts: seq<int>, n: nat, i: nat)
    requires i < |counts| <= n
    ensures Rebalance.FairCount(counts, n, i) >= 1
  {
    Rebalance.FairCountIs(counts, n, i);
    assert n / |counts| >= 1;
  }

  /** As long as there are at least as many holders as masters, all masters are holders. */
  lemma NewsAreHolders(w: World, dir: Directory, clusterName: string, h: nat, cluster: map<Id, Node>, ns: seq<Node>, holders: set<Node>,
                       news: seq<Node>, x: Node)
    requires Known(w, dir) && HoldersFirst(w, dir, clusterName, h) && Lists(w, dir, cluster, ns) && HoldersServe(w, ns, holders)
    requires OnePerSet(cluster, ns, holders, news, clusterName) && |news| <= h && x in news
    ensures x in holders
  {
    assert InSets(cluster, x, clusterName, 0, |news|);
    var i :| 0 <= i < |news| && StatefulSetOf(cluster, x) == ClusterStatefulSetName(clusterName, i);
    assert ServedSet(w, dir, ClusterStatefulSetName(clusterName, i));
    var b :| b in w.nodes && Serving(w, b) && SetOf(dir, b) == ClusterStatefulSetName(clusterName, i);
    var y := cluster[b];
    assert y in ns && y in holders && StatefulSetOf(cluster, y) == ClusterStatefulSetName(clusterName, i);
    assert InSets(cluster, y, clusterName, 0, |news|);
    assert y == x;
  }

  lemma SlavesServe(w: World, w': World, dir: Directory, clusterName: string, h: nat, cluster: map<Id, Node>, ns: seq<Node>, holders: set<Node>,
                    news: seq<Node>)
    requires Known(w, dir) && HoldersFirst(w, dir, clusterName, h) && Lists(w, dir, cluster, ns) && HoldersServe(w, ns, holders)
    requires OnePerSet(cluster, ns, holders, news, clusterName) && |news| <= h && NothingUnexpected(cluster, ns, clusterName, |news|)
    requires w' == w.(replicaOf := w'.replicaOf)
    ensures NewsServe(w', news)
  {
    assert forall b, s: Slot :: Claims(w', b, s) <==> Claims(w, b, s);
    forall x | x in news ensures Serving(w', x.ID) {
      NewsAreHolders(w, dir, clusterName, h, cluster, ns, holders, news, x);
      var s: Slot :| Claims(w, x.ID, s);
      assert Claims(w', x.ID, s);
    }
    forall b | b in w'.nodes && Serving(w', b) ensures exists x :: x in news && x.ID == b {
      var s: Slot :| Claims(w', b, s);
      assert Claims(w, b, s);
      HoldersInNews(cluster, ns, holders, news, clusterName, cluster[b]);
    }
  }

  lemma RemainingServe(w: World, w': World, dir: Directory, clusterName: string, h: nat, cluster: map<Id, Node>, ns: seq<Node>,
                       holders: set<Node>, news: seq<Node>, lists: seq<seq<Slot>>)
    requires Known(w, dir) && HoldersFirst(w, dir, clusterName, h) && Lists(w, dir, cluster, ns) && HoldersServe(w, ns, holders)
    requires OnePerSet(cluster, ns, holders, news, clusterName) && |news| <= h && |lists| == |news|
    requires forall i :: 0 <= i < |news| && news[i] in holders ==> lists[i] != []
    requires forall i :: 0 <= i < |news| && lists[i] != [] ==> Serving(w', news[i].ID)
    requires ServedByNews(w', news) && MastersAre(w', news)
    ensures NewsServe(w', news)
  {
    forall x | x in news ensures x.ID in w'.nodes && Serving(w', x.ID) {
      var i :| 0 <= i < |news| && news[i] == x;
      NewsAreHolders(w, dir, clusterName, h, cluster, ns, holders, news, x);
      assert IsMaster(w', news[i].ID);
    }
    forall b | b in w'.nodes && Serving(w', b) ensures exists x :: x in news && x.ID == b {
      var s: Slot :| Claims(w', b, s);
      var i :| 0 <= i < |news| && news[i].ID == b;
      assert news[i] in news;
    }
  }

  lemma InRemoved(w: World, dir: Directory, clusterName: string, cluster: map<Id, Node>, ns: seq<Node>, lo: nat, hi: nat, a: Id, i: nat)
    requires Known(w, dir) && Lists(w, dir, cluster, ns) && a in w.nodes && SetOf(dir, a) == ClusterStatefulSetName(clusterName, i)
    ensures lo <= i < hi ==> a in IdsOf(NodesInSets(cluster, ns, clusterName, lo, hi))
  {
    if lo <= i < hi {
      assert StatefulSetOf(cluster, cluster[a]) == ClusterStatefulSetName(clusterName, i);
      assert InSets(cluster, cluster[a], clusterName, lo, hi);
      assert cluster[a] in NodesInSets(cluster, ns, clusterName, lo, hi);
    }
  }

  /** After scaling down: replicas of removed StatefulSets have left with them. */
  lemma RemainingApart(w: World, w': World, dir: Directory, clusterName: string, h: nat, cluster: map<Id, Node>, ns: seq<Node>,
                       holders: set<Node>, news: seq<Node>)
    requires Known(w, dir) && HoldersFirst(w, dir, clusterName, h) && ReplicasApart(w, dir) && Lists(w, dir, cluster, ns)
    requires HoldersServe(w, ns, holders) && OnePerSet(cluster, ns, holders, news, clusterName)
    requires NewsServe(w', news) && MastersAre(w', news) && w'.replicaOf.Keys <= w.replicaOf.Keys
    requires w'.nodes == w.nodes - IdsOf(NodesInSets(cluster, ns, clusterName, |news|, h))
    ensures Known(w', dir) && ReplicasApart(w', dir)
  {
    forall a | a in w'.replicaOf ensures ServesNothing(w', a) {
      NewsServeAlone(w', news, a);
    }
    forall a | a in w'.nodes && a in w'.replicaOf ensures exists b :: b in w'.nodes && Serving(w', b) && SetOf(dir, b) == SetOf(dir, a) {
      var b :| b in w.nodes && Serving(w, b) && SetOf(dir, b) == SetOf(dir, a);
      var i :| 0 <= i < h && SetOf(dir, b) == ClusterStatefulSetName(clusterName, i);
      assert StatefulSetOf(cluster, cluster[a]) == ClusterStatefulSetName(clusterName, i);
      InRemoved(w, dir, clusterName, cluster, ns, |news|, h, a, i);
      assert cluster[b] in holders && InSets(cluster, cluster[b], clusterName, 0, |news|);
      assert cluster[b] in news && Serving(w', cluster[b].ID);
    }
  }

  /** What a successful reconciliation of an orderly world has to go on. */
  ghost predicate Informed(w: World, dir: Directory, clusterName: string, h: nat, cluster: map<Id, Node>, ns: seq<Node>, holders: set<Node>,
                           news: seq<Node>, lists: seq<seq<Slot>>)
  {
    && Known(w, dir) && ReplicasApart(w, dir) && HoldersFirst(w, dir, clusterName, h)
    && Lists(w, dir, cluster, ns) && HoldersServe(w, ns, holders) && |holders| == h
    && OnePerSet(cluster, ns, holders, news, clusterName) && 0 < |news| <= w.n
    && |lists| == |news| && forall i :: 0 <= i < |news| && news[i] in holders ==> lists[i] != []
  }

  lemma NewsInWorld(w: World, dir: Directory, clusterName: string, h: nat, cluster: map<Id, Node>, ns: seq<Node>, holders: set<Node>,
                    news: seq<Node>, lists: seq<seq<Slot>>)
    requires Informed(w, dir, clusterName, h, cluster, ns, holders, news, lists)
    ensures forall x :: x in news ==> x in ns && x.ID in w.nodes
  {
  }

  /** Every operation leaves exactly the expected masters serving, and the world orderly. */
  lemma StaysOrderly(op: Operation, w: World, w': World, hist: seq<World>, from: nat, dir: Directory, clusterName: string, h: nat,
                     cluster: map<Id, Node>, ns: seq<Node>, holders: set<Node>, news: seq<Node>, lists: seq<seq<Slot>>, tooFewReplicas: bool)
    requires Informed(w, dir, clusterName, h, cluster, ns, holders, news, lists) && op != Nothing
    requires CallsFor(h, |news|, tooFewReplicas, op) && !WillPanic(cluster, ns, holders, |news|, clusterName, tooFewReplicas)
    requires Achieved(op, w, w', hist, from, news, lists, NodesInSets(cluster, ns, clusterName, |news|, h))
    requires Attaches(op) ==> Follows(w', cluster, ns, news)
    ensures NewsServe(w', news) && Orderly(w', dir, clusterName)
  {
    NewsInWorld(w, dir, clusterName, h, cluster, ns, holders, news, lists);
    match op {
      case Creating =>
        CreatedServe(w, w', news);
      case ScalingUp =>
        LevelledServe(w, w', dir, clusterName, cluster, ns, holders, news, Lengths(lists));
      case ScalingSlaves =>
        SlavesServe(w, w', dir, clusterName, h, cluster, ns, holders, news);
      case ScalingDown =>
        RemainingServe(w, w', dir, clusterName, h, cluster, ns, holders, news, lists);
    }
    NewsAreFirst(w, w', dir, clusterName, cluster, ns, news);
    if op == ScalingDown {
      RemainingApart(w, w', dir, clusterName, h, cluster, ns, holders, news);
    } else {
      FollowersApart(w, w', dir, cluster, ns, news);
    }
  }

  // ---------- one reconciliation of an orderly world ----------

  /**
   * A reconciliation with a fresh reading. It is done unless the masters cannot be decided or
   * slaves would have to be attached where there is no master; then exactly one node of each
   * of the first masterSize StatefulSets serves slots. The world stays orderly in any case.
   */
  method ReconcileFresh(admin: Admin, dir: Directory, clusterName: string, masterSize: nat, tooFewReplicas: bool) returns (r: SyncResult)
    requires admin.reliable && Orderly(admin.world, dir, clusterName)
    requires 0 < masterSize <= admin.world.n && 2 * admin.world.n < MAX_SLOT
    modifies admin
    ensures old(admin.hist) <= admin.hist && admin.world.n == old(admin.world).n && admin.world.nodes <= old(admin.world).nodes
    ensures Orderly(admin.world, dir, clusterName)
    ensures r.Done? || r.Undecided? || r == Panicked
    ensures r.Done? ==> HoldersFirst(admin.world, dir, clusterName, masterSize)
    ensures !r.Done? ==> admin.world == old(admin.world)
    ensures Sound(old(admin.world)) ==> Kept(old(admin.world), admin.world, admin.hist, |old(admin.hist)|)
    ensures AllocSlots.Blank(old(admin.world)) ==> admin.world == old(admin.world) || (Sound(admin.world) && admin.world.data == old(admin.world).data)
  {
    ghost var w, from := admin.world, |admin.hist|;
    ghost var h: nat :| HoldersFirst(w, dir, clusterName, h);
    var ns, cluster := ReadNodes(admin.world, dir);
    ghost var holders := set x | x in ns && x.IsMasterWithSlot();
    RoundBegins(w, dir, clusterName, h, cluster, ns, holders);
    ghost var news, lists, removed;
    r, news, lists, removed := SyncCluster(admin, cluster, ns, masterSize, clusterName, tooFewReplicas, holders);
    if r.Done? {
      RoundEnds(r, w, admin.world, admin.hist, from, dir, clusterName, h, cluster, ns, holders, news, lists, tooFewReplicas);
    } else if Sound(w) {
      SameContentsIntact(w, w);
    }
  }

  lemma RoundBegins(w: World, dir: Directory, clusterName: string, h: nat, cluster: map<Id, Node>, ns: seq<Node>, holders: set<Node>)
    requires Known(w, dir) && ReplicasApart(w, dir) && HoldersFirst(w, dir, clusterName, h)
    requires Fresh(w, cluster, ns) && Lists(w, dir, cluster, ns) && SlotHolders(holders, ns)
    ensures HoldersServe(w, ns, holders) && NewSetsAreEmpty(w, cluster, ns, holders) && |holders| == h
    ensures forall x :: x in holders ==> x.Slots != []
  {
    HoldersAreServing(w, dir, cluster, ns, holders);
    NewSetsEmpty(w, dir, cluster, ns, holders);
    HoldersCounted(w, dir, clusterName, h, cluster, ns, holders);
  }

  lemma RoundEnds(r: SyncResult, w: World, w': World, hist: seq<World>, from: nat, dir: Directory, clusterName: string, h: nat,
                  cluster: map<Id, Node>, ns: seq<Node>, holders: set<Node>, news: seq<Node>, lists: seq<seq<Slot>>, tooFewReplicas: bool)
    requires Known(w, dir) && ReplicasApart(w, dir) && HoldersFirst(w, dir, clusterName, h) && Healthy(w) && r.Done?
    requires Lists(w, dir, cluster, ns) && HoldersServe(w, ns, holders) && |holders| == h
    requires OnePerSet(cluster, ns, holders, news, clusterName) && 0 < |news| <= w.n
    requires |lists| == |news| && forall i :: 0 <= i < |news| && news[i] in holders ==> lists[i] != []
    requires CallsFor(h, |news|, tooFewReplicas, r.op) && !WillPanic(cluster, ns, holders, |news|, clusterName, tooFewReplicas)
    requires Succeeded(r, w, w', hist, from, cluster, ns, news, lists, NodesInSets(cluster, ns, clusterName, |news|, h))
    requires if r.op == Creating then AllocSlots.Blank(w) else Sound(w)
    ensures Orderly(w', dir, clusterName) && HoldersFirst(w', dir, clusterName, |news|) && w'.n == w.n && w'.nodes <= w.nodes
    ensures Sound(w) ==> Kept(w, w', hist, from)
    ensures AllocSlots.Blank(w) ==> Sound(w') && w'.data == w.data
  {
    BlankIsNotSound(w);
    if r.op != Nothing {
      StaysOrderly(r.op, w, w', hist, from, dir, clusterName, h, cluster, ns, holders, news, lists, tooFewReplicas);
      NewsAreFirst(w, w', dir, clusterName, cluster, ns, news);
    }
  }

  lemma BlankIsNotSound(w: World)
    requires w.n > 0
    ensures !(AllocSlots.Blank(w) && Sound(w))
  {
    if AllocSlots.Blank(w) {
      assert forall a :: !Claims(w, a, 0);
      assert !Served(w, 0);
    }
  }

  // ---------- pods that join, and clients that write ----------

  function JoinWorld(w: World, a: Id): World {
    World(w.n, w.nodes + {a},
          map p | p in w.view && p.0 != a :: w.view[p],
          map p | p in w.data && p.0 != a :: w.data[p],
          map p | p in w.importing && p.0 != a :: w.importing[p],
          map p | p in w.migrating && p.0 != a :: w.migrating[p],
          w.replicaOf - {a})
  }

  /** A pod brings a new id and an address of its own. */
  predicate CanJoin(w: World, dir: Directory, a: Id, pod: Pod) {
    a !in w.nodes && a != NOBODY && a != "-" && forall b :: b in w.nodes ==> b in dir && dir[b].ip != pod.ip
  }

  lemma JoinedClaims(w: World, a: Id)
    requires a !in w.nodes && a != NOBODY
    ensures forall x, s: Slot :: Claims(JoinWorld(w, a), x, s) <==> Claims(w, x, s)
    ensures forall x, s: Slot :: Data(JoinWorld(w, a), x, s) == if x == a then map[] else Data(w, x, s)
    ensures forall x, s: Slot :: View(JoinWorld(w, a), x, s) == if x == a then NOBODY else View(w, x, s)
  {
  }

  lemma JoiningKeepsContents(w: World, a: Id)
    requires a !in w.nodes && a != NOBODY
    ensures Sound(w) ==> SameContents(w, JoinWorld(w, a))
    ensures AllocSlots.Blank(w) ==> AllocSlots.Blank(JoinWorld(w, a))
  {
    var w' := JoinWorld(w, a);
    JoinedClaims(w, a);
    if Sound(w) {
      forall s: Slot | s < w.n ensures Served(w', s) && Owner(w, s) != a {
        assert Claims(w', Owner(w, s), s);
      }
      assert Sound(w');
      forall s: Slot | s < w.n ensures Owner(w', s) == Owner(w, s) {
        OwnerIs(w', Owner(w, s), s);
      }
    }
  }

  /** The nodes that serve, their StatefulSets and the replicas are the same in both worlds. */
  lemma OrderlyAlike(w: World, dir: Directory, w': World, dir': Directory, clusterName: string)
    requires Orderly(w, dir, clusterName) && Healthy(w') && Known(w', dir') && w.nodes <= w'.nodes
    requires forall x, s: Slot :: Claims(w', x, s) <==> Claims(w, x, s)
    requires forall b :: b in w.nodes ==> SetOf(dir', b) == SetOf(dir, b)
    requires w'.replicaOf.Keys <= w.replicaOf.Keys && forall b :: b in w'.nodes && b in w'.replicaOf ==> b in w.nodes
    ensures Orderly(w', dir', clusterName)
  {
    var h: nat :| HoldersFirst(w, dir, clusterName, h);
    forall b ensures Serving(w', b) <==> Serving(w, b) {
    }
    forall b | Serving(w, b) ensures b in w.nodes {
      var s: Slot :| Claims(w, b, s);
    }
    forall i | 0 <= i < h ensures ServedSet(w', dir', ClusterStatefulSetName(clusterName, i)) {
      var name := ClusterStatefulSetName(clusterName, i);
      assert ServedSet(w, dir, name);
      var b :| b in w.nodes && Serving(w, b) && SetOf(dir, b) == name;
      assert b in w'.nodes && Serving(w', b) && SetOf(dir', b) == name;
    }
    assert HoldersFirst(w', dir', clusterName, h);
    forall a | a in w'.nodes && a in w'.replicaOf ensures exists b :: b in w'.nodes && Serving(w', b) && SetOf(dir', b) == SetOf(dir', a) {
      var b :| b in w.nodes && Serving(w, b) && SetOf(dir, b) == SetOf(dir, a);
      assert b in w'.nodes && Serving(w', b);
    }
  }

  lemma JoiningIsOrderly(w: World, dir: Directory, clusterName: string, a: Id, pod: Pod)
    requires Orderly(w, dir, clusterName) && CanJoin(w, dir, a, pod)
    ensures Orderly(JoinWorld(w, a), dir[a := pod], clusterName)
  {
    JoinedClaims(w, a);
    JoiningKeepsContents(w, a);
    OrderlyAlike(w, dir, JoinWorld(w, a), dir[a := pod], clusterName);
  }

  function WriteWorld(w: World, a: Id, s: Slot, k: Key, v: Value): World {
    w.(data := w.data[(a, s) := Data(w, a, s)[k := v]])
  }

  /** The contents of slot s, wherever it is served. */
  ghost function Stored(w: World, s: Slot): Contents
    requires Sound(w) && s < w.n
  {
    Data(w, Owner(w, s), s)
  }

  /** A write reaches the store, in its slot and nowhere else, and changes no owner. */
  lemma WritingStores(w: World, a: Id, s: Slot, k: Key, v: Value)
    requires Sound(w) && Claims(w, a, s)
    ensures var w' := WriteWorld(w, a, s, k, v);
            Sound(w') && forall t: Slot :: t < w.n ==> Stored(w', t) == if t == s then Stored(w, s)[k := v] else Stored(w, t)
  {
    var w' := WriteWorld(w, a, s, k, v);
    assert forall x, t: Slot :: Claims(w', x, t) <==> Claims(w, x, t);
    assert forall x, t: Slot :: Data(w', x, t) == if x == a && t == s then Data(w, a, s)[k := v] else Data(w, x, t);
    forall t: Slot | t < w.n ensures Served(w', t) {
      assert Claims(w', Owner(w, t), t);
    }
    assert Sound(w');
    OwnerIs(w, a, s);
    forall t: Slot | t < w.n ensures Owner(w', t) == Owner(w, t) {
      OwnerIs(w', Owner(w, t), t);
    }
  }

  lemma WritingIsOrderly(w: World, dir: Directory, clusterName: string, a: Id, s: Slot, k: Key, v: Value)
    requires Orderly(w, dir, clusterName) && Claims(w, a, s)
    ensures Orderly(WriteWorld(w, a, s, k, v), dir, clusterName) && Sound(w)
  {
    var w' := WriteWorld(w, a, s, k, v);
    assert View(w, a, s) == a != NOBODY;
    assert Sound(w);
    WritingStores(w, a, s, k, v);
    assert forall x, t: Slot :: Claims(w', x, t) <==> Claims(w, x, t);
    OrderlyAlike(w, dir, w', dir, clusterName);
  }

  // ---------- runs ----------

  datatype Request =
    | Reconcile(masterSize: nat, tooFewReplicas: bool)
    | Join(id: Id, pod: Pod)
    | Write(at: Id, slot: Slot, key: Key, value: Value)

  /** What a request may do to the cluster: only a write that reaches the slot's owner changes what is stored. */
  ghost predicate Answered(q: Request, w: World, w': World) {
    && Healthy(w') && w'.n == w.n
    && match q
       case Write(a, s, k, v) => w' == if Claims(w, a, s) then WriteWorld(w, a, s, k, v) else w
       case _ =>
         && (Sound(w) ==> SameContents(w, w'))
         && (AllocSlots.Blank(w) ==> AllocSlots.Blank(w') || (Sound(w') && w'.data == w.data))
  }

  /** At every moment between w and the next world nothing that w has is missing; a write takes one step. */
  ghost predicate OnTheWay(q: Request, w: World, h: World) {
    if q.Write? then h == WriteWorld(w, q.at, q.slot, q.key, q.value) else Sound(w) ==> Intact(w, h)
  }

  /** The moments hist has recorded while the requests were answered: those of the i-th end at marks[i + 1]. */
  ghost predicate AlongTheWay(requests: seq<Request>, trace: seq<World>, marks: seq<nat>, hist: seq<World>, k: nat)
    requires k <= |requests| && k < |trace| && k < |marks|
  {
    && marks[k] == |hist| && (forall i :: 0 <= i < k ==> marks[i] <= marks[i + 1])
    && forall i, j :: 0 <= i < k && marks[i] <= j < marks[i + 1] && j < |hist| ==> OnTheWay(requests[i], trace[i], hist[j])
  }

  method Answer(admin: Admin, dir: Directory, clusterName: string, q: Request) returns (dir': Directory)
    requires admin.reliable && Orderly(admin.world, dir, clusterName) && 0 < admin.world.n && 2 * admin.world.n < MAX_SLOT
    modifies admin
    ensures old(admin.hist) <= admin.hist && Orderly(admin.world, dir', clusterName)
    ensures Answered(q, old(admin.world), admin.world)
    ensures forall j :: |old(admin.hist)| <= j < |admin.hist| ==> OnTheWay(q, old(admin.world), admin.hist[j])
  {
    dir' := dir;
    ghost var w := admin.world;
    BlankIsNotSound(w);
    if Sound(w) {
      SameContentsIntact(w, w);
    }
    match q {
      case Reconcile(masterSize, tooFewReplicas) =>
        if 0 < masterSize <= admin.world.n {
          var r := ReconcileFresh(admin, dir, clusterName, masterSize, tooFewReplicas);
        }
      case Join(a, pod) =>
        if CanJoin(admin.world, dir, a, pod) {
          JoiningIsOrderly(w, dir, clusterName, a, pod);
          JoiningKeepsContents(w, a);
          dir' := dir[a := pod];
          admin.world := JoinWorld(admin.world, a);
          admin.hist := admin.hist + [admin.world];
          if Sound(w) {
            SameContentsIntact(w, admin.world);
          }
        }
      case Write(a, s, k, v) =>
        if Claims(admin.world, a, s) {
          WritingIsOrderly(w, dir, clusterName, a, s, k, v);
          admin.world := WriteWorld(admin.world, a, s, k, v);
          admin.hist := admin.hist + [admin.world];
        }
    }
  }

  ghost predicate IsTrace(requests: seq<Request>, trace: seq<World>) {
    && |trace| == |requests| + 1 && Healthy(trace[0])
    && forall i :: 0 <= i < |requests| ==> Answered(requests[i], trace[i], trace[i + 1])
  }

  /** The store that clients believe in: what the first i requests have written to slot s. */
  ghost function Replay(requests: seq<Request>, trace: seq<World>, s: Slot, i: nat): Contents
    requires IsTrace(requests, trace) && i <= |requests|
  {
    if i == 0 then map[]
    else
      var q, before := requests[i - 1], Replay(requests, trace, s, i - 1);
      if q.Write? && q.slot == s && Claims(trace[i - 1], q.at, s) then before[q.key := q.value] else before
  }

  /** Once there is a cluster, every slot is served by exactly one node ever after. */
  lemma {:induction false} SoundForEver(requests: seq<Request>, trace: seq<World>, i: nat, j: nat)
    requires IsTrace(requests, trace) && trace[0].n > 0 && i <= j <= |requests| && Sound(trace[i])
    ensures Sound(trace[j]) && trace[j].n == trace[i].n
  {
    if i < j {
      SoundForEver(requests, trace, i, j - 1);
      var q := requests[j - 1];
      assert Answered(q, trace[j - 1], trace[j - 1 + 1]);
      if q.Write? && Claims(trace[j - 1], q.at, q.slot) {
        WritingStores(trace[j - 1], q.at, q.slot, q.key, q.value);
      }
    }
  }

  /** Until there is one, nothing is stored; from then on, exactly what was written. */
  ghost predicate StoresReplay(w: World, n: Slot, requests: seq<Request>, trace: seq<World>, i: nat)
    requires IsTrace(requests, trace) && i <= |requests|
  {
    && w.n == n
    && (AllocSlots.Blank(w) ==> forall s: Slot :: s < n ==> Replay(requests, trace, s, i) == map[])
    && (Sound(w) ==> forall s: Slot :: s < n ==> Stored(w, s) == Replay(requests, trace, s, i))
  }

  lemma ReplayStep(requests: seq<Request>, trace: seq<World>, i: nat)
    requires IsTrace(requests, trace) && trace[0].n > 0 && 0 < i <= |requests| && Healthy(trace[i - 1])
    requires StoresReplay(trace[i - 1], trace[0].n, requests, trace, i - 1)
    ensures StoresReplay(trace[i], trace[0].n, requests, trace, i)
  {
    var q, w, w', n := requests[i - 1], trace[i - 1], trace[i], trace[0].n;
    assert Answered(q, w, trace[i - 1 + 1]);
    BlankIsNotSound(w);
    BlankIsNotSound(w');
    if q.Write? && Claims(w, q.at, q.slot) {
      assert View(w, q.at, q.slot) == q.at != NOBODY;
      WritingStores(w, q.at, q.slot, q.key, q.value);
    }
    forall s: Slot | s < n && AllocSlots.Blank(w) && Sound(w') ensures Stored(w', s) == map[] {
      assert Data(w', Owner(w', s), s) == Data(w, Owner(w', s), s);
    }
  }

  lemma {:induction false} ReplayAll(requests: seq<Request>, trace: seq<World>, i: nat)
    requires IsTrace(requests, trace) && trace[0].n > 0 && AllocSlots.Blank(trace[0]) && i <= |requests|
    ensures Healthy(trace[i]) && StoresReplay(trace[i], trace[0].n, requests, trace, i)
  {
    BlankIsNotSound(trace[0]);
    if i > 0 {
      ReplayAll(requests, trace, i - 1);
      assert Answered(requests[i - 1], trace[i - 1], trace[i - 1 + 1]);
      ReplayStep(requests, trace, i);
    }
  }

  /**
   * Any run from a blank cluster. At every moment every slot is served and no key is missing,
   * once there is a cluster; there is one owner of each slot after every request; and what the
   * cluster stores is exactly what the clients' writes that reached an owner make of an empty
   * store.
   */
  method Run(admin: Admin, dir: Directory, clusterName: string, requests: seq<Request>) 
    returns (dir': Directory, ghost trace: seq<World>, ghost marks: seq<nat>)
    requires admin.reliable && Orderly(admin.world, dir, clusterName) && 0 < admin.world.n && 2 * admin.world.n < MAX_SLOT
    modifies admin
    ensures old(admin.hist) <= admin.hist && Orderly(admin.world, dir', clusterName)
    ensures IsTrace(requests, trace) && trace[0] == old(admin.world) && trace[|requests|] == admin.world
    ensures |marks| == |trace| && marks[0] == |old(admin.hist)| && AlongTheWay(requests, trace, marks, admin.hist, |requests|)
    ensures forall i, j :: 0 <= i <= j < |trace| && Sound(trace[i]) ==> Sound(trace[j])
    ensures AllocSlots.Blank(old(admin.world)) ==>
              forall i :: 0 <= i < |trace| ==> StoresReplay(trace[i], old(admin.world).n, requests, trace, i)
  {
    dir', trace, marks := dir, [admin.world], [|admin.hist|];
    for i := 0 to |requests|
      invariant old(admin.hist) <= admin.hist && Orderly(admin.world, dir', clusterName) && admin.world.n == old(admin.world).n
      invariant |marks| == |trace| == i + 1 && marks[0] == |old(admin.hist)| && AlongTheWay(requests, trace, marks, admin.hist, i)
      invariant trace[0] == old(admin.world) && trace[i] == admin.world
      invariant AnsweredUpTo(requests, trace, i)
    {
      ghost var before, marked, hist := trace, marks, admin.hist;
      dir' := Answer(admin, dir', clusterName, requests[i]);
      trace, marks := trace + [admin.world], marks + [|admin.hist|];
      AnsweredOneMore(requests, before, i, admin.world);
      FurtherAlong(requests, before, marked, hist, i, admin.world, admin.hist);
    }
    TraceFacts(requests, trace);
  }

  ghost predicate AnsweredUpTo(requests: seq<Request>, trace: seq<World>, i: nat)
    requires i <= |requests| && i < |trace|
  {
    forall k :: 0 <= k < i ==> Answered(requests[k], trace[k], trace[k + 1])
  }

  lemma AnsweredOneMore(requests: seq<Request>, trace: seq<World>, i: nat, w: World)
    requires i < |requests| && |trace| == i + 1 && AnsweredUpTo(requests, trace, i) && Answered(requests[i], trace[i], w)
    ensures AnsweredUpTo(requests, trace + [w], i + 1) && (trace + [w])[0] == trace[0]
  {
    var trace' := trace + [w];
    forall k | 0 <= k < i + 1 ensures Answered(requests[k], trace'[k], trace'[k + 1]) {
      assert trace'[k] == trace[k];
      assert k < i ==> trace'[k + 1] == trace[k + 1];
    }
  }

  lemma FurtherAlong(requests: seq<Request>, trace: seq<World>, marks: seq<nat>, hist: seq<World>, i: nat, w: World, hist': seq<World>)
    requires i < |requests| && |trace| == |marks| == i + 1 && AlongTheWay(requests, trace, marks, hist, i) && hist <= hist'
    requires forall j :: |hist| <= j < |hist'| ==> OnTheWay(requests[i], trace[i], hist'[j])
    ensures AlongTheWay(requests, trace + [w], marks + [|hist'|], hist', i + 1)
  {
    var trace', marks' := trace + [w], marks + [|hist'|];
    forall k, j | 0 <= k < i + 1 && marks'[k] <= j < marks'[k + 1] && j < |hist'| ensures OnTheWay(requests[k], trace'[k], hist'[j]) {
      if k < i {
        MarksAscend(marks, k + 1, i);
        assert marks'[k] == marks[k] && marks'[k + 1] == marks[k + 1] && hist'[j] == hist[j];
      }
    }
  }

  lemma {:induction false} MarksAscend(marks: seq<nat>, k: nat, i: nat)
    requires k <= i < |marks| && forall j :: 0 <= j < i ==> marks[j] <= marks[j + 1]
    ensures marks[k] <= marks[i]
  {
    if k < i {
      MarksAscend(marks, k, i - 1);
      assert marks[i - 1] <= marks[i - 1 + 1];
    }
  }

  lemma TraceFacts(requests: seq<Request>, trace: seq<World>)
    requires IsTrace(requests, trace) && trace[0].n > 0
    ensures forall i, j :: 0 <= i <= j < |trace| && Sound(trace[i]) ==> Sound(trace[j])
    ensures AllocSlots.Blank(trace[0]) ==> forall i :: 0 <= i < |trace| ==> StoresReplay(trace[i], trace[0].n, requests, trace, i)
  {
    forall i, j | 0 <= i <= j < |trace| && Sound(trace[i]) ensures Sound(trace[j]) {
      SoundForEver(requests, trace, i, j);
    }
    if AllocSlots.Blank(trace[0]) {
      forall i | 0 <= i < |trace| ensures StoresReplay(trace[i], trace[0].n, requests, trace, i) {
        ReplayAll(requests, trace, i);
      }
    }
  }
}
