/**
 * Choosing masters and slaves: pkg/controller/clustering/placement_v2.go and roles.go.
 */
module Placement {
  import opened Basics
  import opened Text
  import opened SlotLists
  import opened RedisWorld
  import opened Nodes
  import opened AdminClient

  const UNKNOWN_VM_NAME := "unknown"

  /** The name of the i-th StatefulSet of a cluster. */
  function ClusterStatefulSetName(clusterName: string, i: nat): string {
    "drc-" + clusterName + "-" + FormatUint(i)
  }

  lemma NamesDiffer(clusterName: string, i: nat, j: nat)
    requires i != j
    ensures ClusterStatefulSetName(clusterName, i) != ClusterStatefulSetName(clusterName, j)
  {
    FormatIsDecimal(i);
    FormatIsDecimal(j);
    var prefix := "drc-" + clusterName + "-";
    var a, b := ClusterStatefulSetName(clusterName, i), ClusterStatefulSetName(clusterName, j);
    assert a[|prefix|..] == FormatUint(i) && b[|prefix|..] == FormatUint(j);
  }

  datatype AttachOutcome = Attached | NoMaster | AttachFailed

  datatype Outcome = Placed | MissingStatefulSet(name: string) | SplitBrain(name: string)

  ghost predicate SeparateMachines(ns: seq<Node>) {
    forall i, j :: 0 <= i < j < |ns| ==> ns[i].NodeName != ns[j].NodeName
  }

  /** Slot-holding masters among ns. */
  method FilterMastersWithSlot(ns: seq<Node>) returns (r: seq<Node>)
    ensures forall x :: x in r <==> x in ns && x.IsMasterWithSlot()
    ensures NoDup(ns) ==> NoDup(r)
  {
    r := [];
    for i := 0 to |ns|
      invariant forall x :: x in r <==> x in ns[..i] && x.IsMasterWithSlot()
      invariant NoDup(ns) ==> NoDup(r)
    {
      assert ns[..i + 1] == ns[..i] + [ns[i]];
      if ns[i].IsMasterWithSlot() {
        r := r + [ns[i]];
      }
    }
    assert ns[..|ns|] == ns;
  }

  /** x belongs to the StatefulSet k. */
  ghost predicate Grouped(groups: map<string, seq<Node>>, k: string, x: Node) {
    k in groups && x in groups[k]
  }

  function StatefulSetOf(cluster: map<Id, Node>, x: Node): string
    requires x.ID in cluster
  {
    if cluster[x.ID].StatefulSet != "" then cluster[x.ID].StatefulSet else UNKNOWN_VM_NAME
  }

  /** groups sorts the known nodes of ns by StatefulSet. */
  ghost predicate SortsByStatefulSet(groups: map<string, seq<Node>>, cluster: map<Id, Node>, ns: seq<Node>) {
    && (forall k :: k in groups ==> groups[k] != [] && NoDup(groups[k]))
    && (forall k, x :: k in groups && x in groups[k] ==> x in ns && x.ID in cluster && StatefulSetOf(cluster, x) == k)
    && (forall x :: x in ns && x.ID in cluster ==> Grouped(groups, StatefulSetOf(cluster, x), x))
  }

  lemma GroupOneMore(groups: map<string, seq<Node>>, cluster: map<Id, Node>, ns: seq<Node>, x: Node)
    requires SortsByStatefulSet(groups, cluster, ns) && x !in ns
    ensures x.ID !in cluster ==> SortsByStatefulSet(groups, cluster, ns + [x])
    ensures x.ID in cluster ==>
              var k := StatefulSetOf(cluster, x);
              SortsByStatefulSet(groups[k := (if k in groups then groups[k] else []) + [x]], cluster, ns + [x])
  {
    if x.ID in cluster {
      var k := StatefulSetOf(cluster, x);
      var groups' := groups[k := (if k in groups then groups[k] else []) + [x]];
      forall y | y in ns + [x] && y.ID in cluster ensures Grouped(groups', StatefulSetOf(cluster, y), y) {
        assert y in ns ==> Grouped(groups, StatefulSetOf(cluster, y), y);
      }
    }
  }

  lemma GroupsDisjoint(groups: map<string, seq<Node>>, cluster: map<Id, Node>, ns: seq<Node>, k: string, l: string, x: Node)
    requires SortsByStatefulSet(groups, cluster, ns)
    requires k in groups && l in groups && x in groups[k] && x in groups[l]
    ensures k == l
  {
    assert StatefulSetOf(cluster, x) == k && StatefulSetOf(cluster, x) == l;
  }

  /** The nodes by StatefulSet, and the slot holders among them; nodes the cluster does not know are skipped. */
  method SortRedisNodeByStatefulSet(cluster: map<Id, Node>, ns: seq<Node>) returns (groups: map<string, seq<Node>>, holders: seq<Node>)
    requires NoDup(ns)
    ensures SortsByStatefulSet(groups, cluster, ns)
    ensures forall x :: x in holders <==> x in ns && x.ID in cluster && x.IsMasterWithSlot()
    ensures NoDup(holders)
  {
    groups, holders := map[], [];
    for i := 0 to |ns|
      invariant SortsByStatefulSet(groups, cluster, ns[..i])
      invariant forall x :: x in holders <==> x in ns[..i] && x.ID in cluster && x.IsMasterWithSlot()
      invariant NoDup(holders)
    {
      assert ns[..i + 1] == ns[..i] + [ns[i]];
      GroupOneMore(groups, cluster, ns[..i], ns[i]);
      var rNode := ns[i];
      if rNode.ID in cluster {
        var ssName := StatefulSetOf(cluster, rNode);
        groups := groups[ssName := (if ssName in groups then groups[ssName] else []) + [rNode]];
        if rNode.IsMasterWithSlot() {
          holders := holders + [rNode];
        }
      }
    }
    assert ns[..|ns|] == ns;
  }

  // ---------- what DispatchMasters is to choose ----------

  type Groups = map<string, seq<Node>>
  type Masters = map<string, Node>

  /** A StatefulSet the master of which can be decided: it exists and has at most one slot holder. */
  ghost predicate Decidable(groups: Groups, holders: seq<Node>, k: string) {
    k in groups && forall x, y :: x in groups[k] && y in groups[k] && x in holders && y in holders ==> x == y
  }

  /** The chosen master of k is one of its nodes; a slot holder of k is kept. */
  ghost predicate Chosen(groups: Groups, holders: seq<Node>, k: string, master: Node) {
    k in groups && master in groups[k] && forall x :: x in groups[k] && x in holders ==> x == master
  }

  /** Exactly the first i expected StatefulSets have a master. */
  ghost predicate ChosenUpTo(clusterName: string, groups: Groups, holders: seq<Node>, masters: Masters, i: nat) {
    && (forall j :: 0 <= j < i ==> ClusterStatefulSetName(clusterName, j) in masters)
    && (forall k :: k in masters ==> Chosen(groups, holders, k, masters[k]))
    && (forall k :: k in masters ==> exists j :: 0 <= j < i && k == ClusterStatefulSetName(clusterName, j))
  }

  /** A machine that carries a slot holder or a chosen master. */
  ghost predicate Taken(holders: seq<Node>, masters: Masters, machine: string) {
    || (exists i :: 0 <= i < |holders| && holders[i].NodeName == machine)
    || (exists k :: k in masters && masters[k].NodeName == machine)
  }

  /** No chosen master shares its machine with another chosen master or slot holder. */
  ghost predicate SpreadOut(holders: seq<Node>, masters: Masters) {
    && (forall k, l :: k in masters && l in masters && masters[k] != masters[l] ==> masters[k].NodeName != masters[l].NodeName)
    && (forall k, i :: k in masters && 0 <= i < |holders| && masters[k] != holders[i] ==> masters[k].NodeName != holders[i].NodeName)
  }

  lemma NotYetChosen(clusterName: string, groups: Groups, holders: seq<Node>, masters: Masters, i: nat)
    requires ChosenUpTo(clusterName, groups, holders, masters, i)
    ensures ClusterStatefulSetName(clusterName, i) !in masters
  {
    forall j | 0 <= j < i ensures ClusterStatefulSetName(clusterName, j) != ClusterStatefulSetName(clusterName, i) {
      NamesDiffer(clusterName, j, i);
    }
  }

  lemma ChosenAreDecidable(clusterName: string, groups: Groups, holders: seq<Node>, masters: Masters, i: nat)
    requires ChosenUpTo(clusterName, groups, holders, masters, i)
    ensures forall j :: 0 <= j < i ==> Decidable(groups, holders, ClusterStatefulSetName(clusterName, j))
  {
    forall j | 0 <= j < i ensures Decidable(groups, holders, ClusterStatefulSetName(clusterName, j)) {
      var k := ClusterStatefulSetName(clusterName, j);
      assert Chosen(groups, holders, k, masters[k]);
    }
  }

  lemma ChooseOneMore(clusterName: string, groups: Groups, holders: seq<Node>, masters: Masters, i: nat, x: Node)
    requires ChosenUpTo(clusterName, groups, holders, masters, i)
    requires Chosen(groups, holders, ClusterStatefulSetName(clusterName, i), x)
    ensures ChosenUpTo(clusterName, groups, holders, masters[ClusterStatefulSetName(clusterName, i) := x], i + 1)
    ensures |masters[ClusterStatefulSetName(clusterName, i) := x]| == |masters| + 1
  {
    NotYetChosen(clusterName, groups, holders, masters, i);
    var masters' := masters[ClusterStatefulSetName(clusterName, i) := x];
    assert masters'.Keys == masters.Keys + {ClusterStatefulSetName(clusterName, i)};
    assert |masters'| == |masters'.Keys| && |masters| == |masters.Keys|;
    forall k | k in masters' ensures exists j :: 0 <= j < i + 1 && k == ClusterStatefulSetName(clusterName, j) {
      if k in masters {
        var j :| 0 <= j < i && k == ClusterStatefulSetName(clusterName, j);
      } else {
        assert k == ClusterStatefulSetName(clusterName, i);
      }
    }
  }

  lemma SpreadOneMore(holders: seq<Node>, masters: Masters, k: string, x: Node)
    requires SpreadOut(holders, masters) && k !in masters
    requires (x in holders && SeparateMachines(holders)) || !Taken(holders, masters, x.NodeName)
    ensures SpreadOut(holders, masters[k := x])
  {
    var masters' := masters[k := x];
    forall l | l in masters && masters[l] != x ensures masters[l].NodeName != x.NodeName {
      if x in holders {
        var i :| 0 <= i < |holders| && holders[i] == x;
        assert masters[l].NodeName != holders[i].NodeName;
      }
    }
    forall i | 0 <= i < |holders| && holders[i] != x ensures x.NodeName != holders[i].NodeName {
      if x in holders {
        var j :| 0 <= j < |holders| && holders[j] == x;
        assert i < j || j < i;
      }
    }
  }

  // ---------- what PlaceSlaves is to list ----------

  /** x is to become a slave of the node id. */
  ghost predicate Listed(slaves: map<Id, seq<Node>>, id: Id, x: Node) {
    id in slaves && x in slaves[id]
  }

  predicate NeedsAttaching(x: Node, master: Node)
    reads x
  {
    x.IP != master.IP && (x.GetRole() != SlaveRole || x.MasterReferent != master.ID)
  }

  ghost predicate OnOneMachine(group: seq<Node>, master: Node) {
    forall x :: x in group && x.IP != master.IP ==> x.NodeName == master.NodeName
  }

  lemma OnOneMachineStep(group: seq<Node>, x: Node, master: Node)
    ensures OnOneMachine(group + [x], master) <==>
              OnOneMachine(group, master) && (x.IP != master.IP ==> x.NodeName == master.NodeName)
  {
    assert x in group + [x];
    assert forall y :: y in group ==> y in group + [y];
  }

  lemma ListOneMore(slaves: map<Id, seq<Node>>, id: Id, x: Node)
    ensures var slaves' := slaves[id := (if id in slaves then slaves[id] else []) + [x]];
            forall a, y :: Listed(slaves', a, y) <==> Listed(slaves, a, y) || (a == id && y == x)
  {
    var list := if id in slaves then slaves[id] else [];
    var slaves' := slaves[id := list + [x]];
    forall a, y ensures Listed(slaves', a, y) <==> Listed(slaves, a, y) || (a == id && y == x) {
      assert y in list + [x] <==> y in list || y == x;
      assert a != id ==> (a in slaves' <==> a in slaves);
    }
  }

  /** x, a node of one of the StatefulSets sets, needs attaching to the master of that set. */
  ghost predicate PlacedUnder(groups: Groups, masters: Masters, sets: set<string>, id: Id, x: Node)
    requires sets <= groups.Keys && sets <= masters.Keys
    reads x
  {
    exists k :: k in sets && x in groups[k] && masters[k].ID == id && NeedsAttaching(x, masters[k])
  }

  lemma PlacedOneMore(groups: Groups, masters: Masters, sets: set<string>, k: string)
    requires sets <= groups.Keys && sets <= masters.Keys && k in groups && k in masters
    ensures forall id, x :: PlacedUnder(groups, masters, sets + {k}, id, x) <==>
              PlacedUnder(groups, masters, sets, id, x) || (id == masters[k].ID && x in groups[k] && NeedsAttaching(x, masters[k]))
  {
    forall id, x
      ensures PlacedUnder(groups, masters, sets + {k}, id, x) <==>
        PlacedUnder(groups, masters, sets, id, x) || (id == masters[k].ID && x in groups[k] && NeedsAttaching(x, masters[k]))
    {
      assert id == masters[k].ID && x in groups[k] && NeedsAttaching(x, masters[k]) ==> k in sets + {k};
    }
  }

  /** The cluster knows the nodes by their ids, and no other node has the address of a chosen master. */
  ghost predicate KnownGroups(groups: Groups, cluster: map<Id, Node>, masters: Masters) {
    && (forall k, x :: k in groups && x in groups[k] ==> x.ID in cluster && cluster[x.ID] == x && x.ID != "-")
    && (forall k, x :: k in groups && k in masters && x in groups[k] && x.IP == masters[k].IP ==> x == masters[k])
  }

  ghost predicate Disjoint(groups: Groups) {
    forall k, l, x :: k in groups && l in groups && x in groups[k] && x in groups[l] ==> k == l
  }

  ghost predicate MastersAmong(groups: Groups, masters: Masters) {
    forall k :: k in masters ==> k in groups && masters[k] in groups[k]
  }

  /** The nodes that were not chosen. */
  ghost function Others(groups: Groups, masters: Masters): set<Node> {
    set k, x | k in groups && x in groups[k] && x !in masters.Values :: x
  }

  ghost function OtherIds(groups: Groups, masters: Masters): set<Id> {
    set x | x in Others(groups, masters) :: x.ID
  }

  /** What PlaceSlaves leaves in slavesByMaster. */
  ghost predicate PlacedSlaves(slaves: map<Id, seq<Node>>, groups: Groups, masters: Masters)
    requires groups.Keys <= masters.Keys
    reads ListedNodes(slaves)
  {
    forall id, x :: id in slaves && x in slaves[id] ==> PlacedUnder(groups, masters, groups.Keys, id, x)
  }

  lemma ListedIsOther(groups: Groups, masters: Masters, cluster: map<Id, Node>, id: Id, x: Node)
    requires groups.Keys <= masters.Keys && PlacedUnder(groups, masters, groups.Keys, id, x)
    requires Disjoint(groups) && KnownGroups(groups, cluster, masters) && MastersAmong(groups, masters)
    ensures x in Others(groups, masters)
  {
    var k :| k in groups.Keys && x in groups[k] && masters[k].ID == id && NeedsAttaching(x, masters[k]);
    forall l | l in masters ensures masters[l] != x {
      assert masters[l] in groups[l];
    }
    assert k in groups && x in groups[k] && x !in masters.Values;
  }

  lemma ListedOnce(groups: Groups, masters: Masters, cluster: map<Id, Node>, a: Id, x: Node, b: Id, y: Node)
    requires groups.Keys <= masters.Keys && Disjoint(groups) && KnownGroups(groups, cluster, masters)
    requires PlacedUnder(groups, masters, groups.Keys, a, x) && PlacedUnder(groups, masters, groups.Keys, b, y) && x.ID == y.ID
    ensures a == b
  {
    var k :| k in groups.Keys && x in groups[k] && masters[k].ID == a && NeedsAttaching(x, masters[k]);
    var l :| l in groups.Keys && y in groups[l] && masters[l].ID == b && NeedsAttaching(y, masters[l]);
    assert x == y;
  }

  /** No chosen master is listed, and no node is listed under two masters. */
  lemma OnlyOthersListed(slaves: map<Id, seq<Node>>, groups: Groups, masters: Masters, cluster: map<Id, Node>)
    requires groups.Keys <= masters.Keys && PlacedSlaves(slaves, groups, masters)
    requires Disjoint(groups) && KnownGroups(groups, cluster, masters) && MastersAmong(groups, masters)
    ensures ListedNodes(slaves) <= Others(groups, masters) && ListedIds(slaves) <= OtherIds(groups, masters)
    ensures Unambiguous(slaves)
  {
    forall id, x | id in slaves && x in slaves[id] ensures x in Others(groups, masters) {
      ListedIsOther(groups, masters, cluster, id, x);
    }
    forall a, b, x, y | a in slaves && b in slaves && x in slaves[a] && y in slaves[b] && x.ID == y.ID ensures a == b {
      ListedOnce(groups, masters, cluster, a, x, b, y);
    }
  }

  /** Every node of a group is its master, or a slave of it in the operator's books. */
  ghost predicate AllFollow(groups: Groups, masters: Masters)
    requires groups.Keys <= masters.Keys
    reads set k, x | k in groups && x in groups[k] :: x
  {
    forall k, x :: k in groups && x in groups[k] ==>
      x == masters[k] || (x.GetRole() == SlaveRole && x.MasterReferent == masters[k].ID)
  }

  /** Every node of a group is its master, or a replica of it in Redis. */
  ghost predicate AllReplicate(w: World, groups: Groups, masters: Masters)
    requires groups.Keys <= masters.Keys
  {
    forall k, x :: k in groups && x in groups[k] ==>
      x == masters[k] || (x.ID in w.replicaOf && w.replicaOf[x.ID] == masters[k].ID)
  }

  /** The operator's books name the master of every slave. */
  ghost predicate TrueReferents(w: World, ns: seq<Node>)
    reads ns
  {
    forall x :: x in ns && x.GetRole() == SlaveRole ==> x.ID in w.replicaOf && w.replicaOf[x.ID] == x.MasterReferent
  }

  /** Before attaching: every node is the master of its group, or listed under it, or replicates it and is not listed at all. */
  ghost predicate Settled(w: World, slaves: map<Id, seq<Node>>, groups: Groups, masters: Masters)
    requires groups.Keys <= masters.Keys
  {
    forall k, x :: k in groups && x in groups[k] ==>
      || x == masters[k] || Listed(slaves, masters[k].ID, x)
      || (x.ID !in ListedIds(slaves) && x.ID in w.replicaOf && w.replicaOf[x.ID] == masters[k].ID)
  }

  lemma UnlistedById(groups: Groups, masters: Masters, cluster: map<Id, Node>, slaves: map<Id, seq<Node>>, k: string, x: Node)
    requires KnownGroups(groups, cluster, masters) && ListedNodes(slaves) <= Others(groups, masters)
    requires k in groups && x in groups[k] && x !in ListedNodes(slaves)
    ensures x.ID !in ListedIds(slaves)
  {
    forall id, y | id in slaves && y in slaves[id] ensures y.ID != x.ID {
      assert y in ListedNodes(slaves);
      assert y in Others(groups, masters);
      assert cluster[x.ID] == x;
    }
  }

  lemma DealtWithIsSettled(w: World, slaves: map<Id, seq<Node>>, groups: Groups, masters: Masters, cluster: map<Id, Node>, ns: seq<Node>)
    requires groups.Keys <= masters.Keys && KnownGroups(groups, cluster, masters) && TrueReferents(w, ns)
    requires ListedNodes(slaves) <= Others(groups, masters)
    requires forall k, x :: k in groups && x in groups[k] ==> x in ns && DealtWith(slaves, masters, k, x)
    ensures Settled(w, slaves, groups, masters)
  {
    forall k, x | k in groups && x in groups[k]
      ensures || x == masters[k] || Listed(slaves, masters[k].ID, x)
              || (x.ID !in ListedIds(slaves) && x.ID in w.replicaOf && w.replicaOf[x.ID] == masters[k].ID)
    {
      assert DealtWith(slaves, masters, k, x);
      if x !in ListedNodes(slaves) {
        UnlistedById(groups, masters, cluster, slaves, k, x);
      }
    }
  }

  lemma SettledThenReplicates(w0: World, w: World, slaves: map<Id, seq<Node>>, groups: Groups, masters: Masters, cluster: map<Id, Node>)
    requires groups.Keys <= masters.Keys && KnownGroups(groups, cluster, masters) && MastersAmong(groups, masters)
    requires Settled(w0, slaves, groups, masters) && OnlyAttached(w0, w, ListedIds(slaves))
    requires forall id, x :: Listed(slaves, id, x) && id in cluster ==> x.ID in w.replicaOf && w.replicaOf[x.ID] == id
    ensures AllReplicate(w, groups, masters)
  {
    forall k, x | k in groups && x in groups[k] && x != masters[k] ensures x.ID in w.replicaOf && w.replicaOf[x.ID] == masters[k].ID {
      assert masters[k] in groups[k];
      assert masters[k].ID in cluster;
    }
  }

  /** Redis can attach every node that was not chosen to any chosen master. */
  ghost predicate OthersAttachable(w: World, groups: Groups, masters: Masters) {
    forall k, x :: k in masters && x in Others(groups, masters) ==> Attachable(w, masters[k].ID, x.ID)
  }

  lemma PlacedIsAttachable(w: World, groups: Groups, masters: Masters, cluster: map<Id, Node>, id: Id, x: Node)
    requires groups.Keys <= masters.Keys && PlacedUnder(groups, masters, groups.Keys, id, x)
    requires Disjoint(groups) && KnownGroups(groups, cluster, masters) && MastersAmong(groups, masters)
    requires OthersAttachable(w, groups, masters)
    ensures id !in OtherIds(groups, masters) && Attachable(w, id, x.ID)
  {
    ListedIsOther(groups, masters, cluster, id, x);
    var k :| k in groups.Keys && x in groups[k] && masters[k].ID == id && NeedsAttaching(x, masters[k]);
    forall y | y in Others(groups, masters) ensures y.ID != id {
      assert masters[k] in groups[k] && y != masters[k];
    }
  }

  lemma ListIsAttachable(w: World, ids: set<Id>, wider: set<Id>, id: Id, listed: seq<Node>)
    requires ids <= wider && forall x :: x in listed ==> id !in wider && Attachable(w, id, x.ID)
    ensures AllAttachable(w, ids, id, listed)
  {
    forall i | 0 <= i < |listed| ensures Attachable(w, id, listed[i].ID) {
      assert listed[i] in listed;
    }
    if listed != [] {
      assert listed[0] in listed;
    }
  }

  lemma PlacedAreAttachable(w: World, slaves: map<Id, seq<Node>>, groups: Groups, masters: Masters, cluster: map<Id, Node>)
    requires groups.Keys <= masters.Keys && PlacedSlaves(slaves, groups, masters)
    requires Disjoint(groups) && KnownGroups(groups, cluster, masters) && MastersAmong(groups, masters)
    requires OthersAttachable(w, groups, masters) && ListedIds(slaves) <= OtherIds(groups, masters)
    ensures CanAttach(w, slaves)
  {
    forall id | id in slaves ensures AllAttachable(w, ListedIds(slaves), id, slaves[id]) {
      forall x | x in slaves[id] ensures id !in OtherIds(groups, masters) && Attachable(w, id, x.ID) {
        PlacedIsAttachable(w, groups, masters, cluster, id, x);
      }
      ListIsAttachable(w, ListedIds(slaves), OtherIds(groups, masters), id, slaves[id]);
    }
  }

  /** Before attaching: x is the master of k, or listed under it, or follows it and is not listed at all. */
  ghost predicate DealtWith(slaves: map<Id, seq<Node>>, masters: Masters, k: string, x: Node)
    requires k in masters
    reads x
  {
    || x == masters[k] || Listed(slaves, masters[k].ID, x)
    || (x !in ListedNodes(slaves) && x.GetRole() == SlaveRole && x.MasterReferent == masters[k].ID)
  }

  ghost predicate AllDealtWith(slaves: map<Id, seq<Node>>, groups: Groups, masters: Masters)
    requires groups.Keys <= masters.Keys
    reads set k, x | k in groups && x in groups[k] :: x
  {
    forall k, x :: k in groups && x in groups[k] ==> DealtWith(slaves, masters, k, x)
  }

  lemma PlacedNeedsIt(groups: Groups, masters: Masters, id: Id, k: string, x: Node)
    requires groups.Keys <= masters.Keys && PlacedUnder(groups, masters, groups.Keys, id, x)
    requires Disjoint(groups) && k in groups && x in groups[k]
    ensures NeedsAttaching(x, masters[k]) && id == masters[k].ID
  {
    var l :| l in groups.Keys && x in groups[l] && masters[l].ID == id && NeedsAttaching(x, masters[l]);
    assert l == k;
  }

  lemma EveryNodeIsDealtWith(slaves: map<Id, seq<Node>>, groups: Groups, masters: Masters, cluster: map<Id, Node>, k: string, x: Node)
    requires groups.Keys <= masters.Keys && PlacedSlaves(slaves, groups, masters) && k in groups
    requires NeedsAttaching(x, masters[k]) ==> Listed(slaves, masters[k].ID, x)
    requires Disjoint(groups) && KnownGroups(groups, cluster, masters) && MastersAmong(groups, masters)
    requires x in groups[k]
    ensures DealtWith(slaves, masters, k, x)
  {
    assert masters[k] in groups[k];
    forall id | id in slaves && x in slaves[id] ensures NeedsAttaching(x, masters[k]) {
      PlacedNeedsIt(groups, masters, id, k, x);
    }
  }

  /** What attaching has to know of the outcome of PlaceSlaves. */
  lemma PlacedFacts(w: World, slaves: map<Id, seq<Node>>, groups: Groups, masters: Masters, cluster: map<Id, Node>, ns: seq<Node>)
    requires groups.Keys <= masters.Keys
    requires forall id, x :: Listed(slaves, id, x) <==> PlacedUnder(groups, masters, groups.Keys, id, x)
    requires Disjoint(groups) && KnownGroups(groups, cluster, masters) && MastersAmong(groups, masters)
    requires forall k, x :: k in groups && x in groups[k] ==> x in ns
    ensures ListedNodes(slaves) <= Others(groups, masters) && ListedIds(slaves) <= OtherIds(groups, masters)
    ensures Unambiguous(slaves)
    ensures OthersAttachable(w, groups, masters) ==> CanAttach(w, slaves)
    ensures AllDealtWith(slaves, groups, masters)
    ensures TrueReferents(w, ns) ==> Settled(w, slaves, groups, masters)
  {
    assert PlacedSlaves(slaves, groups, masters) by {
      forall id, x | id in slaves && x in slaves[id] ensures PlacedUnder(groups, masters, groups.Keys, id, x) {
        assert Listed(slaves, id, x);
      }
    }
    OnlyOthersListed(slaves, groups, masters, cluster);
    if OthersAttachable(w, groups, masters) {
      PlacedAreAttachable(w, slaves, groups, masters, cluster);
    }
    forall k, x | k in groups && x in groups[k] ensures DealtWith(slaves, masters, k, x) {
      assert NeedsAttaching(x, masters[k]) ==> k in groups.Keys && PlacedUnder(groups, masters, groups.Keys, masters[k].ID, x);
      EveryNodeIsDealtWith(slaves, groups, masters, cluster, k, x);
    }
    if TrueReferents(w, ns) {
      DealtWithIsSettled(w, slaves, groups, masters, cluster, ns);
    }
  }

  // ---------- what AttachingSlavesToMaster is to do ----------

  ghost function ListedIds(slaves: map<Id, seq<Node>>): set<Id> {
    set id, x | id in slaves && x in slaves[id] :: x.ID
  }

  /** No node is listed under two masters. */
  ghost predicate Unambiguous(slaves: map<Id, seq<Node>>) {
    forall a, b, x, y :: a in slaves && b in slaves && x in slaves[a] && y in slaves[b] && x.ID == y.ID ==> a == b
  }

  /** Nothing but the master of some nodes in ids differs between w0 and w. */
  ghost predicate OnlyAttached(w0: World, w: World, ids: set<Id>) {
    && w == w0.(replicaOf := w.replicaOf) && w0.replicaOf.Keys <= w.replicaOf.Keys
    && (forall a :: a !in ids ==>
          (a in w.replicaOf <==> a in w0.replicaOf) && (a in w.replicaOf ==> w.replicaOf[a] == w0.replicaOf[a]))
  }

  lemma OnlyAttachedWidens(w0: World, w: World, hist: seq<World>, from: nat, ids: set<Id>, wider: set<Id>)
    requires ids <= wider && OnlyAttached(w0, w, ids)
    requires forall i :: from <= i < |hist| ==> OnlyAttached(w0, hist[i], ids)
    ensures OnlyAttached(w0, w, wider)
    ensures forall i :: from <= i < |hist| ==> OnlyAttached(w0, hist[i], wider)
  {
  }

  /** Redis can make x a replica of id. */
  ghost predicate Attachable(w: World, id: Id, x: Id) {
    IsMaster(w, id) && x in w.nodes && x != id && (x in w.replicaOf || HoldsNothing(w, x))
  }

  ghost predicate AllAttachable(w: World, ids: set<Id>, masterID: Id, slaves: seq<Node>) {
    forall i :: 0 <= i < |slaves| ==> masterID !in ids && Attachable(w, masterID, slaves[i].ID)
  }

  /** All listed nodes are attachable to masters that are not listed themselves. */
  ghost predicate CanAttach(w: World, slaves: map<Id, seq<Node>>) {
    forall id :: id in slaves ==> AllAttachable(w, ListedIds(slaves), id, slaves[id])
  }

  ghost predicate IsSlaveOf(w: World, x: Node, id: Id)
    reads x
  {
    && x.Role == SlaveRole && x.MasterReferent == (if id == "-" then "" else id)
    && x.ID in w.replicaOf && w.replicaOf[x.ID] == id
  }

  lemma StillAttachable(w0: World, w: World, ids: set<Id>, id: Id, x: Id)
    requires OnlyAttached(w0, w, ids) && id !in ids && Attachable(w0, id, x)
    ensures Attachable(w, id, x)
  {
    assert forall s :: Claims(w, x, s) == Claims(w0, x, s) && Data(w, x, s) == Data(w0, x, s);
  }

  method AttachOne(admin: Admin, slave: Node, masterID: Id, ghost w0: World, ghost ids: set<Id>) returns (ok: bool)
    requires OnlyAttached(w0, admin.world, ids) && slave.ID in ids
    modifies admin, slave`Role, slave`MasterReferent
    ensures admin.hist == old(admin.hist) + [admin.world] && OnlyAttached(w0, admin.world, ids)
    ensures ok ==> IsSlaveOf(admin.world, slave, masterID)
    ensures !ok ==> slave.Role == old(slave.Role) && slave.MasterReferent == old(slave.MasterReferent)
    ensures forall a :: a != slave.ID && a in old(admin.world).replicaOf ==>
              a in admin.world.replicaOf && admin.world.replicaOf[a] == old(admin.world).replicaOf[a]
    ensures slave.ID in old(admin.world).replicaOf && old(admin.world).replicaOf[slave.ID] == masterID ==>
              admin.world.replicaOf == old(admin.world).replicaOf
    ensures admin.reliable && masterID !in ids && Attachable(w0, masterID, slave.ID) ==> ok
  {
    if masterID !in ids && Attachable(w0, masterID, slave.ID) {
      StillAttachable(w0, admin.world, ids, masterID, slave.ID);
    }
    ok := admin.AttachSlaveToMaster(slave, masterID);
  }

  /** The slaves of one master. */
  method AttachList(admin: Admin, masterID: Id, slaves: seq<Node>, ghost w0: World, ghost ids: set<Id>) returns (ok: bool)
    requires OnlyAttached(w0, admin.world, ids) && forall i :: 0 <= i < |slaves| ==> slaves[i].ID in ids
    modifies admin, slaves`Role, slaves`MasterReferent
    ensures old(admin.hist) <= admin.hist && OnlyAttached(w0, admin.world, ids)
    ensures forall j :: |old(admin.hist)| <= j < |admin.hist| ==> OnlyAttached(w0, admin.hist[j], ids)
    ensures ok ==> forall i :: 0 <= i < |slaves| ==> IsSlaveOf(admin.world, slaves[i], masterID)
    ensures forall a :: a in old(admin.world).replicaOf && (forall i :: 0 <= i < |slaves| ==> slaves[i].ID != a) ==>
              a in admin.world.replicaOf && admin.world.replicaOf[a] == old(admin.world).replicaOf[a]
    ensures admin.reliable && AllAttachable(w0, ids, masterID, slaves) ==> ok
  {
    ok := true;
    for i := 0 to |slaves|
      invariant old(admin.hist) <= admin.hist && OnlyAttached(w0, admin.world, ids)
      invariant forall j :: |old(admin.hist)| <= j < |admin.hist| ==> OnlyAttached(w0, admin.hist[j], ids)
      invariant ok ==> forall j :: 0 <= j < i ==> IsSlaveOf(admin.world, slaves[j], masterID)
      invariant forall a :: a in old(admin.world).replicaOf && (forall j :: 0 <= j < i ==> slaves[j].ID != a) ==>
                  a in admin.world.replicaOf && admin.world.replicaOf[a] == old(admin.world).replicaOf[a]
      invariant admin.reliable && AllAttachable(w0, ids, masterID, slaves) ==> ok
    {
      var done := AttachOne(admin, slaves[i], masterID, w0, ids);
      if !done {
        ok := false;
      }
    }
  }

  ghost function ListedNodes(slaves: map<Id, seq<Node>>): set<Node> {
    set id, x | id in slaves && x in slaves[id] :: x
  }

  lemma ListedFacts(slaves: map<Id, seq<Node>>, id: Id)
    requires id in slaves
    ensures forall i :: 0 <= i < |slaves[id]| ==> slaves[id][i] in ListedNodes(slaves) && slaves[id][i].ID in ListedIds(slaves)
    ensures Unambiguous(slaves) ==> forall a, x :: a in slaves && a != id && x in slaves[a] ==>
              forall i :: 0 <= i < |slaves[id]| ==> slaves[id][i].ID != x.ID
  {
    forall i | 0 <= i < |slaves[id]| ensures slaves[id][i] in ListedNodes(slaves) && slaves[id][i].ID in ListedIds(slaves) {
      assert slaves[id][i] in slaves[id];
    }
  }

  class Ctx {
    const expectedMasterNum: nat
    const clusterName: string
    const cluster: map<Id, Node>
    var nodes: map<string, seq<Node>>
    var currentMasters: seq<Node>
    var newMastersBySts: map<string, Node>
    var slavesByMaster: map<Id, seq<Node>>
    var bestEffort: bool

    /** Groups are non-empty, disjoint and duplicate-free, and the current masters are the slot holders in them. */
    ghost predicate Valid()
      reads this, set k, x | k in nodes && x in nodes[k] :: x
    {
      && (forall k :: k in nodes ==> nodes[k] != [] && NoDup(nodes[k]))
      && (forall k, l, x :: k in nodes && l in nodes && x in nodes[k] && x in nodes[l] ==> k == l)
      && (forall k, x :: k in nodes && x in nodes[k] ==> (x in currentMasters <==> x.IsMasterWithSlot()))
    }

    constructor (cluster: map<Id, Node>, ns: seq<Node>, masterNum: nat, clusterName: string)
      requires NoDup(ns)
      ensures Valid() && this.cluster == cluster && expectedMasterNum == masterNum && this.clusterName == clusterName
      ensures newMastersBySts == map[] && slavesByMaster == map[] && !bestEffort
      ensures SortsByStatefulSet(nodes, cluster, ns)
      ensures forall x :: x in currentMasters <==> x in ns && x.ID in cluster && x.IsMasterWithSlot()
      ensures NoDup(currentMasters)
    {
      this.cluster, this.expectedMasterNum, this.clusterName := cluster, masterNum, clusterName;
      newMastersBySts, slavesByMaster, bestEffort := map[], map[], false;
      var groups, holders := SortRedisNodeByStatefulSet(cluster, ns);
      nodes, currentMasters := groups, holders;
      forall k, l, x | k in groups && l in groups && x in groups[k] && x in groups[l] ensures k == l {
        GroupsDisjoint(groups, cluster, ns, k, l, x);
      }
    }

    // ---------- masters ----------

    function Name(i: nat): string {
      ClusterStatefulSetName(clusterName, i)
    }

    /** A machine that already carries a current or a chosen master. */
    ghost predicate Occupied(machine: string)
      reads this
    {
      Taken(currentMasters, newMastersBySts, machine)
    }

    /** All machines of a StatefulSet carry a master already. */
    ghost predicate FullyOccupied(k: string)
      requires k in nodes
      reads this
    {
      forall i :: 0 <= i < |nodes[k]| ==> Occupied(nodes[k][i].NodeName)
    }

    method IsOccupied(machine: string) returns (taken: bool)
      ensures taken == Occupied(machine)
    {
      for i := 0 to |currentMasters|
        invariant forall j :: 0 <= j < i ==> currentMasters[j].NodeName != machine
      {
        if currentMasters[i].NodeName == machine {
          return true;
        }
      }
      var rest := newMastersBySts.Keys;
      while rest != {}
        invariant rest <= newMastersBySts.Keys
        invariant forall k :: k in newMastersBySts && k !in rest ==> newMastersBySts[k].NodeName != machine
        decreases rest
      {
        var k :| k in rest;
        if newMastersBySts[k].NodeName == machine {
          return true;
        }
        rest := rest - {k};
      }
      return false;
    }

    /** PlaceMasters: the first node on a free machine, or the first of all. */
    method PlaceMasters(ssName: string) returns (master: Node)
      requires ssName in nodes && nodes[ssName] != []
      modifies this`bestEffort
      ensures master in nodes[ssName]
      ensures old(FullyOccupied(ssName)) ==> bestEffort && master == nodes[ssName][0]
      ensures !old(FullyOccupied(ssName)) ==> bestEffort == old(bestEffort) && old(!Occupied(master.NodeName))
      ensures !old(FullyOccupied(ssName)) ==>
                exists i :: 0 <= i < |nodes[ssName]| && nodes[ssName][i] == master &&
                            forall j :: 0 <= j < i ==> old(Occupied(nodes[ssName][j].NodeName))
    {
      var group := nodes[ssName];
      for i := 0 to |group|
        invariant forall j :: 0 <= j < i ==> Occupied(group[j].NodeName)
        invariant bestEffort == old(bestEffort)
      {
        var taken := IsOccupied(group[i].NodeName);
        if !taken {
          return group[i];
        }
      }
      assert FullyOccupied(ssName);
      bestEffort := true;
      return group[0];
    }

    /** One StatefulSet of DispatchMasters. */
    method DispatchMaster(stsName: string) returns (r: Outcome, ghost master: Node?)
      requires Valid() && stsName !in newMastersBySts
      modifies this`newMastersBySts, this`bestEffort
      ensures r == Placed <==> Decidable(nodes, currentMasters, stsName)
      ensures r == Placed ==> master != null && newMastersBySts == old(newMastersBySts)[stsName := master]
      ensures r == Placed ==> Chosen(nodes, currentMasters, stsName, master)
      ensures old(bestEffort) ==> bestEffort
      ensures Valid()
      ensures r == Placed && !bestEffort ==>
                master in currentMasters || !Taken(currentMasters, old(newMastersBySts), master.NodeName)
    {
      master := null;
      if stsName !in nodes {
        return MissingStatefulSet(stsName), null;
      }
      var current := FilterMastersWithSlot(nodes[stsName]);
      assert forall x :: x in current <==> x in nodes[stsName] && x in currentMasters;
      if |current| == 0 {
        var placed := PlaceMasters(stsName);
        newMastersBySts := newMastersBySts[stsName := placed];
        master := placed;
      } else if |current| == 1 {
        assert current[0] in current;
        newMastersBySts := newMastersBySts[stsName := current[0]];
        master := current[0];
      } else {
        assert current[0] in current && current[1] in current;
        return SplitBrain(stsName), null;
      }
      return Placed, master;
    }

    /** The next expected StatefulSet. */
    method DispatchNext(i: nat) returns (r: Outcome)
      requires Valid() && ChosenUpTo(clusterName, nodes, currentMasters, newMastersBySts, i) && |newMastersBySts| == i
      requires !bestEffort && SeparateMachines(currentMasters) ==> SpreadOut(currentMasters, newMastersBySts)
      modifies this`newMastersBySts, this`bestEffort
      ensures Valid()
      ensures r == Placed <==> Decidable(nodes, currentMasters, Name(i))
      ensures r == Placed ==> ChosenUpTo(clusterName, nodes, currentMasters, newMastersBySts, i + 1) && |newMastersBySts| == i + 1
      ensures r == Placed && !bestEffort && SeparateMachines(currentMasters) ==> SpreadOut(currentMasters, newMastersBySts)
    {
      NotYetChosen(clusterName, nodes, currentMasters, newMastersBySts, i);
      ghost var before := newMastersBySts;
      ghost var master: Node?;
      r, master := DispatchMaster(Name(i));
      if r != Placed {
        return;
      }
      ChooseOneMore(clusterName, nodes, currentMasters, before, i, master);
      if !bestEffort && SeparateMachines(currentMasters) {
        SpreadOneMore(currentMasters, before, Name(i), master);
      }
    }

    /**
     * DispatchMasters. It succeeds exactly when every expected StatefulSet exists and has at
     * most one slot holder; then there is one master per expected StatefulSet and every slot
     * holder in them is kept. If no compromise was needed the masters are on different machines.
     */
    method DispatchMasters() returns (r: Outcome)
      requires Valid() && newMastersBySts == map[] && !bestEffort
      modifies this`newMastersBySts, this`bestEffort
      ensures Valid()
      ensures r == Placed <==> forall i :: 0 <= i < expectedMasterNum ==> Decidable(nodes, currentMasters, Name(i))
      ensures r == Placed ==> ChosenUpTo(clusterName, nodes, currentMasters, newMastersBySts, expectedMasterNum)
      ensures r == Placed ==> |newMastersBySts| == expectedMasterNum
      ensures r == Placed && !bestEffort && SeparateMachines(currentMasters) ==> SpreadOut(currentMasters, newMastersBySts)
    {
      for i := 0 to expectedMasterNum
        invariant Valid() && ChosenUpTo(clusterName, nodes, currentMasters, newMastersBySts, i)
        invariant |newMastersBySts| == i
        invariant !bestEffort && SeparateMachines(currentMasters) ==> SpreadOut(currentMasters, newMastersBySts)
      {
        r := DispatchNext(i);
        if r != Placed {
          return;
        }
      }
      ChosenAreDecidable(clusterName, nodes, currentMasters, newMastersBySts, expectedMasterNum);
      return Placed;
    }

    /** GetNewMasters, in any order. */
    method GetNewMasters() returns (r: seq<Node>)
      requires Disjoint(nodes) && MastersAmong(nodes, newMastersBySts)
      ensures NoDup(r) && |r| == |newMastersBySts|
      ensures forall x :: x in r <==> x in newMastersBySts.Values
    {
      r := [];
      var rest := newMastersBySts.Keys;
      assert |newMastersBySts.Keys| == |newMastersBySts|;
      while rest != {}
        invariant rest <= newMastersBySts.Keys
        invariant NoDup(r) && |r| + |rest| == |newMastersBySts|
        invariant forall x :: x in r ==> exists k :: k in newMastersBySts && k !in rest && newMastersBySts[k] == x
        invariant forall k :: k in newMastersBySts && k !in rest ==> newMastersBySts[k] in r
        decreases rest
      {
        var k :| k in rest;
        forall l | l in newMastersBySts && l !in rest ensures newMastersBySts[l] != newMastersBySts[k] {
          assert newMastersBySts[l] in nodes[l] && newMastersBySts[k] in nodes[k];
        }
        assert newMastersBySts[k] !in r;
        r := r + [newMastersBySts[k]];
        rest := rest - {k};
      }
    }

    // ---------- slaves ----------

    /** PlaceSlaves for one StatefulSet. */
    method PlaceSlavesOf(ssName: string)
      requires ssName in nodes && ssName in newMastersBySts
      modifies this`slavesByMaster, this`bestEffort
      ensures forall id, x :: Listed(slavesByMaster, id, x) <==>
                Listed(old(slavesByMaster), id, x) ||
                (id == newMastersBySts[ssName].ID && x in nodes[ssName] && NeedsAttaching(x, newMastersBySts[ssName]))
      ensures bestEffort <==> old(bestEffort) && OnOneMachine(nodes[ssName], newMastersBySts[ssName])
    {
      var master, group := newMastersBySts[ssName], nodes[ssName];
      for i := 0 to |group|
        invariant forall id, x :: Listed(slavesByMaster, id, x) <==>
                    Listed(old(slavesByMaster), id, x) || (id == master.ID && x in group[..i] && NeedsAttaching(x, master))
        invariant bestEffort <==> old(bestEffort) && OnOneMachine(group[..i], master)
      {
        assert group[..i + 1] == group[..i] + [group[i]];
        assert forall x :: x in group[..i + 1] <==> x in group[..i] || x == group[i];
        OnOneMachineStep(group[..i], group[i], master);
        var node := group[i];
        ghost var before := slavesByMaster;
        if node.IP != master.IP {
          if node.NodeName != master.NodeName {
            bestEffort := false;
          }
          if node.GetRole() != SlaveRole || node.MasterReferent != master.ID {
            ListOneMore(slavesByMaster, master.ID, node);
            slavesByMaster := slavesByMaster[master.ID := (if master.ID in slavesByMaster then slavesByMaster[master.ID] else []) + [node]];
          }
        }
        assert forall id, x :: Listed(slavesByMaster, id, x) <==>
            Listed(before, id, x) || (id == master.ID && x == node && NeedsAttaching(node, master));
      }
      assert group[..|group|] == group;
    }

    /**
     * PlaceSlaves, StatefulSets in any order. A StatefulSet without a chosen master makes it
     * panic. The flag tells whether every set runs on a single machine.
     */
    method PlaceSlaves() returns (panicked: bool)
      modifies this`slavesByMaster, this`bestEffort
      ensures panicked <==> !(nodes.Keys <= newMastersBySts.Keys)
      ensures !panicked ==> forall id, x :: Listed(slavesByMaster, id, x) <==>
                Listed(old(slavesByMaster), id, x) || PlacedUnder(nodes, newMastersBySts, nodes.Keys, id, x)
      ensures !panicked ==> (bestEffort <==> forall k :: k in nodes ==> OnOneMachine(nodes[k], newMastersBySts[k]))
    {
      bestEffort := true;
      var rest := nodes.Keys;
      while rest != {}
        invariant rest <= nodes.Keys && nodes.Keys - rest <= newMastersBySts.Keys
        invariant forall id, x :: Listed(slavesByMaster, id, x) <==>
                    Listed(old(slavesByMaster), id, x) || PlacedUnder(nodes, newMastersBySts, nodes.Keys - rest, id, x)
        invariant bestEffort <==> forall k :: k in nodes && k !in rest ==> OnOneMachine(nodes[k], newMastersBySts[k])
        decreases rest
      {
        var ssName :| ssName in rest;
        if ssName !in newMastersBySts {
          return true;
        }
        PlaceSlavesOf(ssName);
        PlacedOneMore(nodes, newMastersBySts, nodes.Keys - rest, ssName);
        rest := rest - {ssName};
        assert nodes.Keys - rest == (nodes.Keys - (rest + {ssName})) + {ssName};
      }
      return false;
    }

    /** One master of AttachingSlavesToMaster, the listed nodes of which are among all. */
    method AttachNext(admin: Admin, masterID: Id, ghost w0: World, ghost all: set<Node>) returns (ok: bool)
      requires Unambiguous(slavesByMaster) && masterID in slavesByMaster && all == ListedNodes(slavesByMaster)
      requires OnlyAttached(w0, admin.world, ListedIds(slavesByMaster))
      modifies admin, all`Role, all`MasterReferent
      ensures old(admin.hist) <= admin.hist && OnlyAttached(w0, admin.world, ListedIds(slavesByMaster))
      ensures forall j :: |old(admin.hist)| <= j < |admin.hist| ==> OnlyAttached(w0, admin.hist[j], ListedIds(slavesByMaster))
      ensures ok ==> forall x :: x in slavesByMaster[masterID] ==> IsSlaveOf(admin.world, x, masterID)
      ensures forall id :: id in slavesByMaster && id != masterID ==>
                forall x :: x in slavesByMaster[id] && old(IsSlaveOf(admin.world, x, id)) ==> IsSlaveOf(admin.world, x, id)
      ensures admin.reliable && CanAttach(w0, slavesByMaster) ==> ok
    {
      var slaves := slavesByMaster[masterID];
      ListedFacts(slavesByMaster, masterID);
      ok := AttachList(admin, masterID, slaves, w0, ListedIds(slavesByMaster));
    }

    /**
     * AttachingSlavesToMaster, masters in any order. An unknown master is skipped, a failed
     * command does not keep the others from being issued, and the last error is returned.
     */
    method AttachingSlavesToMaster(admin: Admin) returns (ok: bool)
      requires Unambiguous(slavesByMaster)
      modifies admin
      modifies ListedNodes(slavesByMaster)`Role, ListedNodes(slavesByMaster)`MasterReferent
      ensures old(admin.hist) <= admin.hist
      ensures OnlyAttached(old(admin.world), admin.world, ListedIds(slavesByMaster))
      ensures forall i :: |old(admin.hist)| <= i < |admin.hist| ==>
                OnlyAttached(old(admin.world), admin.hist[i], ListedIds(slavesByMaster))
      ensures ok ==> forall id, x :: Listed(slavesByMaster, id, x) && id in cluster ==> IsSlaveOf(admin.world, x, id)
      ensures admin.reliable && CanAttach(old(admin.world), slavesByMaster) ==> ok
    {
      ok := true;
      ghost var w0, ids := admin.world, ListedIds(slavesByMaster);
      var rest := slavesByMaster.Keys;
      while rest != {}
        invariant rest <= slavesByMaster.Keys
        invariant old(admin.hist) <= admin.hist
        invariant OnlyAttached(w0, admin.world, ids)
        invariant forall j :: |old(admin.hist)| <= j < |admin.hist| ==> OnlyAttached(w0, admin.hist[j], ids)
        invariant ok ==> forall id, x :: Listed(slavesByMaster, id, x) && id in cluster && id !in rest ==> IsSlaveOf(admin.world, x, id)
        invariant admin.reliable && CanAttach(w0, slavesByMaster) ==> ok
        decreases rest
      {
        var masterID :| masterID in rest;
        rest := rest - {masterID};
        if masterID in cluster {
          var done := AttachNext(admin, masterID, w0, ListedNodes(slavesByMaster));
          if !done {
            ok := false;
          }
        }
      }
    }

    /** AttachingSlavesToMaster on what PlaceSlaves has listed. */
    method AttachPlaced(admin: Admin, ghost settled: bool) returns (ok: bool)
      requires Unambiguous(slavesByMaster) && nodes.Keys <= newMastersBySts.Keys
      requires KnownGroups(nodes, cluster, newMastersBySts) && MastersAmong(nodes, newMastersBySts)
      requires AllDealtWith(slavesByMaster, nodes, newMastersBySts)
      requires settled ==> Settled(admin.world, slavesByMaster, nodes, newMastersBySts)
      modifies admin
      modifies ListedNodes(slavesByMaster)`Role, ListedNodes(slavesByMaster)`MasterReferent
      ensures old(admin.hist) <= admin.hist
      ensures OnlyAttached(old(admin.world), admin.world, ListedIds(slavesByMaster))
      ensures forall i :: |old(admin.hist)| <= i < |admin.hist| ==>
                OnlyAttached(old(admin.world), admin.hist[i], ListedIds(slavesByMaster))
      ensures ok ==> AllFollow(nodes, newMastersBySts)
      ensures ok && settled ==> AllReplicate(admin.world, nodes, newMastersBySts)
      ensures admin.reliable && CanAttach(old(admin.world), slavesByMaster) ==> ok
    {
      ghost var w0 := admin.world;
      ok := AttachingSlavesToMaster(admin);
      if ok {
        forall k, x | k in nodes && x in nodes[k] && x != newMastersBySts[k]
          ensures x.GetRole() == SlaveRole && x.MasterReferent == newMastersBySts[k].ID
        {
          assert old(DealtWith(slavesByMaster, newMastersBySts, k, x));
          assert newMastersBySts[k].ID in cluster && newMastersBySts[k].ID != "-";
          assert Listed(slavesByMaster, newMastersBySts[k].ID, x) || x !in ListedNodes(slavesByMaster);
        }
        if settled {
          SettledThenReplicates(w0, admin.world, slavesByMaster, nodes, newMastersBySts, cluster);
        }
      }
    }

    /**
     * PlaceSlaves and AttachingSlavesToMaster, as every operation that attaches slaves runs
     * them. Afterwards every node is the master of its StatefulSet or a slave of it, in the
     * operator's books and, if those were right about the slaves before, in Redis; no chosen
     * master, and so no slot holder of a decided StatefulSet, is touched.
     */
    method PlaceAndAttach(admin: Admin, ghost ns: seq<Node>) returns (r: AttachOutcome)
      requires forall k, x :: k in nodes && x in nodes[k] ==> x in ns
      requires Disjoint(nodes) && KnownGroups(nodes, cluster, newMastersBySts) && MastersAmong(nodes, newMastersBySts)
      requires slavesByMaster == map[]
      modifies this`slavesByMaster, this`bestEffort, admin
      modifies Others(nodes, newMastersBySts)`Role, Others(nodes, newMastersBySts)`MasterReferent
      ensures old(admin.hist) <= admin.hist
      ensures r == NoMaster <==> !(nodes.Keys <= newMastersBySts.Keys)
      ensures r == NoMaster ==> admin.world == old(admin.world) && admin.hist == old(admin.hist)
      ensures OnlyAttached(old(admin.world), admin.world, OtherIds(nodes, newMastersBySts))
      ensures forall i :: |old(admin.hist)| <= i < |admin.hist| ==>
                OnlyAttached(old(admin.world), admin.hist[i], OtherIds(nodes, newMastersBySts))
      ensures r == Attached ==> AllFollow(nodes, newMastersBySts)
      ensures r == Attached && old(TrueReferents(admin.world, ns)) ==> AllReplicate(admin.world, nodes, newMastersBySts)
      ensures admin.reliable && OthersAttachable(old(admin.world), nodes, newMastersBySts) ==> r != AttachFailed
    {
      ghost var w0, truth := admin.world, TrueReferents(admin.world, ns);
      var panicked := PlaceSlaves();
      if panicked {
        return NoMaster;
      }
      assert truth == TrueReferents(w0, ns);
      PlacedFacts(w0, slavesByMaster, nodes, newMastersBySts, cluster, ns);
      var ok := AttachPlaced(admin, truth);
      OnlyAttachedWidens(w0, admin.world, admin.hist, |old(admin.hist)|, ListedIds(slavesByMaster), OtherIds(nodes, newMastersBySts));
      return if ok then Attached else AttachFailed;
    }
  }
}
