/**
 * Detecting a split cluster: pkg/controller/heal/clustersplit.go. Every node reports the
 * nodes it sees; reports that have nothing in common are taken for separate clusters.
 */
module ClusterSplit {
  import opened Basics

  type Address = string
  type Cluster = seq<Address>

  /** A node as a report mentions it. */
  datatype Seen = Seen(addr: Address, failStatus: seq<string>)

  datatype NodeInfos = NodeInfos(node: Option<Seen>, friends: seq<Seen>)

  ghost predicate Overlaps(c: Cluster, clusters: seq<Cluster>) {
    exists i, a :: 0 <= i < |clusters| && a in clusters[i] && a in c
  }

  method FindInCluster(addr: Address, clusters: seq<Cluster>) returns (found: bool)
    ensures found <==> exists i :: 0 <= i < |clusters| && addr in clusters[i]
  {
    for i := 0 to |clusters|
      invariant forall k :: 0 <= k < i ==> addr !in clusters[k]
    {
      for j := 0 to |clusters[i]|
        invariant addr !in clusters[i][..j]
      {
        if addr == clusters[i][j] {
          return true;
        }
      }
      assert clusters[i][..|clusters[i]|] == clusters[i];
    }
    return false;
  }

  // ---------- the reports ----------

  /** The healthy addresses of a list, in order. */
  function Healthy(seen: seq<Seen>): Cluster {
    if seen == [] then []
    else
      var m := |seen| - 1;
      Healthy(seen[..m]) + if seen[m].failStatus == [] then [seen[m].addr] else []
  }

  /** What a report that has a node amounts to: its friends, then the node itself, as far as healthy. */
  function Report(info: NodeInfos): Cluster
    requires info.node.Some?
  {
    Healthy(info.friends + [info.node.value])
  }

  lemma {:induction false} HealthyMembers(seen: seq<Seen>, a: Address)
    ensures a in Healthy(seen) <==> exists i :: 0 <= i < |seen| && seen[i].addr == a && seen[i].failStatus == []
  {
    if seen != [] {
      var m := |seen| - 1;
      HealthyMembers(seen[..m], a);
      assert forall i :: 0 <= i < m ==> seen[..m][i] == seen[i];
    }
  }

  method ReportOf(info: NodeInfos) returns (c: Cluster)
    requires info.node.Some?
    ensures c == Report(info)
  {
    var slice := info.friends + [info.node.value];
    c := [];
    for i := 0 to |slice|
      invariant c == Healthy(slice[..i])
    {
      assert slice[..i + 1][..i] == slice[..i];
      if |slice[i].failStatus| == 0 {
        c := c + [slice[i].addr];
      }
    }
    assert slice[..|slice|] == slice;
  }

  // ---------- buildClustersLists ----------

  /** The reports in order, without those that overlap with an earlier one that was taken. */
  ghost function Build(reports: seq<Cluster>): seq<Cluster> {
    if reports == [] then []
    else
      var m := |reports| - 1;
      var clusters := Build(reports[..m]);
      if Overlaps(reports[m], clusters) then clusters else clusters + [reports[m]]
  }

  predicate HasNode(infos: map<string, Option<NodeInfos>>, addr: string) {
    addr in infos && infos[addr].Some? && infos[addr].value.node.Some?
  }

  ghost function Reports(infos: map<string, Option<NodeInfos>>, order: seq<string>): (r: seq<Cluster>)
    requires forall i :: 0 <= i < |order| ==> HasNode(infos, order[i])
    ensures |r| == |order|
  {
    seq(|order|, i requires 0 <= i < |order| && HasNode(infos, order[i]) => Report(infos[order[i]].value))
  }

  /** order is a way to visit the infos that have a node, each once. */
  ghost predicate Visits(infos: map<string, Option<NodeInfos>>, order: seq<string>) {
    && NoDup(order) && (forall i :: 0 <= i < |order| ==> HasNode(infos, order[i]))
    && forall k :: HasNode(infos, k) ==> k in order
  }

  ghost predicate BuiltInOrder(infos: map<string, Option<NodeInfos>>, order: seq<string>, clusters: seq<Cluster>) {
    Visits(infos, order) && clusters == Build(Reports(infos, order))
  }

  /** buildClustersLists, over the infos in any order. */
  method BuildClustersLists(infos: map<string, Option<NodeInfos>>) returns (clusters: seq<Cluster>)
    ensures exists order :: BuiltInOrder(infos, order, clusters)
  {
    clusters := [];
    ghost var order: seq<string> := [];
    var rest := infos.Keys;
    while rest != {}
      invariant rest <= infos.Keys
      invariant NoDup(order) && (forall i :: 0 <= i < |order| ==> HasNode(infos, order[i]) && order[i] !in rest)
      invariant forall k :: HasNode(infos, k) && k !in rest ==> k in order
      invariant clusters == Build(Reports(infos, order))
      decreases rest
    {
      var k :| k in rest;
      rest := rest - {k};
      if HasNode(infos, k) {
        var c := ReportOf(infos[k].value);
        var overlap := OverlapsAny(c, clusters);
        assert Reports(infos, order + [k])[..|order|] == Reports(infos, order);
        if !overlap {
          clusters := clusters + [c];
        }
        order := order + [k];
      }
    }
    assert BuiltInOrder(infos, order, clusters);
  }

  method OverlapsAny(c: Cluster, clusters: seq<Cluster>) returns (overlap: bool)
    ensures overlap <==> Overlaps(c, clusters)
  {
    for i := 0 to |c|
      invariant forall j, k :: 0 <= j < i && 0 <= k < |clusters| ==> c[j] !in clusters[k]
    {
      var found := FindInCluster(c[i], clusters);
      if found {
        ghost var k :| 0 <= k < |clusters| && c[i] in clusters[k];
        assert c[i] in c;
        return true;
      }
    }
    return false;
  }

  // ---------- what the clusters are ----------

  /** However the reports overlap, the clusters do not. */
  lemma {:induction false} ClustersAreDisjoint(reports: seq<Cluster>)
    ensures PairwiseDisjoint(Build(reports))
  {
    if reports != [] {
      ClustersAreDisjoint(reports[..|reports| - 1]);
    }
  }

  /** Every cluster was reported, and every report has something in common with a cluster unless it is empty. */
  lemma {:induction false} ClustersCoverReports(reports: seq<Cluster>)
    ensures forall i :: 0 <= i < |Build(reports)| ==> Build(reports)[i] in reports
    ensures forall i :: 0 <= i < |reports| && reports[i] != [] ==> Overlaps(reports[i], Build(reports))
  {
    if reports != [] {
      var m := |reports| - 1;
      var before, after := Build(reports[..m]), Build(reports);
      ClustersCoverReports(reports[..m]);
      forall i | 0 <= i < |after| ensures after[i] in reports {
        if i < |before| {
          assert after[i] in reports[..m];
        }
      }
      forall i | 0 <= i < |reports| && reports[i] != [] ensures Overlaps(reports[i], after) {
        if i < m {
          assert reports[..m][i] == reports[i];
          var k, a :| 0 <= k < |before| && a in before[k] && a in reports[i];
          assert a in after[k];
        } else if !Overlaps(reports[m], before) {
          assert reports[m][0] in after[|before|];
        }
      }
    }
  }

  /** Every node sees its whole component: two reports name the same nodes, or have none in common. */
  ghost predicate Consistent(reports: seq<Cluster>) {
    forall i, j, a :: 0 <= i < |reports| && 0 <= j < |reports| && a in reports[i] && a in reports[j] ==>
      ToSet(reports[i]) == ToSet(reports[j])
  }

  /** The non-empty components that are reported. */
  ghost function Components(reports: seq<Cluster>): set<set<Address>> {
    set i | 0 <= i < |reports| && reports[i] != [] :: ToSet(reports[i])
  }

  ghost function EmptyOnes(reports: seq<Cluster>): nat {
    if reports == [] then 0
    else EmptyOnes(reports[..|reports| - 1]) + if reports[|reports| - 1] == [] then 1 else 0
  }

  lemma ComponentsOneMore(reports: seq<Cluster>, c: Cluster)
    ensures Components(reports + [c]) == Components(reports) + if c == [] then {} else {ToSet(c)}
  {
    var more := reports + [c];
    forall S ensures S in Components(more) <==> S in Components(reports) || (c != [] && S == ToSet(c)) {
      if S in Components(reports) {
        var i :| 0 <= i < |reports| && reports[i] != [] && ToSet(reports[i]) == S;
        assert more[i] == reports[i];
      }
      if c != [] && S == ToSet(c) {
        assert more[|reports|] == c;
      }
      if S in Components(more) {
        var i :| 0 <= i < |more| && more[i] != [] && ToSet(more[i]) == S;
        assert i < |reports| ==> more[i] == reports[i];
      }
    }
  }

  /** A consistent report overlaps with the clusters exactly when its component is among them. */
  lemma OverlapMeansKnown(reports: seq<Cluster>, clusters: seq<Cluster>, c: Cluster)
    requires Consistent(reports) && c in reports && forall i :: 0 <= i < |clusters| ==> clusters[i] in reports
    ensures Overlaps(c, clusters) <==> c != [] && ToSet(c) in Components(clusters)
  {
    if Overlaps(c, clusters) {
      var i, a :| 0 <= i < |clusters| && a in clusters[i] && a in c;
      assert ToSet(clusters[i]) == ToSet(c);
    }
    if c != [] && ToSet(c) in Components(clusters) {
      var i :| 0 <= i < |clusters| && clusters[i] != [] && ToSet(clusters[i]) == ToSet(c);
      assert c[0] in ToSet(clusters[i]);
    }
  }

  /** clusters are the components of reports, each once, and their empty reports. */
  ghost predicate AreComponents(clusters: seq<Cluster>, reports: seq<Cluster>) {
    && Components(clusters) == Components(reports) && EmptyOnes(clusters) == EmptyOnes(reports)
    && |clusters| == |Components(reports)| + EmptyOnes(reports)
  }

  lemma EmptyOnesOneMore(reports: seq<Cluster>, c: Cluster)
    ensures EmptyOnes(reports + [c]) == EmptyOnes(reports) + if c == [] then 1 else 0
  {
    assert (reports + [c])[..|reports|] == reports;
  }

  lemma ComponentsStep(clusters: seq<Cluster>, reports: seq<Cluster>, c: Cluster)
    requires AreComponents(clusters, reports)
    ensures c != [] && ToSet(c) in Components(clusters) ==> AreComponents(clusters, reports + [c])
    ensures !(c != [] && ToSet(c) in Components(clusters)) ==> AreComponents(clusters + [c], reports + [c])
  {
    ComponentsOneMore(reports, c);
    ComponentsOneMore(clusters, c);
    EmptyOnesOneMore(reports, c);
    EmptyOnesOneMore(clusters, c);
  }

  lemma ConsistentPrefix(reports: seq<Cluster>)
    requires Consistent(reports) && reports != []
    ensures Consistent(reports[..|reports| - 1])
  {
  }

  /** The last report overlaps with the clusters before it exactly when its component is among them. */
  lemma LastOverlaps(reports: seq<Cluster>)
    requires Consistent(reports) && reports != []
    ensures var c, before := reports[|reports| - 1], Build(reports[..|reports| - 1]);
            Overlaps(c, before) <==> c != [] && ToSet(c) in Components(before)
  {
    var m := |reports| - 1;
    var before := Build(reports[..m]);
    ClustersCoverReports(reports[..m]);
    forall i | 0 <= i < |before| ensures before[i] in reports {
      assert before[i] in reports[..m];
    }
    OverlapMeansKnown(reports, before, reports[m]);
  }

  /**
   * With consistent reports the clusters are exactly the components, each once, whatever the
   * order; but every report without a healthy node adds an empty cluster.
   */
  lemma {:induction false} ClustersAreComponents(reports: seq<Cluster>)
    requires Consistent(reports)
    ensures AreComponents(Build(reports), reports)
  {
    if reports != [] {
      var m := |reports| - 1;
      ConsistentPrefix(reports);
      ClustersAreComponents(reports[..m]);
      LastOverlaps(reports);
      ComponentsStep(Build(reports[..m]), reports[..m], reports[m]);
      assert reports == reports[..m] + [reports[m]];
    }
  }

  /** The infos the report of which names no healthy node. */
  ghost function EmptyKeys(infos: map<string, Option<NodeInfos>>, order: seq<string>): set<string> {
    set k | k in order && HasNode(infos, k) && Report(infos[k].value) == []
  }

  lemma EmptyKeysOneMore(infos: map<string, Option<NodeInfos>>, order: seq<string>, k: string)
    requires k !in order && HasNode(infos, k)
    ensures |EmptyKeys(infos, order + [k])| == |EmptyKeys(infos, order)| + if Report(infos[k].value) == [] then 1 else 0
  {
    assert EmptyKeys(infos, order + [k]) == EmptyKeys(infos, order) + if Report(infos[k].value) == [] then {k} else {};
  }

  lemma {:induction false} EmptyKeysCount(infos: map<string, Option<NodeInfos>>, order: seq<string>)
    requires NoDup(order) && forall i :: 0 <= i < |order| ==> HasNode(infos, order[i])
    ensures EmptyOnes(Reports(infos, order)) == |EmptyKeys(infos, order)|
  {
    if order != [] {
      var m := |order| - 1;
      var before, k := order[..m], order[m];
      EmptyKeysCount(infos, before);
      EmptyKeysOneMore(infos, before, k);
      EmptyOnesOneMore(Reports(infos, before), Report(infos[k].value));
      assert order == before + [k];
      assert Reports(infos, order) == Reports(infos, before) + [Report(infos[k].value)];
    }
  }

  lemma SameReports(infos: map<string, Option<NodeInfos>>, order: seq<string>, order': seq<string>, i: nat) returns (j: nat)
    requires Visits(infos, order) && Visits(infos, order') && i < |order|
    ensures j < |order'| && order'[j] == order[i] && Reports(infos, order')[j] == Reports(infos, order)[i]
  {
    assert HasNode(infos, order[i]);
    j :| 0 <= j < |order'| && order'[j] == order[i];
  }

  lemma SomeComponents(infos: map<string, Option<NodeInfos>>, order: seq<string>, order': seq<string>)
    requires Visits(infos, order) && Visits(infos, order')
    ensures Components(Reports(infos, order)) <= Components(Reports(infos, order'))
    ensures EmptyKeys(infos, order) <= EmptyKeys(infos, order')
  {
    var r, r' := Reports(infos, order), Reports(infos, order');
    forall S | S in Components(r) ensures S in Components(r') {
      var i :| 0 <= i < |r| && r[i] != [] && ToSet(r[i]) == S;
      var j := SameReports(infos, order, order', i);
      assert ToSet(r'[j]) == S;
    }
  }

  /** With consistent reports the order in which the infos are visited does not matter. */
  lemma OrderIsIrrelevant(infos: map<string, Option<NodeInfos>>, order: seq<string>, order': seq<string>)
    requires Visits(infos, order) && Visits(infos, order') && Consistent(Reports(infos, order))
    ensures Components(Build(Reports(infos, order))) == Components(Build(Reports(infos, order')))
    ensures |Build(Reports(infos, order))| == |Build(Reports(infos, order'))|
  {
    var r, r' := Reports(infos, order), Reports(infos, order');
    forall i, j, a | 0 <= i < |r'| && 0 <= j < |r'| && a in r'[i] && a in r'[j] ensures ToSet(r'[i]) == ToSet(r'[j]) {
      var k := SameReports(infos, order', order, i);
      var l := SameReports(infos, order', order, j);
      assert a in r[k] && a in r[l];
    }
    ClustersAreComponents(r);
    ClustersAreComponents(r');
    SomeComponents(infos, order, order');
    SomeComponents(infos, order', order);
    EmptyKeysCount(infos, order);
    EmptyKeysCount(infos, order');
    assert EmptyKeys(infos, order) == EmptyKeys(infos, order');
  }

  lemma {:induction false} FirstIsKept(reports: seq<Cluster>)
    requires reports != []
    ensures Build(reports) != [] && Build(reports)[0] == reports[0]
  {
    if |reports| > 1 {
      FirstIsKept(reports[..|reports| - 1]);
    } else {
      assert reports[..0] == [];
    }
  }

  lemma OverlappingAreSame(reports: seq<Cluster>, S: set<Address>, T: set<Address>, a: Address)
    requires S in Components(Build(reports)) && T in Components(Build(reports)) && a in S && a in T
    ensures S == T
  {
    var clusters := Build(reports);
    ClustersAreDisjoint(reports);
    var i :| 0 <= i < |clusters| && clusters[i] != [] && ToSet(clusters[i]) == S;
    var j :| 0 <= j < |clusters| && clusters[j] != [] && ToSet(clusters[j]) == T;
    assert a in clusters[i] && a in clusters[j];
    assert !(i < j) && !(j < i);
  }

  /** Any of the infos may be visited first. */
  lemma VisitFirst(infos: map<string, Option<NodeInfos>>, order: seq<string>, i: nat) returns (order': seq<string>)
    requires Visits(infos, order) && i < |order|
    ensures Visits(infos, order') && order' != [] && order'[0] == order[i]
  {
    order' := order[i := order[0]][0 := order[i]];
    forall k | HasNode(infos, k) ensures k in order' {
      var j :| 0 <= j < |order| && order[j] == k;
      assert order'[if j == i then 0 else if j == 0 then i else j] == k;
    }
  }

  /** A component that is reported first is found. */
  lemma ComponentFound(infos: map<string, Option<NodeInfos>>, order: seq<string>, i: nat) returns (order': seq<string>)
    requires Visits(infos, order) && i < |order| && Reports(infos, order)[i] != []
    ensures Visits(infos, order') && ToSet(Reports(infos, order)[i]) in Components(Build(Reports(infos, order')))
  {
    order' := VisitFirst(infos, order, i);
    FirstIsKept(Reports(infos, order'));
    assert Build(Reports(infos, order'))[0] == Reports(infos, order)[i];
  }

  ghost predicate SameComponents(infos: map<string, Option<NodeInfos>>, o: seq<string>, o': seq<string>) {
    Visits(infos, o) && Visits(infos, o') ==> Components(Build(Reports(infos, o))) == Components(Build(Reports(infos, o')))
  }

  /** The clusters found do not depend on the order if and only if every report is a whole component. */
  lemma OrderIsIrrelevantExactly(infos: map<string, Option<NodeInfos>>, order: seq<string>)
    requires Visits(infos, order)
    ensures Consistent(Reports(infos, order)) <==> forall o, o' :: SameComponents(infos, o, o')
  {
    var r := Reports(infos, order);
    if Consistent(r) {
      forall o, o' | Visits(infos, o) && Visits(infos, o') ensures SameComponents(infos, o, o') {
        OrderIsIrrelevant(infos, order, o);
        OrderIsIrrelevant(infos, order, o');
      }
    }
    if forall o, o' :: SameComponents(infos, o, o') {
      forall i, j, a | 0 <= i < |r| && 0 <= j < |r| && a in r[i] && a in r[j] ensures ToSet(r[i]) == ToSet(r[j]) {
        var o := ComponentFound(infos, order, i);
        var o' := ComponentFound(infos, order, j);
        assert SameComponents(infos, o, o');
        OverlappingAreSame(Reports(infos, o), ToSet(r[i]), ToSet(r[j]), a);
      }
    }
  }

  function Sees(a: Address, b: Address): Option<NodeInfos> {
    Some(NodeInfos(Some(Seen(a, [])), [Seen(b, [])]))
  }

  /** Even the verdict depends on it: of three nodes that each see the next one, visiting the middle one first hides the split. */
  lemma OrderDecidesOnPartialViews(a: Address, b: Address, c: Address, d: Address)
    requires NoDup([a, b, c, d])
    ensures var infos := map[a := Sees(a, b), b := Sees(b, c), c := Sees(c, d)];
      && Visits(infos, [a, b, c]) && |Build(Reports(infos, [a, b, c]))| == 2
      && Visits(infos, [b, a, c]) && |Build(Reports(infos, [b, a, c]))| == 1
  {
    assert [a, b, c, d][0] != [a, b, c, d][1] && [a, b, c, d][0] != [a, b, c, d][2] && [a, b, c, d][0] != [a, b, c, d][3];
    assert [a, b, c, d][1] != [a, b, c, d][2] && [a, b, c, d][1] != [a, b, c, d][3] && [a, b, c, d][2] != [a, b, c, d][3];
    var infos := map[a := Sees(a, b), b := Sees(b, c), c := Sees(c, d)];
    SeesReport(a, b);
    SeesReport(b, c);
    SeesReport(c, d);
    assert Reports(infos, [a, b, c]) == [[b, a], [c, b], [d, c]];
    assert Reports(infos, [b, a, c]) == [[c, b], [b, a], [d, c]];
    BuildOnPartialViews(a, b, c, d);
  }

  lemma SeesReport(a: Address, b: Address)
    ensures Report(Sees(a, b).value) == [b, a]
  {
    var seen := [Seen(b, [])] + [Seen(a, [])];
    assert seen[..1] == [Seen(b, [])] && seen[..1][..0] == [];
    assert Healthy(seen[..1][..0]) == [];
    assert Healthy(seen[..1]) == [b];
    assert Healthy(seen) == [b, a];
  }

  lemma BuildOnPartialViews(a: Address, b: Address, c: Address, d: Address)
    requires a != b && a != c && a != d && b != c && b != d && c != d
    ensures |Build([[b, a], [c, b], [d, c]])| == 2 && |Build([[c, b], [b, a], [d, c]])| == 1
  {
    var x, y := [[b, a], [c, b], [d, c]], [[c, b], [b, a], [d, c]];
    assert x[..2] == [[b, a], [c, b]] && x[..2][..1] == [[b, a]] && x[..1][..0] == [];
    assert y[..2] == [[c, b], [b, a]] && y[..2][..1] == [[c, b]] && y[..1][..0] == [];
    assert Build([[b, a]]) == [[b, a]] && Build([[c, b]]) == [[c, b]];
    assert b in [[b, a]][0] && b in [c, b];
    assert Build([[b, a], [c, b]]) == [[b, a]];
    assert b in [[c, b]][0] && b in [b, a];
    assert Build([[c, b], [b, a]]) == [[c, b]];
    assert c in [[c, b]][0] && c in [d, c];
  }

  // ---------- splitMainCluster ----------

  /** i is the first among the longest. */
  ghost predicate FirstLongest(clusters: seq<Cluster>, i: nat) {
    && i < |clusters| && (forall j :: 0 <= j < |clusters| ==> |clusters[j]| <= |clusters[i]|)
    && (forall j :: 0 <= j < i ==> |clusters[j]| < |clusters[i]|)
  }

  /**
   * splitMainCluster: the first of the largest clusters, and all the others; if no cluster has
   * a node, the first one, and none of the others.
   */
  method SplitMainCluster(clusters: seq<Cluster>) returns (main: Cluster, others: seq<Cluster>, ghost at: nat)
    ensures clusters == [] ==> main == [] && others == []
    ensures clusters != [] ==> FirstLongest(clusters, at) && main == clusters[at]
    ensures main != [] ==> others == Without(clusters, at)
    ensures clusters != [] && main == [] ==> at == 0 && others == []
  {
    if |clusters| == 0 {
      return [], [], 0;
    }
    var mainCluster, maxSize := -1, 0;
    for i := 0 to |clusters|
      invariant -1 <= mainCluster < i
      invariant mainCluster == -1 ==> maxSize == 0
      invariant mainCluster != -1 ==> maxSize == |clusters[mainCluster]| > 0
      invariant forall j :: 0 <= j < i ==> |clusters[j]| <= maxSize
      invariant forall j :: 0 <= j < mainCluster ==> |clusters[j]| < maxSize
    {
      if |clusters[i]| > maxSize {
        maxSize := |clusters[i]|;
        mainCluster := i;
      }
    }
    if mainCluster != -1 {
      return clusters[mainCluster], clusters[..mainCluster] + clusters[mainCluster + 1..], mainCluster;
    }
    return clusters[0], [], 0;
  }

  datatype Verdict = NoSplit | Elected(main: Cluster, bad: seq<Cluster>) | NoMainCluster

  /**
   * FixClusterSplit up to the reconfiguration: with consistent reports a largest component is
   * elected, and its nodes are in none of the clusters that are going to be reset.
   */
  method ElectMainCluster(infos: map<string, Option<NodeInfos>>) returns (v: Verdict, ghost reports: seq<Cluster>)
    ensures exists order :: Visits(infos, order) && reports == Reports(infos, order)
    ensures Consistent(reports) ==> (v.NoSplit? <==> |Components(reports)| + EmptyOnes(reports) <= 1)
    ensures v.Elected? ==> v.main in reports && v.main != [] && forall c, a :: c in v.bad && a in c ==> a !in v.main
    ensures v.Elected? ==> forall i :: 0 <= i < |reports| ==> Overlaps(reports[i], [v.main] + v.bad) || reports[i] == []
    ensures v.Elected? ==> forall c :: c in v.bad ==> |c| <= |v.main|
    ensures v.NoMainCluster? ==> forall i :: 0 <= i < |reports| ==> reports[i] == []
  {
    var clusters := BuildClustersLists(infos);
    ghost var order :| BuiltInOrder(infos, order, clusters);
    reports := Reports(infos, order);
    if Consistent(reports) {
      ClustersAreComponents(reports);
    }
    if |clusters| <= 1 {
      return NoSplit, reports;
    }
    var main, bad;
    ghost var at;
    main, bad, at := SplitMainCluster(clusters);
    MainClusterFacts(reports, clusters, at);
    if |main| == 0 {
      return NoMainCluster, reports;
    }
    return Elected(main, bad), reports;
  }

  ghost function Without(clusters: seq<Cluster>, at: nat): seq<Cluster>
    requires at < |clusters|
  {
    clusters[..at] + clusters[at + 1..]
  }

  lemma WithoutMembers(clusters: seq<Cluster>, at: nat, c: Cluster) returns (i: nat)
    requires at < |clusters| && c in Without(clusters, at)
    ensures i < |clusters| && i != at && clusters[i] == c
  {
    var k :| 0 <= k < |Without(clusters, at)| && Without(clusters, at)[k] == c;
    i := if k < at then k else k + 1;
  }

  lemma MainClusterFacts(reports: seq<Cluster>, clusters: seq<Cluster>, at: nat)
    requires clusters == Build(reports) && FirstLongest(clusters, at)
    ensures clusters[at] in reports
    ensures clusters[at] == [] ==> forall i :: 0 <= i < |reports| ==> reports[i] == []
    ensures forall c, a :: c in Without(clusters, at) && a in c ==> a !in clusters[at]
    ensures forall i :: 0 <= i < |reports| && reports[i] != [] ==> Overlaps(reports[i], [clusters[at]] + Without(clusters, at))
    ensures forall c :: c in Without(clusters, at) ==> |c| <= |clusters[at]|
  {
    ClustersAreDisjoint(reports);
    ClustersCoverReports(reports);
    forall i | 0 <= i < |reports| && reports[i] != [] ensures Overlaps(reports[i], [clusters[at]] + Without(clusters, at)) {
      OverlapsRearranged(reports[i], clusters, at);
    }
    forall c | c in Without(clusters, at) ensures |c| <= |clusters[at]| && forall a :: a in c ==> a !in clusters[at] {
      var i := WithoutMembers(clusters, at, c);
      assert i < at || at < i;
    }
    if clusters[at] == [] {
      forall i | 0 <= i < |reports| ensures reports[i] == [] {
        assert !Overlaps(reports[i], clusters);
      }
    }
  }

  lemma OverlapsRearranged(c: Cluster, clusters: seq<Cluster>, at: nat)
    requires at < |clusters| && Overlaps(c, clusters)
    ensures Overlaps(c, [clusters[at]] + Without(clusters, at))
  {
    var k, a :| 0 <= k < |clusters| && a in clusters[k] && a in c;
    var all := [clusters[at]] + Without(clusters, at);
    assert all[if k == at then 0 else if k < at then k + 1 else k] == clusters[k];
  }
}
