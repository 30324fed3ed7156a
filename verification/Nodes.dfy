/** The nodes of pkg/redisutil/node.go as the operator sees and updates them. */
module Nodes {
  import opened Basics
  import opened SlotLists
  import opened RedisWorld
  import Sorting

  datatype Role = MasterRole | SlaveRole | NoRole

  class Node {
    const ID: Id
    const IP: string
    const NodeName: string
    const StatefulSet: string
    var Role: Role
    var MasterReferent: Id
    var Slots: seq<Slot>
    var balance: int

    constructor (id: Id, ip: string, nodeName: string, statefulSet: string, role: Role, referent: Id, slots: seq<Slot>)
      ensures ID == id && IP == ip && NodeName == nodeName && StatefulSet == statefulSet
      ensures Role == role && MasterReferent == referent && Slots == slots
    {
      ID, IP, NodeName, StatefulSet := id, ip, nodeName, statefulSet;
      Role, MasterReferent, Slots, balance := role, referent, slots, 0;
    }

    /** The flag if there is one; else a referent makes a slave and slots make a master. */
    function GetRole(): Role
      reads this
    {
      if Role != NoRole then Role
      else if MasterReferent != "" then SlaveRole
      else if Slots != [] then MasterRole
      else NoRole
    }

    predicate IsMasterWithSlot()
      reads this
    {
      GetRole() == MasterRole && Slots != []
    }
  }

  ghost predicate DistinctNodes(ns: seq<Node>) {
    forall i, j :: 0 <= i < j < |ns| ==> ns[i] != ns[j] && ns[i].ID != ns[j].ID
  }

  /** slots lists, without duplicates, exactly the slots that id serves. */
  ghost predicate Truthful(w: World, id: Id, slots: seq<Slot>) {
    NoDup(slots) && forall s: Slot :: s in slots <==> Claims(w, id, s)
  }

  // ---------- SortByFunc with an integer key ----------

  ghost predicate Ascends(keys: seq<int>) {
    forall i, j :: 0 <= i < j < |keys| ==> keys[i] <= keys[j]
  }

  /** r is ns, and rkeys is keys, rearranged by the permutation perm. */
  ghost predicate Rearranged(ns: seq<Node>, keys: seq<int>, r: seq<Node>, rkeys: seq<int>, perm: seq<int>) {
    && |ns| == |keys| == |r| == |rkeys| == |perm| && NoDup(perm)
    && (forall i :: 0 <= i < |perm| ==> 0 <= perm[i] < |ns| && r[i] == ns[perm[i]] && rkeys[i] == keys[perm[i]])
    && (forall j :: 0 <= j < |ns| ==> j in perm)
  }

  predicate LessKey(a: (int, int), b: (int, int)) {
    a.1 < b.1
  }

  function Enumerate(keys: seq<int>): (ps: seq<(int, int)>)
    ensures |ps| == |keys| && forall i :: 0 <= i < |keys| ==> ps[i] == (i, keys[i])
  {
    seq(|keys|, i requires 0 <= i < |keys| => (i, keys[i]))
  }

  lemma SortedPairs(keys: seq<int>, sorted: seq<(int, int)>)
    requires Sorting.SortedBy(LessKey, sorted) && multiset(sorted) == multiset(Enumerate(keys))
    ensures |sorted| == |keys|
    ensures forall i :: 0 <= i < |sorted| ==> 0 <= sorted[i].0 < |keys| && sorted[i].1 == keys[sorted[i].0]
    ensures forall i, j :: 0 <= i < j < |sorted| ==> sorted[i].0 != sorted[j].0 && sorted[i].1 <= sorted[j].1
  {
    var pairs := Enumerate(keys);
    Sorting.PermutationKeepsMembers(pairs, sorted);
    forall i | 0 <= i < |sorted| ensures 0 <= sorted[i].0 < |keys| && sorted[i].1 == keys[sorted[i].0] {
      assert sorted[i] in ToSet(pairs);
    }
    forall i, j | 0 <= i < j < |sorted| ensures sorted[i].0 != sorted[j].0 && sorted[i].1 <= sorted[j].1 {
      assert sorted[i] != sorted[j] && !LessKey(sorted[j], sorted[i]);
    }
  }

  function Firsts(ps: seq<(int, int)>): (r: seq<int>)
    ensures |r| == |ps| && forall i :: 0 <= i < |r| ==> r[i] == ps[i].0
  {
    seq(|ps|, i requires 0 <= i < |ps| => ps[i].0)
  }

  function Seconds(ps: seq<(int, int)>): (r: seq<int>)
    ensures |r| == |ps| && forall i :: 0 <= i < |r| ==> r[i] == ps[i].1
  {
    seq(|ps|, i requires 0 <= i < |ps| => ps[i].1)
  }

  lemma EveryIndexOccurs(keys: seq<int>, sorted: seq<(int, int)>, j: nat)
    requires Sorting.SortedBy(LessKey, sorted) && multiset(sorted) == multiset(Enumerate(keys)) && j < |keys|
    ensures j in Firsts(sorted)
  {
    Sorting.PermutationKeepsMembers(Enumerate(keys), sorted);
    assert Enumerate(keys)[j] in ToSet(sorted);
    var i :| 0 <= i < |sorted| && sorted[i] == (j, keys[j]);
    assert Firsts(sorted)[i] == j;
  }

  method SortByKey(ns: seq<Node>, keys: seq<int>) returns (r: seq<Node>, rkeys: seq<int>, ghost perm: seq<int>)
    requires |keys| == |ns|
    ensures Ascends(rkeys) && multiset(rkeys) == multiset(keys) && Rearranged(ns, keys, r, rkeys, perm)
  {
    var sorted := Sorting.SortByFunc(Enumerate(keys), LessKey);
    PairsToKeys(Enumerate(keys), keys);
    PairsToKeys(sorted, Seconds(sorted));
    SameKeys(Enumerate(keys), sorted);
    perm, rkeys := Firsts(sorted), Seconds(sorted);
    forall j | 0 <= j < |ns| ensures j in perm {
      EveryIndexOccurs(keys, sorted, j);
    }
    SortedPairs(keys, sorted);
    r := seq(|sorted|, i requires 0 <= i < |sorted| => ns[sorted[i].0]);
  }

  ghost function Keys(ps: seq<(int, int)>): multiset<int> {
    if ps == [] then multiset{} else Keys(ps[..|ps| - 1]) + multiset{ps[|ps| - 1].1}
  }

  lemma {:induction false} PairsToKeys(ps: seq<(int, int)>, keys: seq<int>)
    requires |ps| == |keys| && forall i :: 0 <= i < |ps| ==> ps[i].1 == keys[i]
    ensures Keys(ps) == multiset(keys)
  {
    if ps != [] {
      var m := |ps| - 1;
      PairsToKeys(ps[..m], keys[..m]);
      assert keys == keys[..m] + [keys[m]];
    }
  }

  lemma {:induction false} KeysConcat(ps: seq<(int, int)>, qs: seq<(int, int)>)
    ensures Keys(ps + qs) == Keys(ps) + Keys(qs)
  {
    ConcatLast(ps, qs);
    if qs != [] {
      var init, p := qs[..|qs| - 1], qs[|qs| - 1];
      KeysConcat(ps, init);
      KeysOneMore(ps + init, p);
    }
  }

  lemma KeysOneMore(ps: seq<(int, int)>, p: (int, int))
    ensures Keys(ps + [p]) == Keys(ps) + multiset{p.1}
  {
    assert (ps + [p])[..|ps|] == ps;
  }

  lemma SplitAround<T>(s: seq<T>, k: nat)
    requires k < |s|
    ensures s == (s[..k] + [s[k]]) + s[k + 1..]
  {
  }

  lemma KeysWithout(ps: seq<(int, int)>, k: nat)
    requires k < |ps|
    ensures Keys(ps) == Keys(ps[..k] + ps[k + 1..]) + multiset{ps[k].1}
  {
    SplitAround(ps, k);
    KeysConcat(ps[..k] + [ps[k]], ps[k + 1..]);
    KeysOneMore(ps[..k], ps[k]);
    KeysConcat(ps[..k], ps[k + 1..]);
  }

  lemma PlaceOf(qs: seq<(int, int)>, ps: seq<(int, int)>, x: (int, int)) returns (k: nat)
    requires multiset(ps) == multiset(qs) && x in ps
    ensures k < |qs| && qs[k] == x && |qs| == |ps|
  {
    Sorting.PermutationKeepsMembers(ps, qs);
    assert x in ToSet(qs);
    k :| 0 <= k < |qs| && qs[k] == x;
  }

  lemma {:induction false} SameKeys(ps: seq<(int, int)>, qs: seq<(int, int)>)
    requires multiset(ps) == multiset(qs)
    ensures Keys(ps) == Keys(qs)
  {
    if ps == [] {
      assert |multiset(qs)| == 0;
    } else {
      var m := |ps| - 1;
      var k := PlaceOf(qs, ps, ps[m]);
      KeysWithout(qs, k);
      Sorting.DropLast(ps);
      Sorting.DropAt(qs, k);
      SameKeys(ps[..m], qs[..k] + qs[k + 1..]);
    }
  }
}
