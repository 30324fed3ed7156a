/**
 * The admin client of pkg/redisutil/admin.go. Every command it issues may fail: refused by
 * Redis, lost on the way, or carried out but not acknowledged. hist records the world after
 * every single command, so that what holds of all its members holds wherever the operator
 * is interrupted. A reliable client is one whose commands fail only when Redis refuses them;
 * a steady client is one that may lose, besides, GETKEYSINSLOT and MIGRATE.
 */
module AdminClient {
  import opened Basics
  import opened SlotLists
  import opened RedisWorld
  import opened Nodes

  /** The number of keys of the given slots at a. */
  ghost function KeyTotal(w: World, a: Id, slots: seq<Slot>): nat {
    if slots == [] then 0 else KeyTotal(w, a, slots[..|slots| - 1]) + |Data(w, a, slots[|slots| - 1])|
  }

  /** S are the slots for which the command took effect; Redis accepts it for each of them. */
  ghost predicate SetSome(w: World, h: World, a: Id, action: Action, slots: seq<Slot>, id: Id, S: set<Slot>) {
    S <= ToSet(slots) && h == SetAll(w, a, action, S, id) && forall s :: s in S ==> Accepts(w, SetSlot(a, action, s, id))
  }

  /** All commands for S that are accepted were carried out. */
  ghost predicate AcceptedAmong(w: World, a: Id, action: Action, S: set<Slot>, id: Id, applied: set<Slot>) {
    forall s :: s in S && Accepts(w, SetSlot(a, action, s, id)) ==> s in applied
  }

  ghost predicate SomeSet(w: World, h: World, a: Id, action: Action, slots: seq<Slot>, id: Id) {
    exists S: set<Slot> :: SetSome(w, h, a, action, slots, id, S)
  }

  lemma AcceptedOneMore(w: World, a: Id, action: Action, S: set<Slot>, id: Id, applied: set<Slot>, s: Slot, took: bool)
    requires AcceptedAmong(w, a, action, S, id, applied) && (Accepts(w, SetSlot(a, action, s, id)) ==> took)
    ensures AcceptedAmong(w, a, action, S + {s}, id, if took then applied + {s} else applied)
  {
  }

  ghost predicate AllSomeSet(w: World, hist: seq<World>, from: nat, a: Id, action: Action, slots: seq<Slot>, id: Id) {
    forall j :: from <= j < |hist| ==> SomeSet(w, hist[j], a, action, slots, id)
  }

  lemma SomeSetOnwards(w: World, h: seq<World>, v: World, from: nat, a: Id, action: Action, slots: seq<Slot>, id: Id, S: set<Slot>)
    requires AllSomeSet(w, h, from, a, action, slots, id) && SetSome(w, v, a, action, slots, id, S)
    ensures AllSomeSet(w, h + [v], from, a, action, slots, id)
  {
  }

  class Admin {
    const reliable: bool
    const steady: bool
    var world: World
    ghost var hist: seq<World>

    constructor (w: World, reliable: bool, steady: bool)
      ensures world == w && hist == [w] && this.reliable == reliable && this.steady == steady
    {
      world, hist := w, [w];
      this.reliable, this.steady := reliable, steady;
    }

    /** A command that does not fail unless Redis refuses it. */
    predicate Certain(c: Cmd) {
      reliable || (steady && !c.Migrate?)
    }

    /** One command, with every outcome a client may meet. */
    method Issue(c: Cmd) returns (ok: bool)
      modifies this
      ensures hist == old(hist) + [world]
      ensures ok ==> Accepts(old(world), c) && world == Effect(old(world), c)
      ensures !ok ==> Failed(old(world), c, world)
      ensures Certain(c) && Accepts(old(world), c) ==> ok
    {
      ok := Accepts(world, c);
      if ok {
        var acknowledged: bool, carriedOut: bool := *, *;
        ok := Certain(c) || acknowledged;
        if ok || carriedOut {
          world := Effect(world, c);
        } else if c.Migrate? {
          var copied: set<Key> :| copied <= c.keys;
          var gone: set<Key> :| gone <= copied;
          world := Transfer(world, c.at, c.dest, c.slot, copied, gone);
        }
      }
      hist := hist + [world];
    }

    /** CLUSTER REPLICATE, and the operator's books when it succeeds. */
    method AttachSlaveToMaster(slave: Node, masterID: Id) returns (ok: bool)
      modifies this, slave`Role, slave`MasterReferent
      ensures hist == old(hist) + [world]
      ensures world == old(world) || (slave.ID in old(world).nodes && world == old(world).(replicaOf := old(world).replicaOf[slave.ID := masterID]))
      ensures ok ==> slave.Role == SlaveRole && slave.MasterReferent == if masterID == "-" then "" else masterID
      ensures !ok ==> slave.Role == old(slave.Role) && slave.MasterReferent == old(slave.MasterReferent)
      ensures ok ==> world == old(world).(replicaOf := old(world).replicaOf[slave.ID := masterID])
      ensures reliable && Accepts(old(world), Replicate(slave.ID, masterID)) ==> ok
    {
      ok := Issue(Replicate(slave.ID, masterID));
      if ok {
        slave.MasterReferent := if masterID == "-" then "" else masterID;
        slave.Role := SlaveRole;
      }
    }

    /**
     * ForgetNode: connected slaves of id are detached and come back as empty masters, and the
     * other nodes forget id. Failures are logged only, so any part of it may stay undone.
     */
    method ForgetNode(id: Id, connected: set<Id>) returns (ghost gone: set<Id>, ghost reset: set<Id>)
      modifies this
      ensures hist == old(hist) + [world]
      ensures gone <= {id} && reset <= Replicas(old(world), id) * connected && world == Forget(old(world), gone, reset)
      ensures reliable || steady ==> gone == {id} && reset == Replicas(old(world), id) * connected
    {
      var forgotten: set<Id>, detached: set<Id> := {id}, Replicas(world, id) * connected;
      if !(reliable || steady) {
        forgotten :| forgotten <= {id};
        detached :| detached <= Replicas(world, id) * connected;
      }
      world := Forget(world, forgotten, detached);
      hist := hist + [world];
      gone, reset := forgotten, detached;
    }

    method SetSlot(addr: Id, action: Action, slot: Slot, nodeID: Id) returns (ok: bool, ghost took: bool)
      modifies this
      ensures hist == old(hist) + [world]
      ensures ok ==> took
      ensures took ==> Accepts(old(world), Cmd.SetSlot(addr, action, slot, nodeID))
      ensures world == if took then Effect(old(world), Cmd.SetSlot(addr, action, slot, nodeID)) else old(world)
      ensures (reliable || steady) && Accepts(old(world), Cmd.SetSlot(addr, action, slot, nodeID)) ==> ok
    {
      ghost var c := Cmd.SetSlot(addr, action, slot, nodeID);
      ghost var before := world;
      ok := Issue(Cmd.SetSlot(addr, action, slot, nodeID));
      took := ok || world != before;
    }

    method AddSlots(addr: Id, slots: seq<Slot>) returns (ok: bool)
      modifies this
      ensures slots == [] ==> ok && world == old(world) && hist == old(hist)
      ensures slots != [] ==> hist == old(hist) + [world]
      ensures world == old(world) ||
              (Accepts(old(world), Cmd.AddSlots(addr, slots)) && world == Effect(old(world), Cmd.AddSlots(addr, slots)))
      ensures ok && slots != [] ==> Accepts(old(world), Cmd.AddSlots(addr, slots)) && world == Effect(old(world), Cmd.AddSlots(addr, slots))
      ensures reliable && Accepts(old(world), Cmd.AddSlots(addr, slots)) ==> ok
    {
      if slots == [] {
        return true;
      }
      ok := Issue(Cmd.AddSlots(addr, slots));
    }

    method SetSlots(addr: Id, action: Action, slots: seq<Slot>, nodeID: Id) returns (ok: bool, ghost applied: set<Slot>)
      modifies this
      ensures old(hist) <= hist
      ensures SetSome(old(world), world, addr, action, slots, nodeID, applied)
      ensures AllSomeSet(old(world), hist, |old(hist)|, addr, action, slots, nodeID)
      ensures ok ==> applied == ToSet(slots)
      ensures reliable || steady ==> forall s: Slot :: s in slots && Accepts(old(world), Cmd.SetSlot(addr, action, s, nodeID)) ==> s in applied
      ensures (reliable || steady) && (forall s: Slot :: s in slots ==> Accepts(old(world), Cmd.SetSlot(addr, action, s, nodeID))) ==> ok
    {
      ok, applied := true, {};
      ghost var w0 := world;
      ghost var fine := (reliable || steady) && forall s: Slot :: s in slots ==> Accepts(w0, Cmd.SetSlot(addr, action, s, nodeID));
      SetAllNone(w0, addr, action, nodeID);
      for i := 0 to |slots|
        invariant old(hist) <= hist
        invariant SetSome(w0, world, addr, action, slots[..i], nodeID, applied)
        invariant AllSomeSet(w0, hist, |old(hist)|, addr, action, slots, nodeID)
        invariant ok ==> applied == ToSet(slots[..i])
        invariant reliable || steady ==> AcceptedAmong(w0, addr, action, ToSet(slots[..i]), nodeID, applied)
        invariant fine ==> ok
      {
        ghost var before, h, w1 := applied, hist, world;
        ghost var took;
        var one: bool;
        one, took := SetSlot(addr, action, slots[i], nodeID);
        applied := if took then applied + {slots[i]} else applied;
        ok := ok && one;
        PipelineStep(w0, w1, world, addr, action, slots, i, nodeID, before, took);
        SomeSetOnwards(w0, h, world, |old(hist)|, addr, action, slots, nodeID, applied);
        if reliable || steady {
          AcceptedOneMore(w0, addr, action, ToSet(slots[..i]), nodeID, before, slots[i], took);
        }
      }
      assert slots[..|slots|] == slots;
    }

    /** CLUSTER GETKEYSINSLOT: up to batch of the keys, whichever Redis picks. */
    method GetKeysInSlot(addr: Id, slot: Slot, batch: int) returns (ok: bool, keys: set<Key>)
      ensures ok ==> batch >= 0 && keys <= Data(world, addr, slot).Keys && |keys| == Min(batch, |Data(world, addr, slot)|)
      ensures reliable && batch >= 0 ==> ok
    {
      var answered: bool := *;
      if batch < 0 || !(reliable || answered) {
        return false, {};
      }
      ok, keys := true, {};
      var rest := Data(world, addr, slot).Keys;
      while rest != {} && |keys| < batch
        invariant keys !! rest && keys + rest == Data(world, addr, slot).Keys
        invariant |keys| <= batch && |keys| + |rest| == |Data(world, addr, slot)|
        decreases rest
      {
        var k :| k in rest;
        keys, rest := keys + {k}, rest - {k};
      }
    }

    /** The batches of one slot, until the source lists no key of it any more. */
    method MigrateKeysInSlot(addr: Id, dest: Id, slot: Slot, batch: int, replace: bool) returns (count: nat, ok: bool)
      requires addr != dest
      modifies this
      ensures old(hist) <= hist
      ensures KeysMoved(old(world), world, addr, dest, {slot})
      ensures AllMoved(old(world), hist, |old(hist)|, addr, dest, {slot})
      ensures batch <= 0 ==> world == old(world)
      ensures ok && batch >= 1 ==> Data(world, addr, slot) == map[] && count == |Data(old(world), addr, slot)|
      ensures reliable && batch >= 1 && replace && CanMigrate(old(world), addr, dest, slot) ==> ok
    {
      count := 0;
      ghost var w0 := world;
      while true
        invariant old(hist) <= hist
        invariant KeysMoved(w0, world, addr, dest, {slot})
        invariant AllMoved(w0, hist, |old(hist)|, addr, dest, {slot})
        invariant batch <= 0 ==> world == w0
        invariant count + |Data(world, addr, slot)| == |Data(w0, addr, slot)|
        decreases |Data(world, addr, slot)|
      {
        var answered, keys := GetKeysInSlot(addr, slot, batch);
        if !answered {
          return count, false;
        }
        count := count + |keys|;
        if keys == {} {
          return count, true;
        }
        ghost var w1, h := world, hist;
        var done := Issue(Migrate(addr, dest, slot, keys, replace));
        MigrateKeepsKeys(w0, w1, world, Migrate(addr, dest, slot, keys, replace), done);
        MovedOneMore(w0, h, world, |old(hist)|, addr, dest, {slot});
        if !done {
          return count, false;
        }
        SizeWithout(Data(w1, addr, slot), keys);
      }
    }

    method MigrateKeys(addr: Id, dest: Id, slots: seq<Slot>, batch: int, replace: bool) returns (count: nat, ok: bool)
      requires addr != dest
      modifies this
      ensures old(hist) <= hist
      ensures KeysMoved(old(world), world, addr, dest, ToSet(slots))
      ensures AllMoved(old(world), hist, |old(hist)|, addr, dest, ToSet(slots))
      ensures ok && batch >= 1 ==> forall s :: s in slots ==> Data(world, addr, s) == map[]
      ensures ok && batch >= 1 && NoDup(slots) ==> count == KeyTotal(old(world), addr, slots)
      ensures reliable && batch >= 1 && replace && (forall s: Slot :: s in slots ==> CanMigrate(old(world), addr, dest, s)) ==> ok
    {
      count := 0;
      ghost var w0 := world;
      for i := 0 to |slots|
        invariant old(hist) <= hist
        invariant KeysMoved(w0, world, addr, dest, ToSet(slots[..i]))
        invariant AllMoved(w0, hist, |old(hist)|, addr, dest, ToSet(slots))
        invariant batch >= 1 ==> forall s :: s in slots[..i] ==> Data(world, addr, s) == map[]
        invariant batch >= 1 && NoDup(slots) ==> count == KeyTotal(w0, addr, slots[..i])
      {
        ghost var w1, h1 := world, hist;
        assert slots[..i + 1] == slots[..i] + [slots[i]];
        assert ToSet(slots[..i + 1]) == ToSet(slots[..i]) + {slots[i]};
        var c, done := MigrateKeysInSlot(addr, dest, slots[i], batch, replace);
        KeysMovedTransitive(w0, w1, world, addr, dest, ToSet(slots[..i]), {slots[i]});
        MovedOnwards(w0, w1, h1, hist, |old(hist)|, addr, dest, slots, i);
        count := count + c;
        if !done {
          KeysMovedWiden(w0, world, addr, dest, ToSet(slots[..i + 1]), ToSet(slots));
          return count, false;
        }
      }
      assert slots[..|slots|] == slots;
      return count, true;
    }
  }

  ghost predicate AllMoved(w0: World, hist: seq<World>, from: nat, src: Id, dst: Id, S: set<Slot>) {
    forall j :: from <= j < |hist| ==> KeysMoved(w0, hist[j], src, dst, S)
  }

  lemma MovedOneMore(w0: World, h: seq<World>, v: World, from: nat, src: Id, dst: Id, S: set<Slot>)
    requires AllMoved(w0, h, from, src, dst, S) && KeysMoved(w0, v, src, dst, S)
    ensures AllMoved(w0, h + [v], from, src, dst, S)
  {
  }

  /** The history of moving the keys of one slot more. */
  lemma MovedOnwards(w0: World, w1: World, h1: seq<World>, hist: seq<World>, from: nat, src: Id, dst: Id, slots: seq<Slot>, i: nat)
    requires src != dst && i < |slots| && from <= |h1| && h1 <= hist && AllMoved(w0, h1, from, src, dst, ToSet(slots))
    requires KeysMoved(w0, w1, src, dst, ToSet(slots[..i])) && AllMoved(w1, hist, |h1|, src, dst, {slots[i]})
    ensures AllMoved(w0, hist, from, src, dst, ToSet(slots))
  {
    forall j | from <= j < |hist| ensures KeysMoved(w0, hist[j], src, dst, ToSet(slots)) {
      if j < |h1| {
        assert hist[j] == h1[j];
      } else {
        KeysMovedTransitive(w0, w1, hist[j], src, dst, ToSet(slots[..i]), {slots[i]});
        KeysMovedWiden(w0, hist[j], src, dst, ToSet(slots[..i]) + {slots[i]}, ToSet(slots));
      }
    }
  }

  lemma PipelineStep(w0: World, w1: World, w2: World, a: Id, action: Action, slots: seq<Slot>, i: nat, id: Id, before: set<Slot>, took: bool)
    requires i < |slots| && SetSome(w0, w1, a, action, slots[..i], id, before)
    requires w2 == if took then Effect(w1, SetSlot(a, action, slots[i], id)) else w1
    requires took ==> Accepts(w1, SetSlot(a, action, slots[i], id))
    ensures var applied := if took then before + {slots[i]} else before;
      SetSome(w0, w2, a, action, slots[..i + 1], id, applied) && SetSome(w0, w2, a, action, slots, id, applied)
    ensures ToSet(slots[..i + 1]) == ToSet(slots[..i]) + {slots[i]}
    ensures Accepts(w0, SetSlot(a, action, slots[i], id)) <==> Accepts(w1, SetSlot(a, action, slots[i], id))
  {
    assert slots[..i + 1] == slots[..i] + [slots[i]];
    SetAllStep(w0, a, action, before, id, slots[i]);
    AcceptsInPipeline(w0, a, action, before, id, slots[i]);
    assert before <= ToSet(slots);
  }

  /** One MIGRATE, however it ends. */
  lemma MigrateKeepsKeys(w0: World, w1: World, w2: World, c: Cmd, done: bool)
    requires c.Migrate? && c.at != c.dest
    requires KeysMoved(w0, w1, c.at, c.dest, {c.slot})
    requires if done then Accepts(w1, c) && w2 == Effect(w1, c) else Failed(w1, c, w2)
    ensures KeysMoved(w0, w2, c.at, c.dest, {c.slot})
    ensures done ==> Data(w2, c.at, c.slot) == Data(w1, c.at, c.slot) - c.keys
  {
    TransferMovesKeys(w1, c.at, c.dest, c.slot, c.keys, c.keys);
    if !done && w2 != w1 && w2 != Effect(w1, c) {
      var copied, gone :| gone <= copied <= c.keys && w2 == Transfer(w1, c.at, c.dest, c.slot, copied, gone);
      TransferMovesKeys(w1, c.at, c.dest, c.slot, copied, gone);
    }
    KeysMovedTransitive(w0, w1, w2, c.at, c.dest, {c.slot}, {c.slot});
    assert {c.slot} + {c.slot} == {c.slot};
  }

  lemma SizeWithout(m: Contents, keys: set<Key>)
    requires keys <= m.Keys
    ensures |m - keys| == |m| - |keys|
  {
    assert (m - keys).Keys == m.Keys - keys;
  }

  lemma KeysMovedWiden(w: World, w': World, a: Id, b: Id, S: set<Slot>, T: set<Slot>)
    requires KeysMoved(w, w', a, b, S) && S <= T
    ensures KeysMoved(w, w', a, b, T)
  {
    forall t | t in T
      ensures Data(w', b, t) + Data(w', a, t) == Data(w, b, t) + Data(w, a, t)
      ensures Data(w', a, t).Keys <= Data(w, a, t).Keys
    {
      assert t !in S ==> Data(w', a, t) == Data(w, a, t) && Data(w', b, t) == Data(w, b, t);
    }
  }
}
