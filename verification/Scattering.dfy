/**
 * Scaling down when commands fail. Every slot that is to move has one goal, and at every moment
 * two sets tell what has happened to it: whether its goal was told and whether its old owner
 * was. That decides who serves the slot, and what is lost when nodes are forgotten.
 */
module Scattering {
  import opened Basics
  import opened SlotLists
  import opened RedisWorld
  import opened BulkMoveProtocol

  type Goals = map<Slot, Id>

  /** Every slot has a goal, if only where it is. */
  ghost predicate GoodGoals(w0: World, goal: Goals) {
    forall t: Slot :: t < w0.n ==> t in goal && goal[t] in w0.nodes
  }

  /** The slots that are to move. */
  ghost predicate Moves(w0: World, goal: Goals, t: Slot)
    requires Sound(w0) && GoodGoals(w0, goal)
  {
    t < w0.n && goal[t] != Owner(w0, t)
  }

  /** h is what w0 has become when the goals of toldTarget and the old owners of toldSource were told. */
  ghost predicate Scattered(w0: World, h: World, goal: Goals, toldTarget: set<Slot>, toldSource: set<Slot>)
    requires Sound(w0) && GoodGoals(w0, goal)
  {
    && h.n == w0.n && h.nodes == w0.nodes && h.replicaOf == w0.replicaOf
    && (forall t :: t in toldTarget || t in toldSource ==> Moves(w0, goal, t))
    && (forall x, t: Slot :: Claims(h, x, t) <==>
          t < w0.n && ((x == Owner(w0, t) && t !in toldSource) || (x == goal[t] && t in toldTarget)))
    && (forall x, t: Slot :: x in w0.nodes && t < w0.n && x != Owner(w0, t) && x != goal[t] ==> Data(h, x, t) == map[])
    && (forall t: Slot :: t < w0.n ==> Data(h, goal[t], t) + Data(h, Owner(w0, t), t) == Data(w0, Owner(w0, t), t))
    && (forall t :: t in toldSource ==> Data(h, Owner(w0, t), t) == map[])
  }

  ghost predicate SomehowScattered(w0: World, h: World, goal: Goals)
    requires Sound(w0) && GoodGoals(w0, goal)
  {
    exists toldTarget, toldSource :: Scattered(w0, h, goal, toldTarget, toldSource)
  }

  lemma NothingScattered(w0: World, goal: Goals)
    requires Sound(w0) && GoodGoals(w0, goal)
    ensures Scattered(w0, w0, goal, {}, {})
  {
    forall x, t: Slot | x in w0.nodes && t < w0.n && x != Owner(w0, t) ensures Data(w0, x, t) == map[] && !Claims(w0, x, t) {
      assert Claims(w0, Owner(w0, t), t);
    }
    forall t: Slot | t < w0.n ensures Data(w0, goal[t], t) + Data(w0, Owner(w0, t), t) == Data(w0, Owner(w0, t), t) {
      assert map[] + Data(w0, Owner(w0, t), t) == Data(w0, Owner(w0, t), t);
    }
  }

  /** The slots of S are on their way from src to dst, and nobody was told of them yet. */
  ghost predicate StillToMove(w0: World, goal: Goals, toldTarget: set<Slot>, toldSource: set<Slot>, src: Id, dst: Id, S: set<Slot>)
    requires Sound(w0) && GoodGoals(w0, goal)
  {
    src != dst && forall t: Slot :: t in S ==> t < w0.n && Owner(w0, t) == src && goal[t] == dst && t !in toldTarget && t !in toldSource
  }

  lemma StillServed(w0: World, w: World, goal: Goals, toldTarget: set<Slot>, toldSource: set<Slot>, src: Id, dst: Id, S: set<Slot>)
    requires Sound(w0) && GoodGoals(w0, goal) && Scattered(w0, w, goal, toldTarget, toldSource)
    requires StillToMove(w0, goal, toldTarget, toldSource, src, dst, S)
    ensures forall x, t: Slot :: t in S ==> (Claims(w, x, t) <==> x == src)
    ensures forall t: Slot :: t in S ==> View(w, src, t) == src && (dst in w.nodes ==> View(w, dst, t) != dst)
  {
    forall t: Slot | t in S ensures Claims(w, src, t) && !Claims(w, dst, t) {
      assert Claims(w0, Owner(w0, t), t);
    }
  }

  /** Who serves what after one more entry of the plan. */
  lemma ClaimsStep(w0: World, w: World, h: World, goal: Goals, toldTarget: set<Slot>, toldSource: set<Slot>, src: Id, dst: Id, S: set<Slot>,
                   T: set<Slot>, U: set<Slot>, x: Id, t: Slot)
    requires Sound(w0) && GoodGoals(w0, goal) && Scattered(w0, w, goal, toldTarget, toldSource)
    requires StillToMove(w0, goal, toldTarget, toldSource, src, dst, S) && BulkAnyhow(w, h, src, dst, S, T, U)
    ensures Claims(h, x, t) <==>
              t < w0.n && ((x == Owner(w0, t) && t !in toldSource + U) || (x == goal[t] && t in toldTarget + T))
  {
    if t in S {
      MovingClaims(w0, w, h, goal, toldTarget, toldSource, src, dst, S, T, U, x, t);
    } else {
      assert t !in T && t !in U;
      assert Claims(h, x, t) <==> Claims(w, x, t);
    }
  }

  lemma MovingClaims(w0: World, w: World, h: World, goal: Goals, toldTarget: set<Slot>, toldSource: set<Slot>, src: Id, dst: Id, S: set<Slot>,
                     T: set<Slot>, U: set<Slot>, x: Id, t: Slot)
    requires Sound(w0) && GoodGoals(w0, goal) && Scattered(w0, w, goal, toldTarget, toldSource)
    requires StillToMove(w0, goal, toldTarget, toldSource, src, dst, S) && BulkAnyhow(w, h, src, dst, S, T, U) && t in S
    ensures Claims(h, x, t) <==> (x == src && t !in toldSource + U) || (x == dst && t in toldTarget + T)
  {
    StillServed(w0, w, goal, toldTarget, toldSource, src, dst, S);
    assert dst in w.nodes && src in w.nodes by {
      assert goal[t] in w0.nodes && Claims(w0, Owner(w0, t), t);
    }
    assert View(w, src, t) == src && View(w, dst, t) != dst;
    if x == src {
      assert Claims(h, src, t) <==> t !in U;
    } else if x == dst {
      assert Claims(h, dst, t) <==> t in T;
    } else {
      assert !Claims(w, x, t);
    }
  }

  lemma DataStep(w0: World, w: World, h: World, goal: Goals, toldTarget: set<Slot>, toldSource: set<Slot>, src: Id, dst: Id, S: set<Slot>,
                 T: set<Slot>, U: set<Slot>, t: Slot)
    requires Sound(w0) && GoodGoals(w0, goal) && Scattered(w0, w, goal, toldTarget, toldSource)
    requires StillToMove(w0, goal, toldTarget, toldSource, src, dst, S) && BulkAnyhow(w, h, src, dst, S, T, U) && t < w0.n
    ensures forall x :: x in w0.nodes && x != Owner(w0, t) && x != goal[t] ==> Data(h, x, t) == map[]
    ensures Data(h, goal[t], t) + Data(h, Owner(w0, t), t) == Data(w0, Owner(w0, t), t)
    ensures t in toldSource + U ==> Data(h, Owner(w0, t), t) == map[]
  {
    StillServed(w0, w, goal, toldTarget, toldSource, src, dst, S);
    forall x | x in w0.nodes && x != Owner(w0, t) && x != goal[t] ensures Data(h, x, t) == map[] {
      assert Data(h, x, t) == Data(w, x, t);
    }
  }

  lemma ScatterStep(w0: World, w: World, h: World, goal: Goals, toldTarget: set<Slot>, toldSource: set<Slot>, src: Id, dst: Id, S: set<Slot>,
                    T: set<Slot>, U: set<Slot>)
    requires Sound(w0) && GoodGoals(w0, goal) && Scattered(w0, w, goal, toldTarget, toldSource)
    requires StillToMove(w0, goal, toldTarget, toldSource, src, dst, S) && BulkAnyhow(w, h, src, dst, S, T, U)
    ensures Scattered(w0, h, goal, toldTarget + T, toldSource + U)
  {
    forall x, t: Slot
      ensures Claims(h, x, t) <==>
        t < w0.n && ((x == Owner(w0, t) && t !in toldSource + U) || (x == goal[t] && t in toldTarget + T))
    {
      ClaimsStep(w0, w, h, goal, toldTarget, toldSource, src, dst, S, T, U, x, t);
    }
    forall t: Slot | t < w0.n
      ensures forall x :: x in w0.nodes && x != Owner(w0, t) && x != goal[t] ==> Data(h, x, t) == map[]
      ensures Data(h, goal[t], t) + Data(h, Owner(w0, t), t) == Data(w0, Owner(w0, t), t)
      ensures t in toldSource + U ==> Data(h, Owner(w0, t), t) == map[]
    {
      DataStep(w0, w, h, goal, toldTarget, toldSource, src, dst, S, T, U, t);
    }
  }

  // ---------- what it means ----------

  /** A slot has no owner exactly when only its old owner was told, two exactly when only its goal was. */
  lemma ScatteredIsServed(w0: World, h: World, goal: Goals, toldTarget: set<Slot>, toldSource: set<Slot>, t: Slot)
    requires Sound(w0) && GoodGoals(w0, goal) && Scattered(w0, h, goal, toldTarget, toldSource) && t < w0.n
    ensures Served(h, t) <==> t in toldTarget || t !in toldSource
    ensures Claims(h, Owner(w0, t), t) && Claims(h, goal[t], t) && goal[t] != Owner(w0, t) <==> t in toldTarget && t !in toldSource
  {
    if t in toldTarget {
      assert Claims(h, goal[t], t);
    } else if t !in toldSource {
      assert Claims(h, Owner(w0, t), t);
    }
  }

  /** No key of w0 is gone. */
  ghost predicate AllKept(w0: World, h: World)
    requires Sound(w0)
  {
    forall t: Slot :: t < w0.n ==> Held(h, t, Data(w0, Owner(w0, t), t))
  }

  /** Whatever commands fail, no key is lost as long as no node is forgotten. */
  lemma ScatteredKeepsAll(w0: World, h: World, goal: Goals, toldTarget: set<Slot>, toldSource: set<Slot>)
    requires Sound(w0) && GoodGoals(w0, goal) && Scattered(w0, h, goal, toldTarget, toldSource)
    ensures AllKept(w0, h)
  {
    forall t: Slot | t < w0.n ensures Held(h, t, Data(w0, Owner(w0, t), t)) {
      assert Claims(w0, Owner(w0, t), t);
      SplitKeysHeld(h, Owner(w0, t), goal[t], t, Data(w0, Owner(w0, t), t));
    }
  }

  /** All that a still stores of t is at b, too. */
  ghost predicate Copied(h: World, a: Id, b: Id, t: Slot) {
    forall k :: k in Data(h, a, t) ==> k in Data(h, b, t) && Data(h, b, t)[k] == Data(h, a, t)[k]
  }

  /** The nodes in gone are no goals, and those in reset neither goals nor old owners. */
  ghost predicate MayLeave(w0: World, goal: Goals, gone: set<Id>, reset: set<Id>)
    requires Sound(w0) && GoodGoals(w0, goal)
  {
    forall t: Slot :: t < w0.n ==> goal[t] !in gone && goal[t] !in reset && Owner(w0, t) !in reset
  }

  lemma KeptSlot(w0: World, h: World, goal: Goals, toldTarget: set<Slot>, toldSource: set<Slot>, gone: set<Id>, reset: set<Id>, t: Slot)
    requires Sound(w0) && GoodGoals(w0, goal) && Scattered(w0, h, goal, toldTarget, toldSource) && MayLeave(w0, goal, gone, reset) && t < w0.n
    ensures Held(Forget(h, gone, reset), t, Data(w0, Owner(w0, t), t)) <==> (Owner(w0, t) in gone ==> Copied(h, Owner(w0, t), goal[t], t))
  {
    var f, a, b, m := Forget(h, gone, reset), Owner(w0, t), goal[t], Data(w0, Owner(w0, t), t);
    assert Claims(w0, a, t);
    assert Data(f, a, t) == Data(h, a, t) && Data(f, b, t) == Data(h, b, t) && m == Data(h, b, t) + Data(h, a, t);
    if a !in gone {
      SplitKeysHeld(f, a, b, t, m);
    } else {
      ForgottenOwner(w0, h, goal, toldTarget, toldSource, gone, reset, t);
    }
  }

  lemma ForgottenOwner(w0: World, h: World, goal: Goals, toldTarget: set<Slot>, toldSource: set<Slot>, gone: set<Id>, reset: set<Id>, t: Slot)
    requires Sound(w0) && GoodGoals(w0, goal) && Scattered(w0, h, goal, toldTarget, toldSource) && MayLeave(w0, goal, gone, reset) && t < w0.n
    requires Owner(w0, t) in gone
    ensures Held(Forget(h, gone, reset), t, Data(w0, Owner(w0, t), t)) <==> Copied(h, Owner(w0, t), goal[t], t)
  {
    var f, a, b, m := Forget(h, gone, reset), Owner(w0, t), goal[t], Data(w0, Owner(w0, t), t);
    assert Data(f, b, t) == Data(h, b, t) && m == Data(h, b, t) + Data(h, a, t);
    forall x | x in f.nodes && x != b ensures Data(f, x, t) == map[] {
      assert x in w0.nodes && x != a;
      assert Data(h, x, t) == map[];
    }
    if Held(f, t, m) {
      forall k | k in Data(h, a, t) ensures k in Data(h, b, t) && Data(h, b, t)[k] == Data(h, a, t)[k] {
        assert k in m && m[k] == Data(h, a, t)[k];
        var x :| x in f.nodes && k in Data(f, x, t) && Data(f, x, t)[k] == m[k];
        assert x == b;
      }
    }
    if Copied(h, a, b, t) {
      forall k | k in m ensures b in f.nodes && k in Data(f, b, t) && Data(f, b, t)[k] == m[k] {
        assert k in Data(h, a, t) ==> m[k] == Data(h, a, t)[k];
      }
    }
  }

  /**
   * What is lost when nodes are forgotten: nothing if and only if all that a forgotten node
   * still stores of a slot it was to give away is at the slot's goal, too.
   */
  lemma NothingLostExactly(w0: World, h: World, goal: Goals, toldTarget: set<Slot>, toldSource: set<Slot>, gone: set<Id>, reset: set<Id>)
    requires Sound(w0) && GoodGoals(w0, goal) && Scattered(w0, h, goal, toldTarget, toldSource) && MayLeave(w0, goal, gone, reset)
    ensures AllKept(w0, Forget(h, gone, reset)) <==>
              forall t: Slot :: t < w0.n && Owner(w0, t) in gone ==> Copied(h, Owner(w0, t), goal[t], t)
  {
    forall t: Slot | t < w0.n
      ensures Held(Forget(h, gone, reset), t, Data(w0, Owner(w0, t), t)) <==> (Owner(w0, t) in gone ==> Copied(h, Owner(w0, t), goal[t], t))
    {
      KeptSlot(w0, h, goal, toldTarget, toldSource, gone, reset, t);
    }
  }

  /** And every slot is served if and only if none was given away by its old owner alone, and no forgotten node was left in charge. */
  lemma ServedAfterExactly(w0: World, h: World, goal: Goals, toldTarget: set<Slot>, toldSource: set<Slot>, gone: set<Id>, reset: set<Id>, t: Slot)
    requires Sound(w0) && GoodGoals(w0, goal) && Scattered(w0, h, goal, toldTarget, toldSource) && MayLeave(w0, goal, gone, reset) && t < w0.n
    ensures Served(Forget(h, gone, reset), t) <==> t in toldTarget || (t !in toldSource && Owner(w0, t) !in gone)
  {
    var f := Forget(h, gone, reset);
    forall x ensures Claims(f, x, t) <==> Claims(h, x, t) && x !in gone {
      if x !in reset {
        assert View(f, x, t) == View(h, x, t);
      } else {
        assert !Claims(h, x, t);
        assert View(f, x, t) == NOBODY;
      }
    }
    if t in toldTarget {
      assert Claims(f, goal[t], t);
    } else if t !in toldSource && Owner(w0, t) !in gone {
      assert Claims(f, Owner(w0, t), t);
    }
  }
}
