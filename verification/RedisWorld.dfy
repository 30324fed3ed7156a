/**
 * The part of a Redis cluster the operator acts on: what every node believes about the
 * owner of every slot, the keys each master stores per slot, open slots and replicas.
 * The commands follow the Redis Cluster Specification, sections "Live reconfiguration"
 * and "ASK redirection", and the conditions under which Redis refuses them.
 */
module RedisWorld {
  import opened Basics
  import opened SlotLists

  type Id = string
  type Key = string
  type Value = string
  type Contents = map<Key, Value>

  /**
   * n is the number of slots, view[(a, s)] the node that a believes to own slot s,
   * data[(a, s)] the keys of s stored at a, importing and migrating the open slots,
   * and replicaOf the master of each node that is a replica.
   */
  datatype World = World(
    n: Slot,
    nodes: set<Id>,
    view: map<(Id, Slot), Id>,
    data: map<(Id, Slot), Contents>,
    importing: map<(Id, Slot), Id>,
    migrating: map<(Id, Slot), Id>,
    replicaOf: map<Id, Id>)

  const NOBODY: Id := ""

  function View(w: World, a: Id, s: Slot): Id {
    if (a, s) in w.view then w.view[(a, s)] else NOBODY
  }

  function Data(w: World, a: Id, s: Slot): Contents {
    if (a, s) in w.data then w.data[(a, s)] else map[]
  }

  /** a believes that it owns s itself: it serves the slot. */
  predicate Claims(w: World, a: Id, s: Slot) {
    a in w.nodes && View(w, a, s) == a
  }

  predicate IsMaster(w: World, a: Id) {
    a in w.nodes && a !in w.replicaOf
  }

  predicate HoldsNothing(w: World, a: Id) {
    forall s: int :: 0 <= s < w.n ==> !Claims(w, a, s) && Data(w, a, s) == map[]
  }

  datatype Action = IMPORTING | MIGRATING | NODE

  datatype Cmd =
    | AddSlots(at: Id, slots: seq<Slot>)
    | SetSlot(at: Id, action: Action, slot: Slot, id: Id)
    | Migrate(at: Id, dest: Id, slot: Slot, keys: set<Key>, replace: bool)
    | Replicate(at: Id, master: Id)

  predicate Distinct(s: seq<Slot>) {
    forall i, j :: 0 <= i < j < |s| ==> s[i] != s[j]
  }

  /** When Redis carries a command out; otherwise it answers with an error. */
  predicate Accepts(w: World, c: Cmd) {
    match c
    case AddSlots(a, slots) =>
      && IsMaster(w, a) && Distinct(slots)
      && forall i :: 0 <= i < |slots| ==> slots[i] < w.n && View(w, a, slots[i]) == NOBODY
    case SetSlot(a, IMPORTING, s, id) =>
      IsMaster(w, a) && s < w.n && id in w.nodes && View(w, a, s) != a
    case SetSlot(a, MIGRATING, s, id) =>
      IsMaster(w, a) && s < w.n && id in w.nodes && View(w, a, s) == a
    case SetSlot(a, NODE, s, id) =>
      && IsMaster(w, a) && s < w.n && id in w.nodes
      // an owner does not give a slot away while it still stores keys of it
      && !(View(w, a, s) == a && id != a && Data(w, a, s) != map[])
    case Migrate(a, d, s, keys, replace) =>
      && a in w.nodes && IsMaster(w, d) && a != d && s < w.n
      && (View(w, a, s) == a || (a, s) in w.migrating)
      && (View(w, d, s) == d || (d, s) in w.importing)
      && (replace || keys !! Data(w, d, s).Keys)
    case Replicate(a, m) =>
      && a in w.nodes && IsMaster(w, m) && a != m
      && (a in w.replicaOf || HoldsNothing(w, a))
  }

  /**
   * Keys leave the source in gone and arrive, with the value of the source, in copied.
   * A completed MIGRATE has gone == copied == keys; one that breaks off may have
   * transferred any part and may not have deleted all of what it transferred.
   */
  function Transfer(w: World, a: Id, d: Id, s: Slot, copied: set<Key>, gone: set<Key>): World {
    var source := Data(w, a, s);
    var arrived := map k | k in source && k in copied :: source[k];
    w.(data := w.data[(d, s) := Data(w, d, s) + arrived][(a, s) := source - gone])
  }

  function Effect(w: World, c: Cmd): World {
    match c
    case AddSlots(a, slots) =>
      var taken := set i | 0 <= i < |slots| :: (a, slots[i]);
      w.(view := w.view + (map p | p in taken :: a), importing := w.importing - taken)
    case SetSlot(a, IMPORTING, s, id) =>
      w.(importing := w.importing[(a, s) := id])
    case SetSlot(a, MIGRATING, s, id) =>
      w.(migrating := w.migrating[(a, s) := id])
    case SetSlot(a, NODE, s, id) =>
      w.(view := w.view[(a, s) := id],
         importing := if id == a then w.importing - {(a, s)} else w.importing,
         migrating := if Data(w, a, s) == map[] then w.migrating - {(a, s)} else w.migrating)
    case Migrate(a, d, s, keys, replace) =>
      Transfer(w, a, d, s, keys, keys)
    case Replicate(a, m) =>
      w.(replicaOf := w.replicaOf[a := m])
  }

  /** What may be left behind by a command that was answered with an error, or not at all. */
  ghost predicate Failed(w: World, c: Cmd, w': World) {
    || w' == w
    || (Accepts(w, c) && w' == Effect(w, c))
    || (Accepts(w, c) && c.Migrate?
        && exists copied, gone :: gone <= copied <= c.keys && w' == Transfer(w, c.at, c.dest, c.slot, copied, gone))
  }

  // ---------- soundness of a world ----------

  /** Some node serves s. */
  ghost predicate Served(w: World, s: Slot) {
    exists a :: Claims(w, a, s)
  }

  /** Every slot is served by exactly one node, and keys are stored only where they are served. */
  ghost predicate Sound(w: World) {
    && NOBODY !in w.nodes
    && (forall s: Slot :: s < w.n ==> Served(w, s))
    && (forall a, b, s: Slot :: Claims(w, a, s) && Claims(w, b, s) ==> a == b)
    && (forall a, s: Slot :: Claims(w, a, s) ==> s < w.n)
    && (forall a, s: Slot :: a in w.nodes && Data(w, a, s) != map[] ==> Claims(w, a, s))
  }

  ghost function Owner(w: World, s: Slot): Id
    requires Sound(w) && s < w.n
    ensures Claims(w, Owner(w, s), s)
  {
    assert Served(w, s);
    var a :| Claims(w, a, s);
    a
  }

  lemma OwnerIs(w: World, a: Id, s: Slot)
    requires Sound(w) && Claims(w, a, s)
    ensures s < w.n && Owner(w, s) == a
  {
  }

  /** Both worlds are sound and every slot's owner stores the same keys with the same values. */
  ghost predicate SameContents(w: World, w': World) {
    && Sound(w) && Sound(w') && w'.n == w.n
    && forall s: Slot :: s < w.n ==> Data(w', Owner(w', s), s) == Data(w, Owner(w, s), s)
  }

  ghost function Owned(w: World, a: Id): set<Slot> {
    set s | s in ToSet(AllSlots(w.n)) && Claims(w, a, s)
  }

  /** All entries of m for slot s are stored at some node of h. */
  ghost predicate Held(h: World, s: Slot, m: Contents) {
    forall k :: k in m ==> exists a :: a in h.nodes && k in Data(h, a, s) && Data(h, a, s)[k] == m[k]
  }

  /** Wherever the operator is stopped: every slot is served and no key of w is lost. */
  ghost predicate Intact(w: World, h: World) {
    Sound(w) && h.n == w.n && forall s: Slot :: s < w.n ==> Served(h, s) && Held(h, s, Data(w, Owner(w, s), s))
  }

  ghost predicate AllIntact(w: World, hist: seq<World>, from: nat) {
    forall i :: from <= i < |hist| ==> Intact(w, hist[i])
  }

  lemma IntactOnwards(w: World, h: seq<World>, h': seq<World>, from: nat)
    requires from <= |h| && h <= h' && AllIntact(w, h, from) && AllIntact(w, h', |h|)
    ensures AllIntact(w, h', from)
  {
    assert forall i :: 0 <= i < |h| ==> h'[i] == h[i];
  }

  lemma SameContentsIntact(w: World, h: World)
    requires SameContents(w, h)
    ensures Intact(w, h)
  {
    forall s: Slot | s < w.n ensures Served(h, s) && Held(h, s, Data(w, Owner(w, s), s)) {
      assert Claims(h, Owner(h, s), s);
    }
  }

  lemma SameContentsTransitive(w: World, v: World, u: World)
    requires SameContents(w, v) && SameContents(v, u)
    ensures SameContents(w, u)
  {
  }

  /** Everything stays but the keys of slots in S at a and b; none is lost, none changes its value. */
  ghost predicate KeysMoved(w: World, w': World, a: Id, b: Id, S: set<Slot>) {
    && w' == w.(data := w'.data)
    && (forall x, t: Slot :: !(t in S && (x == a || x == b)) ==> Data(w', x, t) == Data(w, x, t))
    && (forall t :: t in S ==> Data(w', b, t) + Data(w', a, t) == Data(w, b, t) + Data(w, a, t))
    && (forall t :: t in S ==> Data(w', a, t).Keys <= Data(w, a, t).Keys)
  }

  lemma TransferMovesKeys(w: World, a: Id, b: Id, s: Slot, copied: set<Key>, gone: set<Key>)
    requires a != b && gone <= copied
    ensures KeysMoved(w, Transfer(w, a, b, s, copied, gone), a, b, {s})
    ensures Data(Transfer(w, a, b, s, copied, gone), a, s) == Data(w, a, s) - gone
  {
    var w' := Transfer(w, a, b, s, copied, gone);
    var m', m := Data(w', b, s) + Data(w', a, s), Data(w, b, s) + Data(w, a, s);
    assert m'.Keys == m.Keys;
    assert forall k :: k in m ==> m'[k] == m[k];
  }

  lemma KeysMovedTransitive(w: World, v: World, u: World, a: Id, b: Id, S: set<Slot>, T: set<Slot>)
    requires KeysMoved(w, v, a, b, S) && KeysMoved(v, u, a, b, T)
    ensures KeysMoved(w, u, a, b, S + T)
  {
    forall x, t: Slot | !(t in S + T && (x == a || x == b)) ensures Data(u, x, t) == Data(w, x, t) {
      assert Data(u, x, t) == Data(v, x, t);
    }
    forall t | t in S + T
      ensures Data(u, b, t) + Data(u, a, t) == Data(w, b, t) + Data(w, a, t)
      ensures Data(u, a, t).Keys <= Data(w, a, t).Keys
    {
      assert t !in S ==> Data(v, a, t) == Data(w, a, t) && Data(v, b, t) == Data(w, b, t);
      assert t !in T ==> Data(u, a, t) == Data(v, a, t) && Data(u, b, t) == Data(v, b, t);
    }
  }

  /** A slot is open enough between a and d for MIGRATE to be accepted on both sides. */
  predicate CanMigrate(w: World, a: Id, d: Id, s: Slot) {
    && a in w.nodes && IsMaster(w, d) && a != d && s < w.n
    && (View(w, a, s) == a || (a, s) in w.migrating)
    && (View(w, d, s) == d || (d, s) in w.importing)
  }

  // ---------- a pipeline of SETSLOT commands ----------

  function Pairs(a: Id, S: set<Slot>): set<(Id, Slot)> {
    set s | s in S :: (a, s)
  }

  /** Those slots of S of which w stores no keys at a. */
  function Emptied(w: World, a: Id, S: set<Slot>): set<(Id, Slot)> {
    set s | s in S && Data(w, a, s) == map[] :: (a, s)
  }

  function ToAll(pairs: set<(Id, Slot)>, id: Id): map<(Id, Slot), Id> {
    map p | p in pairs :: id
  }

  /** The world after SETSLOT action id at a for every slot of S. */
  function SetAll(w: World, a: Id, action: Action, S: set<Slot>, id: Id): World {
    match action
    case IMPORTING => w.(importing := w.importing + ToAll(Pairs(a, S), id))
    case MIGRATING => w.(migrating := w.migrating + ToAll(Pairs(a, S), id))
    case NODE =>
      w.(view := w.view + ToAll(Pairs(a, S), id),
         importing := if id == a then w.importing - Pairs(a, S) else w.importing,
         migrating := w.migrating - Emptied(w, a, S))
  }

  lemma SetAllNone(w: World, a: Id, action: Action, id: Id)
    ensures SetAll(w, a, action, {}, id) == w
  {
  }

  lemma ToAllStep(m: map<(Id, Slot), Id>, a: Id, S: set<Slot>, id: Id, s: Slot)
    ensures (m + ToAll(Pairs(a, S), id))[(a, s) := id] == m + ToAll(Pairs(a, S + {s}), id)
  {
    assert Pairs(a, S + {s}) == Pairs(a, S) + {(a, s)};
  }

  lemma PairsStep(m: map<(Id, Slot), Id>, a: Id, S: set<Slot>, s: Slot)
    ensures m - Pairs(a, S) - {(a, s)} == m - Pairs(a, S + {s})
  {
    assert Pairs(a, S + {s}) == Pairs(a, S) + {(a, s)};
  }

  lemma EmptiedStep(w: World, m: map<(Id, Slot), Id>, a: Id, S: set<Slot>, s: Slot)
    ensures m - Emptied(w, a, S + {s}) ==
            if Data(w, a, s) == map[] then m - Emptied(w, a, S) - {(a, s)} else m - Emptied(w, a, S)
  {
    assert Emptied(w, a, S + {s}) == Emptied(w, a, S) + if Data(w, a, s) == map[] then {(a, s)} else {};
  }

  lemma SetAllStep(w: World, a: Id, action: Action, S: set<Slot>, id: Id, s: Slot)
    ensures Effect(SetAll(w, a, action, S, id), SetSlot(a, action, s, id)) == SetAll(w, a, action, S + {s}, id)
  {
    match action
    case IMPORTING => ToAllStep(w.importing, a, S, id, s);
    case MIGRATING => ToAllStep(w.migrating, a, S, id, s);
    case NODE =>
      ToAllStep(w.view, a, S, id, s);
      PairsStep(w.importing, a, S, s);
      EmptiedStep(w, w.migrating, a, S, s);
      assert Data(SetAll(w, a, NODE, S, id), a, s) == Data(w, a, s);
  }

  /** Whether Redis accepts one command of the pipeline does not depend on the others. */
  lemma AcceptsInPipeline(w: World, a: Id, action: Action, S: set<Slot>, id: Id, s: Slot)
    ensures Accepts(w, SetSlot(a, action, s, id)) && (s in S ==> Accepts(w, SetSlot(a, action, s, id)))
            ==> Accepts(SetAll(w, a, action, S, id), SetSlot(a, action, s, id))
    ensures s !in S && Accepts(SetAll(w, a, action, S, id), SetSlot(a, action, s, id)) ==> Accepts(w, SetSlot(a, action, s, id))
  {
    var v := SetAll(w, a, action, S, id);
    assert Data(v, a, s) == Data(w, a, s);
  }

  // ---------- the hand-over of one slot ----------

  /** What an undisturbed hand-over of s from src to dst leaves behind. */
  ghost predicate HandedOver(w: World, w': World, src: Id, dst: Id, s: Slot) {
    && w'.n == w.n && w'.nodes == w.nodes && w'.replicaOf == w.replicaOf
    && w'.view == w.view[(dst, s) := dst][(src, s) := dst]
    && (forall x, t: Slot :: !(t == s && (x == src || x == dst)) ==> Data(w', x, t) == Data(w, x, t))
    && Data(w', src, s) == map[]
    && Data(w', dst, s) == Data(w, dst, s) + Data(w, src, s)
    && w'.importing.Keys <= w.importing.Keys - {(dst, s)}
    && w'.migrating.Keys <= w.migrating.Keys - {(src, s)}
  }

  lemma HandedOverClaims(w: World, w': World, src: Id, dst: Id, s: Slot)
    requires HandedOver(w, w', src, dst, s) && src != dst && dst in w.nodes
    ensures forall x, t: Slot :: Claims(w', x, t) <==>
              if t == s && x == dst then true else if t == s && x == src then false else Claims(w, x, t)
  {
    forall x, t: Slot
      ensures Claims(w', x, t) <==>
        if t == s && x == dst then true else if t == s && x == src then false else Claims(w, x, t)
    {
      assert (x, t) != (dst, s) && (x, t) != (src, s) ==> View(w', x, t) == View(w, x, t);
    }
  }

  lemma HandedOverKeepsContents(w: World, w': World, src: Id, dst: Id, s: Slot)
    requires Sound(w) && Claims(w, src, s) && src != dst && dst in w.nodes
    requires HandedOver(w, w', src, dst, s)
    ensures SameContents(w, w')
  {
    HandedOverClaims(w, w', src, dst, s);
    assert !Claims(w, dst, s) && Data(w, dst, s) == map[];
    assert Data(w', dst, s) == Data(w, src, s);
    assert Claims(w', dst, s);
    forall t: Slot | t < w.n ensures Served(w', t) {
      if t != s {
        assert Claims(w', Owner(w, t), t);
      }
    }
    assert Sound(w');
    forall t: Slot | t < w.n ensures Data(w', Owner(w', t), t) == Data(w, Owner(w, t), t) {
      if t == s {
        OwnerIs(w', dst, s);
        OwnerIs(w, src, s);
      } else {
        OwnerIs(w', Owner(w, t), t);
      }
    }
  }

  /** The slots of S, and nothing else, have passed to dst, with all their keys. */
  ghost predicate PassedOn(w0: World, w: World, dst: Id, S: set<Slot>) {
    && SameContents(w0, w) && w.nodes == w0.nodes && w.replicaOf == w0.replicaOf
    && (forall x, t: Slot :: Claims(w, x, t) <==> if t in S then x == dst else Claims(w0, x, t))
    && w.importing.Keys <= w0.importing.Keys && w.migrating.Keys <= w0.migrating.Keys
  }

  // ---------- forgetting a node ----------

  function Replicas(w: World, id: Id): set<Id> {
    set a | a in w.replicaOf && w.replicaOf[a] == id
  }

  /** The nodes gone are no longer part of the cluster; those of reset are in it as empty masters. */
  function Forget(w: World, gone: set<Id>, reset: set<Id>): World {
    World(w.n, w.nodes - gone,
          Dropped(w.view, reset), Dropped(w.data, reset), Dropped(w.importing, reset), Dropped(w.migrating, reset),
          w.replicaOf - reset)
  }

  /** What is left of a table without the entries of the nodes ids. */
  function Dropped<T>(table: map<(Id, Slot), T>, ids: set<Id>): map<(Id, Slot), T> {
    map p | p in table && p.0 !in ids :: table[p]
  }

  lemma DroppedTwice<T>(table: map<(Id, Slot), T>, ids: set<Id>, ids': set<Id>)
    ensures Dropped(Dropped(table, ids), ids') == Dropped(table, ids + ids')
  {
  }

  /** Forgetting and resetting nodes that serve nothing loses nothing. */
  lemma ForgetKeepsContents(w: World, gone: set<Id>, reset: set<Id>)
    requires Sound(w) && forall a, s: Slot :: a in gone + reset ==> !Claims(w, a, s)
    ensures SameContents(w, Forget(w, gone, reset))
    ensures forall a, s: Slot :: Claims(Forget(w, gone, reset), a, s) <==> Claims(w, a, s)
  {
    var w' := Forget(w, gone, reset);
    forall a, s: Slot ensures Claims(w', a, s) <==> Claims(w, a, s) {
      assert a !in reset ==> View(w', a, s) == View(w, a, s);
      assert a in w.nodes ==> a != NOBODY;
    }
    forall a, s: Slot | a !in reset ensures Data(w', a, s) == Data(w, a, s) {
    }
    forall s: Slot | s < w.n ensures Served(w', s) && Data(w', Owner(w, s), s) == Data(w, Owner(w, s), s) {
      assert Claims(w', Owner(w, s), s);
    }
    assert Sound(w');
    forall s: Slot | s < w.n ensures Owner(w', s) == Owner(w, s) {
      OwnerIs(w', Owner(w, s), s);
    }
  }

  /** Forgetting in two steps is forgetting at once. */
  lemma ForgetTwice(w: World, gone: set<Id>, reset: set<Id>, gone': set<Id>, reset': set<Id>)
    ensures Forget(Forget(w, gone, reset), gone', reset') == Forget(w, gone + gone', reset + reset')
  {
    DroppedTwice(w.view, reset, reset');
    DroppedTwice(w.data, reset, reset');
    DroppedTwice(w.importing, reset, reset');
    DroppedTwice(w.migrating, reset, reset');
    assert w.nodes - gone - gone' == w.nodes - (gone + gone');
    assert w.replicaOf - reset - reset' == w.replicaOf - (reset + reset');
  }

  lemma ForgetNone(w: World)
    ensures Forget(w, {}, {}) == w
  {
    var u := Forget(w, {}, {});
    assert u.nodes == w.nodes && u.view == w.view && u.data == w.data;
    assert u.importing == w.importing && u.migrating == w.migrating && u.replicaOf == w.replicaOf;
  }
}
