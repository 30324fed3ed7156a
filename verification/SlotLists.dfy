/** The slot lists of pkg/redisutil/slot.go and their canonical ranges. */
module SlotLists {
  import opened Basics
  import opened Text
  import Sorting

  /** A 64-bit unsigned slot number. */
  type Slot = s: int | 0 <= s < TWO_TO_THE_64

  const MAX_SLOT: Slot := TWO_TO_THE_64 - 1

  /** s + 1 in 64-bit arithmetic. */
  function Succ(s: Slot): Slot {
    if s == MAX_SLOT then 0 else s + 1
  }

  /** The slots min, min + 1, .., max. */
  function Interval(min: Slot, max: Slot): seq<Slot> {
    if min <= max then seq(max - min + 1, i requires 0 <= i <= max - min => min + i) else []
  }

  /** The slots 0, .., n - 1. */
  function AllSlots(n: Slot): seq<Slot> {
    seq(n, i requires 0 <= i < n => i)
  }

  lemma AllSlotsCard(n: Slot)
    ensures |ToSet(AllSlots(n))| == n
    ensures forall s: Slot :: s in ToSet(AllSlots(n)) <==> s < n
  {
    NoDupCard(AllSlots(n));
    forall s: Slot | s < n ensures s in AllSlots(n) {
      assert AllSlots(n)[s] == s;
    }
  }

  /** s without the members of removed, in order. */
  function Without(s: seq<Slot>, removed: seq<Slot>): seq<Slot> {
    if s == [] then []
    else (if s[0] in removed then [] else [s[0]]) + Without(s[1..], removed)
  }

  lemma {:induction false} WithoutMembers(s: seq<Slot>, removed: seq<Slot>)
    ensures forall x: Slot :: x in Without(s, removed) <==> x in s && x !in removed
    ensures NoDup(s) ==> NoDup(Without(s, removed))
  {
    if s != [] {
      WithoutMembers(s[1..], removed);
      assert s == [s[0]] + s[1..];
    }
  }

  method RemoveSlots(slots: seq<Slot>, removed: seq<Slot>) returns (r: seq<Slot>)
    ensures r == Without(slots, removed)
  {
    r := slots;
    var i := 0;
    while i < |r|
      invariant 0 <= i <= |r|
      invariant r[..i] + Without(r[i..], removed) == Without(slots, removed)
      decreases |r| - i
    {
      var s := r[i];
      assert r[i..][0] == s && r[i..][1..] == r[i + 1..];
      ghost var before := r;
      var found := false;
      var j := 0;
      while j < |removed|
        invariant 0 <= j <= |removed| && s !in removed[..j]
      {
        if s == removed[j] {
          found := true;
          break;
        }
        j := j + 1;
      }
      assert found <==> s in removed;
      if found {
        r := r[..i] + r[i + 1..];
        assert r[..i] == before[..i] && r[i..] == before[i + 1..];
      } else {
        assert before[..i] + [s] == before[..i + 1];
        i := i + 1;
      }
    }
    assert r[..i] == r;
  }

  /** s without the first occurrence of x. */
  function WithoutFirst(s: seq<Slot>, x: Slot): seq<Slot> {
    if s == [] then [] else if s[0] == x then s[1..] else [s[0]] + WithoutFirst(s[1..], x)
  }

  lemma {:induction false} WithoutFirstMembers(s: seq<Slot>, x: Slot)
    requires NoDup(s)
    ensures NoDup(WithoutFirst(s, x))
    ensures forall y: Slot :: y in WithoutFirst(s, x) <==> y in s && y != x
    ensures |WithoutFirst(s, x)| == if x in s then |s| - 1 else |s|
  {
    if s != [] {
      WithoutFirstMembers(s[1..], x);
      assert s == [s[0]] + s[1..];
      NoDupConcat([s[0]], WithoutFirst(s[1..], x));
    }
  }

  lemma {:induction false} WithoutFirstAt(s: seq<Slot>, x: Slot, i: nat)
    requires i < |s| && s[i] == x && x !in s[..i]
    ensures WithoutFirst(s, x) == s[..i] + s[i + 1..]
  {
    if i > 0 {
      WithoutFirstAt(s[1..], x, i - 1);
      assert s[1..][..i - 1] == s[1..i];
    }
  }

  lemma {:induction false} WithoutFirstAbsent(s: seq<Slot>, x: Slot)
    requires x !in s
    ensures WithoutFirst(s, x) == s
  {
    if s != [] {
      WithoutFirstAbsent(s[1..], x);
    }
  }

  method RemoveSlot(slots: seq<Slot>, removed: Slot) returns (r: seq<Slot>)
    ensures r == WithoutFirst(slots, removed)
  {
    r := slots;
    var i := 0;
    while i < |r|
      invariant 0 <= i <= |r| && r == slots && removed !in slots[..i]
    {
      if r[i] == removed {
        WithoutFirstAt(slots, removed, i);
        r := r[..i] + r[i + 1..];
        return;
      }
      i := i + 1;
    }
    WithoutFirstAbsent(slots, removed);
  }

  method Contains(s: seq<Slot>, e: Slot) returns (found: bool)
    ensures found <==> e in s
  {
    var i := 0;
    while i < |s|
      invariant i <= |s| && e !in s[..i]
    {
      if s[i] == e {
        return true;
      }
      i := i + 1;
    }
    return false;
  }

  method AddSlots(slots: seq<Slot>, added: seq<Slot>) returns (r: seq<Slot>)
    ensures slots <= r
    ensures forall x: Slot :: x in r <==> x in slots || x in added
    ensures NoDup(slots) ==> NoDup(r)
    ensures NoDup(added) && (forall x :: x in added ==> x !in slots) ==> r == slots + added
  {
    r := slots;
    for i := 0 to |added|
      invariant slots <= r
      invariant forall x: Slot :: x in r <==> x in slots || x in added[..i]
      invariant NoDup(slots) ==> NoDup(r)
      invariant NoDup(added) && (forall x :: x in added ==> x !in slots) ==> r == slots + added[..i]
    {
      assert added[..i + 1] == added[..i] + [added[i]];
      var present := Contains(r, added[i]);
      if !present {
        r := r + [added[i]];
      }
    }
    assert added[..|added|] == added;
  }

  /** The loop variable of BuildSlotSlice after k rounds. */
  function Steps(min: Slot, k: nat): Slot {
    if k == 0 then min else Succ(Steps(min, k - 1))
  }

  /** The loop variable passes max at some time. */
  ghost predicate LoopEnds(min: Slot, max: Slot) {
    exists k: nat :: Steps(min, k) > max
  }

  lemma {:induction false} StepsCount(min: Slot, k: nat)
    requires min + k <= MAX_SLOT
    ensures Steps(min, k) == min + k
  {
    if k > 0 {
      StepsCount(min, k - 1);
    }
  }

  /** The loop ends unless it is to include the largest 64-bit number: past that it starts over. */
  lemma SlotLoopEndsExactly(min: Slot, max: Slot)
    ensures LoopEnds(min, max) <==> max < MAX_SLOT
  {
    if max < MAX_SLOT {
      var k := Max(0, max + 1 - min);
      StepsCount(min, k);
      assert Steps(min, k) > max;
    }
  }

  /** All slots of a range; a range for which the loop does not end is left to its caller. */
  method BuildSlotSlice(min: Slot, max: Slot) returns (slots: seq<Slot>)
    requires LoopEnds(min, max)
    ensures slots == Interval(min, max)
  {
    SlotLoopEndsExactly(min, max);
    slots := [];
    var s := min;
    while s <= max
      invariant min <= s <= Max(min, max + 1)
      invariant |slots| == s - min
      invariant forall i :: 0 <= i < |slots| ==> slots[i] == min + i
      decreases max + 1 - s
    {
      slots := slots + [s];
      s := Succ(s);
    }
  }

  // ---------- ranges ----------

  datatype SlotRange = SlotRange(min: Slot, max: Slot)

  predicate Less(a: Slot, b: Slot) {
    a < b
  }

  lemma LessIsOrder()
    ensures Sorting.StrictWeakOrder(Less)
  {
  }

  /** Sorted, disjoint ranges, no two of which could be merged. */
  ghost predicate Canonical(rs: seq<SlotRange>) {
    && (forall i :: 0 <= i < |rs| ==> rs[i].min <= rs[i].max)
    && (forall i, j :: 0 <= i < j < |rs| ==> rs[i].max + 1 < rs[j].min)
  }

  ghost predicate Covers(rs: seq<SlotRange>, x: Slot) {
    exists i :: 0 <= i < |rs| && rs[i].min <= x <= rs[i].max
  }

  ghost predicate Ascending(s: seq<Slot>) {
    forall i, j :: 0 <= i < j < |s| ==> s[i] <= s[j]
  }

  ghost predicate StrictlyAscending(s: seq<Slot>) {
    forall i, j :: 0 <= i < j < |s| ==> s[i] < s[j]
  }

  /** The last two slots are both the largest 64-bit number. */
  ghost predicate TwiceMax(s: seq<Slot>) {
    |s| >= 2 && s[|s| - 1] == MAX_SLOT && s[|s| - 2] == MAX_SLOT
  }

  lemma CanonicalSnoc(rs: seq<SlotRange>, r: SlotRange)
    requires r.min <= r.max && Canonical(rs)
    requires rs != [] ==> rs[|rs| - 1].max + 1 < r.min
    ensures Canonical(rs + [r])
  {
  }

  lemma CoversSnoc(rs: seq<SlotRange>, r: SlotRange, x: Slot)
    ensures Covers(rs + [r], x) <==> Covers(rs, x) || r.min <= x <= r.max
  {
    var t := rs + [r];
    if Covers(rs, x) {
      var i :| 0 <= i < |rs| && rs[i].min <= x <= rs[i].max;
      assert t[i] == rs[i];
    }
    if r.min <= x <= r.max {
      assert t[|rs|] == r;
    }
  }

  /** What the loop of SlotRangesFromSlots has established after the slots of done. */
  ghost predicate RangesOf(rs: seq<SlotRange>, done: seq<Slot>) {
    && (forall x: Slot :: Covers(rs, x) <==> x in done)
    && (Canonical(rs) <==> !TwiceMax(done))
  }

  lemma RangesStep(rs: seq<SlotRange>, min: Slot, max: Slot, done: seq<Slot>, slot: Slot)
    requires done != [] && Ascending(done + [slot])
    requires done[|done| - 1] == max && min <= max && RangesOf(rs + [SlotRange(min, max)], done)
    ensures slot > Succ(max) ==> RangesOf(rs + [SlotRange(min, max)] + [SlotRange(slot, slot)], done + [slot])
    ensures slot <= Succ(max) ==> min <= slot && RangesOf(rs + [SlotRange(min, slot)], done + [slot])
  {
    var cur := rs + [SlotRange(min, max)];
    var done' := done + [slot];
    assert done'[|done| - 1] == max && done'[|done|] == slot;
    assert max <= slot;
    assert cur[|rs|] == SlotRange(min, max);
    if slot > Succ(max) {
      var next := cur + [SlotRange(slot, slot)];
      forall x: Slot ensures Covers(next, x) <==> x in done' {
        CoversSnoc(cur, SlotRange(slot, slot), x);
      }
      assert next[|rs|] == SlotRange(min, max) && next[|rs| + 1] == SlotRange(slot, slot);
      if max == MAX_SLOT {
        assert TwiceMax(done') && !Canonical(next);
      } else {
        assert !TwiceMax(done) && !TwiceMax(done');
        CanonicalSnoc(cur, SlotRange(slot, slot));
      }
    } else {
      assert max < MAX_SLOT && (slot == max || slot == max + 1);
      var next := rs + [SlotRange(min, slot)];
      forall x: Slot ensures Covers(next, x) <==> x in done' {
        CoversSnoc(rs, SlotRange(min, max), x);
        CoversSnoc(rs, SlotRange(min, slot), x);
      }
      assert !TwiceMax(done) && !TwiceMax(done');
      assert forall i :: 0 <= i < |rs| ==> rs[i] == cur[i];
      assert Canonical(rs);
      CanonicalSnoc(rs, SlotRange(min, slot));
    }
  }

  /**
   * The ranges of a slot list; the list itself comes back sorted, as the original sorts its
   * argument in place. The ranges cover exactly the slots for every input. They are
   * canonical exactly when the largest 64-bit number is not listed twice: there max + 1
   * wraps to 0 and a second, overlapping range is opened.
   */
  method SlotRangesFromSlots(slots: seq<Slot>) returns (ranges: seq<SlotRange>, sorted: seq<Slot>)
    ensures Ascending(sorted) && multiset(sorted) == multiset(slots)
    ensures forall x: Slot :: Covers(ranges, x) <==> x in slots
    ensures Canonical(ranges) <==> multiset(slots)[MAX_SLOT] <= 1
  {
    LessIsOrder();
    sorted := Sorting.SortByFunc(slots, Less);
    assert Ascending(sorted);
    ranges := [];
    var min: Slot, max: Slot, first := 0, 0, true;
    for i := 0 to |sorted|
      invariant first <==> i == 0
      invariant first ==> ranges == []
      invariant !first ==> max == sorted[i - 1] && min <= max
      invariant !first ==> RangesOf(ranges + [SlotRange(min, max)], sorted[..i])
    {
      var slot := sorted[i];
      assert sorted[..i + 1] == sorted[..i] + [slot];
      if first {
        min, max, first := slot, slot, false;
        assert sorted[..1] == [slot];
        CoversOne(slot);
      } else {
        RangesStep(ranges, min, max, sorted[..i], slot);
        if slot > Succ(max) {
          ranges := ranges + [SlotRange(min, max)];
          min := slot;
        }
        max := slot;
      }
    }
    assert sorted[..|sorted|] == sorted;
    if !first {
      ranges := ranges + [SlotRange(min, max)];
    }
    RangesOfAll(slots, sorted, ranges);
  }

  lemma RangesOfAll(slots: seq<Slot>, sorted: seq<Slot>, ranges: seq<SlotRange>)
    requires Ascending(sorted) && multiset(sorted) == multiset(slots)
    requires if sorted == [] then ranges == [] else RangesOf(ranges, sorted)
    ensures forall x: Slot :: Covers(ranges, x) <==> x in slots
    ensures Canonical(ranges) <==> multiset(slots)[MAX_SLOT] <= 1
  {
    Sorting.PermutationKeepsMembers(slots, sorted);
    forall x: Slot ensures Covers(ranges, x) <==> x in slots {
      assert x in slots <==> x in ToSet(slots);
    }
    TwiceMaxCount(sorted);
  }

  lemma CoversOne(slot: Slot)
    ensures RangesOf([] + [SlotRange(slot, slot)], [slot])
  {
    forall x: Slot ensures Covers([] + [SlotRange(slot, slot)], x) <==> x in [slot] {
      CoversSnoc([], SlotRange(slot, slot), x);
    }
  }

  lemma {:induction false} CountMax(s: seq<Slot>)
    requires Ascending(s)
    ensures multiset(s)[MAX_SLOT] >= 1 <==> s != [] && s[|s| - 1] == MAX_SLOT
  {
    if s != [] && MAX_SLOT in s {
      var i :| 0 <= i < |s| && s[i] == MAX_SLOT;
      assert s[i] <= s[|s| - 1];
    }
  }

  lemma TwiceMaxCount(s: seq<Slot>)
    requires Ascending(s)
    ensures TwiceMax(s) <==> multiset(s)[MAX_SLOT] >= 2
  {
    if s != [] {
      var m := |s| - 1;
      assert s == s[..m] + [s[m]];
      CountMax(s[..m]);
      CountMax(s);
      if m > 0 {
        assert s[..m][m - 1] == s[m - 1];
      }
    }
  }

  /** Canonical ranges are a normal form: the covered slots determine them. */
  lemma {:induction false} CanonicalIsUnique(a: seq<SlotRange>, b: seq<SlotRange>)
    requires Canonical(a) && Canonical(b)
    requires forall x: Slot :: Covers(a, x) <==> Covers(b, x)
    ensures a == b
    decreases |a|
  {
    if a == [] {
      if b != [] {
        assert Covers(b, b[0].min);
      }
    } else {
      assert Covers(a, a[0].min);
      SameFirst(a, b);
      SameFirst(b, a);
      assert a[0] == b[0];
      forall x: Slot ensures Covers(a[1..], x) <==> Covers(b[1..], x) {
        CoversTail(a, x);
        CoversTail(b, x);
      }
      CanonicalIsUnique(a[1..], b[1..]);
      assert a == [a[0]] + a[1..] && b == [b[0]] + b[1..];
    }
  }

  lemma CoversTail(a: seq<SlotRange>, x: Slot)
    requires Canonical(a) && a != []
    ensures Covers(a[1..], x) <==> Covers(a, x) && x > a[0].max
  {
    if Covers(a[1..], x) {
      var i :| 0 <= i < |a[1..]| && a[1..][i].min <= x <= a[1..][i].max;
      assert a[i + 1] == a[1..][i];
    }
    if Covers(a, x) && x > a[0].max {
      var i :| 0 <= i < |a| && a[i].min <= x <= a[i].max;
      assert a[1..][i - 1] == a[i];
    }
  }

  /** The first range of b starts no later and reaches at least as far as that of a. */
  lemma SameFirst(a: seq<SlotRange>, b: seq<SlotRange>)
    requires Canonical(a) && Canonical(b) && a != [] && b != []
    requires forall x: Slot :: Covers(a, x) <==> Covers(b, x)
    ensures b[0].min <= a[0].min && a[0].max <= b[0].max
  {
    assert Covers(a, a[0].min);
    var i :| 0 <= i < |b| && b[i].min <= a[0].min <= b[i].max;
    assert b[0].min <= b[i].min;
    assert Covers(b, b[0].min);
    var j :| 0 <= j < |a| && a[j].min <= b[0].min <= a[j].max;
    assert a[0].min <= a[j].min;
    if a[0].max > b[0].max {
      var x: Slot := b[0].max + 1;
      var c := Covers(a, x) && Covers(b, x);
      assert false;
    }
  }
}
