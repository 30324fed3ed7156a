/** Slot ranges and open slots as CLUSTER NODES prints them, and their decoder. */
module SlotText {
  import opened Basics
  import opened Text
  import opened SlotLists
  import Sorting

  datatype ImportingSlot = ImportingSlot(slotID: Slot, fromNodeID: string)
  datatype MigratingSlot = MigratingSlot(slotID: Slot, toNodeID: string)

  function RangeString(r: SlotRange): string {
    FormatUint(r.min) + "-" + FormatUint(r.max)
  }

  function ImportingString(e: ImportingSlot): string {
    FormatUint(e.slotID) + "-<-" + e.fromNodeID
  }

  function MigratingString(e: MigratingSlot): string {
    FormatUint(e.slotID) + "->-" + e.toNodeID
  }

  /** NoReturn: the loop that lists the range never ends. */
  datatype Decoded =
    | Slots(slots: seq<Slot>)
    | Importing(importing: ImportingSlot)
    | Migrating(migrating: MigratingSlot)
    | Failure
    | NoReturn

  function DecodeSlot(s: string): Option<Slot> {
    match ParseUint(s)
    case Some(n) => Some(n)
    case None => None
  }

  function DecodeSlotRange(str: string): Decoded {
    var val := Split(str, '-');
    if |val| == 3 then
      match DecodeSlot(TrimPrefix(val[0], '['))
      case None => Failure
      case Some(slot) =>
        if val[1] == "<" then Importing(ImportingSlot(slot, TrimSuffix(val[2], ']')))
        else if val[1] == ">" then Migrating(MigratingSlot(slot, TrimSuffix(val[2], ']')))
        else Failure
    else
      match DecodeSlot(val[0])
      case None => Failure
      case Some(min) =>
        if |val| == 1 then BuildRange(min, min)
        else
          match DecodeSlot(val[1])
          case None => Failure
          case Some(max) => BuildRange(min, max)
  }

  function BuildRange(min: Slot, max: Slot): (r: Decoded)
    ensures r == NoReturn <==> !LoopEnds(min, max)
  {
    SlotLoopEndsExactly(min, max);
    if max == MAX_SLOT then NoReturn else Slots(Interval(min, max))
  }

  lemma NumberHasNoSeparator(n: Slot)
    ensures '-' !in FormatUint(n)
    ensures DecodeSlot(FormatUint(n)) == Some(n)
    ensures TrimPrefix(FormatUint(n), '[') == FormatUint(n)
  {
    FormatIsDecimal(n);
    ParseFormat(n);
    assert !IsDigit('-') && !IsDigit('[');
    assert FormatUint(n)[0] in FormatUint(n);
  }

  lemma RangeRoundTrip(r: SlotRange)
    ensures DecodeSlotRange(RangeString(r)) == if LoopEnds(r.min, r.max) then Slots(Interval(r.min, r.max)) else NoReturn
  {
    SlotLoopEndsExactly(r.min, r.max);
    NumberHasNoSeparator(r.min);
    NumberHasNoSeparator(r.max);
    SplitAt(FormatUint(r.min), '-', FormatUint(r.max));
    SplitWithout(FormatUint(r.max), '-');
    assert RangeString(r) == FormatUint(r.min) + ['-'] + FormatUint(r.max);
  }

  lemma SingleSlotDecodes(s: Slot)
    ensures DecodeSlotRange(FormatUint(s)) == if LoopEnds(s, s) then Slots([s]) else NoReturn
  {
    assert Interval(s, s) == [s];
    SlotLoopEndsExactly(s, s);
    NumberHasNoSeparator(s);
    OnePartDecodes(FormatUint(s), s);
  }

  lemma OnePartDecodes(number: string, s: Slot)
    requires '-' !in number && DecodeSlot(number) == Some(s)
    ensures DecodeSlotRange(number) == BuildRange(s, s)
  {
    SplitWithout(number, '-');
  }

  // ---------- slot list -> ranges -> text -> slot list ----------

  /** The slots a CLUSTER NODES line lists: each entry is decoded and what it yields appended. */
  function SlotField(texts: seq<string>): seq<Slot> {
    if texts == [] then []
    else
      var m := |texts| - 1;
      SlotField(texts[..m]) + (match DecodeSlotRange(texts[m]) case Slots(l) => l case _ => [])
  }

  function RangeStrings(rs: seq<SlotRange>): seq<string> {
    if rs == [] then [] else RangeStrings(rs[..|rs| - 1]) + [RangeString(rs[|rs| - 1])]
  }

  lemma {:induction false} AscendingIsUnique(s: seq<Slot>, t: seq<Slot>)
    requires StrictlyAscending(s) && StrictlyAscending(t)
    requires forall x: Slot :: x in s <==> x in t
    ensures s == t
  {
    assert s != [] ==> s[0] in t;
    assert t != [] ==> t[0] in s;
    if s != [] {
      assert s[0] == t[0];
      forall x: Slot ensures x in s[1..] <==> x in t[1..] {
        assert x in s[1..] <==> x in s && x != s[0];
        assert x in t[1..] <==> x in t && x != t[0];
      }
      AscendingIsUnique(s[1..], t[1..]);
      assert s == [s[0]] + s[1..] && t == [t[0]] + t[1..];
    }
  }

  lemma {:induction false} SlotFieldAscends(rs: seq<SlotRange>)
    requires Canonical(rs) && forall i :: 0 <= i < |rs| ==> rs[i].max < MAX_SLOT
    ensures StrictlyAscending(SlotField(RangeStrings(rs)))
    ensures forall x: Slot :: x in SlotField(RangeStrings(rs)) <==> Covers(rs, x)
  {
    if rs != [] {
      var m := |rs| - 1;
      SlotFieldAscends(rs[..m]);
      FieldOneMore(RangeStrings(rs[..m]), rs[m]);
      Snoc(rs);
      IntervalOnTop(SlotField(RangeStrings(rs[..m])), rs[..m], rs[m]);
    }
  }

  lemma FieldOneMore(texts: seq<string>, r: SlotRange)
    requires r.min <= r.max < MAX_SLOT
    ensures SlotField(texts + [RangeString(r)]) == SlotField(texts) + Interval(r.min, r.max)
  {
    SlotLoopEndsExactly(r.min, r.max);
    RangeRoundTrip(r);
    assert (texts + [RangeString(r)])[..|texts|] == texts;
  }

  lemma IntervalOnTop(head: seq<Slot>, rs: seq<SlotRange>, r: SlotRange)
    requires Canonical(rs + [r]) && StrictlyAscending(head)
    requires forall x: Slot :: x in head <==> Covers(rs, x)
    ensures StrictlyAscending(head + Interval(r.min, r.max))
    ensures forall x: Slot :: x in head + Interval(r.min, r.max) <==> Covers(rs + [r], x)
  {
    var all, tail := rs + [r], Interval(r.min, r.max);
    assert all[|rs|] == r;
    forall x: Slot ensures x in head + tail <==> Covers(all, x) {
      CoversSnoc(rs, r, x);
      if r.min <= x <= r.max {
        assert tail[x - r.min] == x;
      }
    }
    forall x: Slot | x in head ensures x < r.min {
      assert Covers(rs, x);
      var i :| 0 <= i < |rs| && rs[i].min <= x <= rs[i].max;
      assert all[i] == rs[i];
    }
    forall i, j | 0 <= i < j < |head + tail| ensures (head + tail)[i] < (head + tail)[j] {
      if i < |head| <= j {
        assert (head + tail)[i] in head;
      }
    }
  }

  /**
   * Printing the canonical ranges of a duplicate-free slot list and decoding them back
   * concatenates to the sorted list.
   */
  lemma SlotListRoundTrip(slots: seq<Slot>, sorted: seq<Slot>, ranges: seq<SlotRange>)
    requires NoDup(slots) && MAX_SLOT !in slots
    requires Ascending(sorted) && multiset(sorted) == multiset(slots)
    requires Canonical(ranges) && forall x: Slot :: Covers(ranges, x) <==> x in slots
    ensures SlotField(RangeStrings(ranges)) == sorted
  {
    SortedMembers(slots, sorted);
    forall i | 0 <= i < |ranges| ensures ranges[i].max < MAX_SLOT {
      assert Covers(ranges, ranges[i].max);
    }
    SlotFieldAscends(ranges);
    AscendingIsUnique(SlotField(RangeStrings(ranges)), sorted);
  }

  lemma SortedMembers(slots: seq<Slot>, sorted: seq<Slot>)
    requires NoDup(slots) && Ascending(sorted) && multiset(sorted) == multiset(slots)
    ensures StrictlyAscending(sorted)
    ensures forall x: Slot :: x in sorted <==> x in slots
  {
    SortingFacts(slots, sorted);
    forall i, j | 0 <= i < j < |sorted| ensures sorted[i] < sorted[j] {
      assert sorted[i] != sorted[j];
    }
    forall x: Slot ensures x in sorted <==> x in slots {
      assert x in ToSet(sorted) <==> x in ToSet(slots);
    }
  }

  lemma SortingFacts(slots: seq<Slot>, sorted: seq<Slot>)
    requires NoDup(slots) && multiset(sorted) == multiset(slots)
    ensures NoDup(sorted) && ToSet(sorted) == ToSet(slots)
  {
    Sorting.PermutationKeepsMembers(slots, sorted);
  }

  // ---------- open slots ----------

  lemma OpenSlotParts(slot: Slot, arrow: char, id: string, prefix: string, suffix: string)
    requires arrow != '-' && (prefix == "" || prefix == "[") && (suffix == "" || suffix == "]")
    ensures var str := prefix + FormatUint(slot) + ['-', arrow, '-'] + id + suffix;
      Split(str, '-') == [prefix + FormatUint(slot), [arrow]] + Split(id + suffix, '-')
  {
    NumberHasNoSeparator(slot);
    var num := prefix + FormatUint(slot);
    var tail := id + suffix;
    SplitAt([arrow], '-', tail);
    SplitAt(num, '-', [arrow] + ['-'] + tail);
    Reassociate(num, arrow, id, suffix);
  }

  lemma Reassociate(num: string, arrow: char, id: string, suffix: string)
    ensures num + ['-', arrow, '-'] + id + suffix == num + ['-'] + ([arrow] + ['-'] + (id + suffix))
  {
    assert ['-', arrow, '-'] == ['-'] + ([arrow] + ['-']);
  }

  lemma ArrowIsNoNumber(arrow: char)
    requires !IsDigit(arrow)
    ensures DecodeSlot([arrow]) == None
  {
    assert arrow in [arrow];
  }

  lemma IdParts(id: string, suffix: string)
    requires suffix == "" || suffix == "]"
    ensures '-' !in id ==> Split(id + suffix, '-') == [id + suffix]
    ensures '-' in id ==> |Split(id + suffix, '-')| >= 2
  {
    if '-' !in id {
      SplitWithout(id + suffix, '-');
    } else {
      SplitCount(id + suffix, '-');
      assert '-' in multiset(id);
      assert multiset(id + suffix) == multiset(id) + multiset(suffix);
    }
  }

  lemma DecodeThreeParts(str: string, num: string, arrow: string, id: string)
    requires Split(str, '-') == [num, arrow, id]
    ensures DecodeSlotRange(str) ==
      match DecodeSlot(TrimPrefix(num, '['))
      case None => Failure
      case Some(slot) =>
        if arrow == "<" then Importing(ImportingSlot(slot, TrimSuffix(id, ']')))
        else if arrow == ">" then Migrating(MigratingSlot(slot, TrimSuffix(id, ']')))
        else Failure
  {
  }

  lemma DecodeManyParts(str: string, parts: seq<string>)
    requires Split(str, '-') == parts && |parts| >= 4 && DecodeSlot(parts[1]) == None
    ensures DecodeSlotRange(str) == Failure
  {
  }

  ghost function Entry(slot: Slot, arrow: char, id: string, bracketed: bool): string {
    (if bracketed then "[" else "") + FormatUint(slot) + ['-', arrow, '-'] + id + (if bracketed then "]" else "")
  }

  lemma TrimEntry(slot: Slot, id: string, bracketed: bool)
    ensures TrimPrefix((if bracketed then "[" else "") + FormatUint(slot), '[') == FormatUint(slot)
    ensures TrimSuffix(id + (if bracketed then "]" else ""), ']') == if bracketed then id else TrimSuffix(id, ']')
  {
    NumberHasNoSeparator(slot);
    TrimBrackets(FormatUint(slot), id, bracketed);
  }

  lemma TrimBrackets(number: string, id: string, bracketed: bool)
    requires TrimPrefix(number, '[') == number
    ensures TrimPrefix((if bracketed then "[" else "") + number, '[') == number
    ensures TrimSuffix(id + (if bracketed then "]" else ""), ']') == if bracketed then id else TrimSuffix(id, ']')
  {
    if bracketed {
      assert ("[" + number)[1..] == number;
      assert (id + "]")[..|id|] == id;
    } else {
      assert "" + number == number;
      assert id + "" == id;
    }
  }

  /** An id with a dash makes a fourth part. */
  lemma OpenSlotFails(slot: Slot, arrow: char, id: string, bracketed: bool)
    requires (arrow == '<' || arrow == '>') && '-' in id
    ensures DecodeSlotRange(Entry(slot, arrow, id, bracketed)) == Failure
  {
    var prefix, suffix := if bracketed then "[" else "", if bracketed then "]" else "";
    OpenSlotParts(slot, arrow, id, prefix, suffix);
    IdParts(id, suffix);
    ArrowIsNoNumber(arrow);
    DecodeManyParts(Entry(slot, arrow, id, bracketed), Split(Entry(slot, arrow, id, bracketed), '-'));
  }

  /** Otherwise slot and (trimmed) id come back. */
  lemma OpenSlotDecodes(slot: Slot, arrow: char, id: string, bracketed: bool)
    requires (arrow == '<' || arrow == '>') && '-' !in id
    ensures DecodeSlotRange(Entry(slot, arrow, id, bracketed)) ==
      var id' := if bracketed then id else TrimSuffix(id, ']');
      if arrow == '<' then Importing(ImportingSlot(slot, id')) else Migrating(MigratingSlot(slot, id'))
  {
    var prefix, suffix := if bracketed then "[" else "", if bracketed then "]" else "";
    OpenSlotParts(slot, arrow, id, prefix, suffix);
    IdParts(id, suffix);
    NumberHasNoSeparator(slot);
    TrimEntry(slot, id, bracketed);
    DecodeThreeParts(Entry(slot, arrow, id, bracketed), prefix + FormatUint(slot), [arrow], id + suffix);
    assert [arrow] == "<" <==> arrow == '<';
  }

  /** As CLUSTER NODES prints it, an importing entry decodes back exactly when its id has no dash. */
  lemma BracketedImportingRoundTrip(e: ImportingSlot)
    ensures DecodeSlotRange("[" + ImportingString(e) + "]") == Importing(e) <==> '-' !in e.fromNodeID
  {
    if '-' in e.fromNodeID {
      OpenSlotFails(e.slotID, '<', e.fromNodeID, true);
    } else {
      OpenSlotDecodes(e.slotID, '<', e.fromNodeID, true);
    }
    assert "[" + ImportingString(e) + "]" == Entry(e.slotID, '<', e.fromNodeID, true);
  }

  lemma BracketedMigratingRoundTrip(e: MigratingSlot)
    ensures DecodeSlotRange("[" + MigratingString(e) + "]") == Migrating(e) <==> '-' !in e.toNodeID
  {
    if '-' in e.toNodeID {
      OpenSlotFails(e.slotID, '>', e.toNodeID, true);
    } else {
      OpenSlotDecodes(e.slotID, '>', e.toNodeID, true);
    }
    assert "[" + MigratingString(e) + "]" == Entry(e.slotID, '>', e.toNodeID, true);
  }

  /** As String prints it, the id must not end in a bracket either: the decoder trims one. */
  lemma ImportingRoundTrip(e: ImportingSlot)
    ensures DecodeSlotRange(ImportingString(e)) == Importing(e) <==>
            '-' !in e.fromNodeID && !(e.fromNodeID != "" && e.fromNodeID[|e.fromNodeID| - 1] == ']')
  {
    if '-' in e.fromNodeID {
      OpenSlotFails(e.slotID, '<', e.fromNodeID, false);
    } else {
      OpenSlotDecodes(e.slotID, '<', e.fromNodeID, false);
    }
    assert ImportingString(e) == Entry(e.slotID, '<', e.fromNodeID, false);
  }

  lemma MigratingRoundTrip(e: MigratingSlot)
    ensures DecodeSlotRange(MigratingString(e)) == Migrating(e) <==>
            '-' !in e.toNodeID && !(e.toNodeID != "" && e.toNodeID[|e.toNodeID| - 1] == ']')
  {
    if '-' in e.toNodeID {
      OpenSlotFails(e.slotID, '>', e.toNodeID, false);
    } else {
      OpenSlotDecodes(e.slotID, '>', e.toNodeID, false);
    }
    assert MigratingString(e) == Entry(e.slotID, '>', e.toNodeID, false);
  }
}
