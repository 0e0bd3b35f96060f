/** Where pass 2 of partition_by_key writes, for any counts. The places are a rearrangement of the
    partition's if and only if pass 1 has not been divided by growth; else an element has no entry, or
    is written behind the partition, or over another one. */
module PartitionPlaces {
  import opened Bits
  import opened SlotChains
  import opened Grouping
  import opened Tallies
  import opened Partitioning

  /** The place pass 2 writes element i to, counted from the start of the partition: its entry's first
      place, and one further for each earlier element that found this entry. */
  ghost function Place<C>(cls: nat -> C, f: seq<nat>, rooms: seq<seq<nat>>, xs: seq<nat>, i: nat): nat
    requires i < |xs| && |f| == |rooms| && EntryOf(cls, f, cls(xs[i])) != NONE
  {
    Offset(rooms, EntryOf(cls, f, cls(xs[i]))) + |OfClass(cls, cls(xs[i]), xs[..i])|
  }

  /** That is what the entry of the element holds when pass 2 comes to it. */
  lemma PlaceIsNext<C>(values: seq<nat>, cls: nat -> C, f: seq<nat>, rooms: seq<seq<nat>>, xs: seq<nat>, i: nat,
                       start: nat)
    requires i < |xs| && Placed(values, cls, f, rooms, xs, i, start) && EntryOf(cls, f, cls(xs[i])) != NONE
    ensures values[EntryOf(cls, f, cls(xs[i]))] == start + Place(cls, f, rooms, xs, i)
  {
    hide EntryOf, Offset, OfClass;
    var e := EntryOf(cls, f, cls(xs[i]));
    assert cls(f[e]) == cls(xs[i]);
  }

  /** Every element has an entry, a place within the partition, and it alone. */
  ghost predicate EachItsPlace<C>(cls: nat -> C, f: seq<nat>, rooms: seq<seq<nat>>, xs: seq<nat>)
    requires |f| == |rooms|
  {
    && Found(cls, f, xs, |xs|)
    && (forall i: nat :: i < |xs| ==> Place(cls, f, rooms, xs, i) < |xs|)
    && (forall i: nat, j: nat :: i < j < |xs| ==> Place(cls, f, rooms, xs, i) != Place(cls, f, rooms, xs, j))
  }

  lemma {:induction false} NthOfClass<C>(cls: nat -> C, c: C, xs: seq<nat>, k: nat) returns (i: nat)
    requires k < |OfClass(cls, c, xs)|
    ensures i < |xs| && cls(xs[i]) == c && |OfClass(cls, c, xs[..i])| == k
  {
    var n := |xs| - 1;
    if k < |OfClass(cls, c, xs[..n])| {
      i := NthOfClass(cls, c, xs[..n], k);
      assert xs[..n][..i] == xs[..i];
    } else {
      i := n;
    }
  }

  lemma {:induction false} LaterOfClass<C>(cls: nat -> C, c: C, xs: seq<nat>, i: nat, j: nat)
    requires i < j <= |xs| && cls(xs[i]) == c
    ensures |OfClass(cls, c, xs[..i])| < |OfClass(cls, c, xs[..j])|
  {
    hide OfClass;
    assert xs[..j][..i + 1] == xs[..i + 1] && xs[..j][..i] == xs[..i];
    OfClassPrefix(cls, c, xs[..j], i);
  }

  lemma EntryClass<C>(cls: nat -> C, f: seq<nat>, c: C, d: C)
    requires EntryOf(cls, f, c) == EntryOf(cls, f, d) != NONE
    ensures c == d
  {
    hide EntryOf;
    var e := EntryOf(cls, f, c);
    assert cls(f[e]) == c && cls(f[e]) == d;
  }

  /** With room for every class each element gets its own place. */
  lemma RoomyPlaces<C>(cls: nat -> C, t: Tally, rooms: seq<seq<nat>>, xs: seq<nat>)
    requires t.Valid() && Rooms(t.counts, rooms, |xs|) && !SomeShort(cls, t, xs)
    ensures EachItsPlace(cls, t.firsts, rooms, xs)
  {
    hide OfClass, Offset, Flatten, EntryOf;
    var f := t.firsts;
    forall i: nat | i < |xs|
      ensures EntryOf(cls, f, cls(xs[i])) != NONE
      ensures var e := EntryOf(cls, f, cls(xs[i]));
        && Place(cls, f, rooms, xs, i) < Offset(rooms, e) + |rooms[e]|
        && Place(cls, f, rooms, xs, i) < |xs| {
      LaterOfClass(cls, cls(xs[i]), xs, i, |xs|);
      assert xs[..|xs|] == xs && xs[i] in xs;
      assert !Short(cls, t, xs, xs[i]);
      var e := EntryOf(cls, f, cls(xs[i]));
      Apart(rooms, e, e);
    }
    forall i: nat, j: nat | i < j < |xs| ensures Place(cls, f, rooms, xs, i) != Place(cls, f, rooms, xs, j) {
      var e, g := EntryOf(cls, f, cls(xs[i])), EntryOf(cls, f, cls(xs[j]));
      if e == g {
        EntryClass(cls, f, cls(xs[i]), cls(xs[j]));
        LaterOfClass(cls, cls(xs[i]), xs, i, j);
      } else {
        Apart(rooms, e, g);
      }
    }
  }

  /** An element more than was counted for its class goes to the first place of the next entry, or behind
      the partition. */
  lemma ShortPlaces<C>(cls: nat -> C, t: Tally, rooms: seq<seq<nat>>, xs: seq<nat>, x: nat)
    requires t.Valid() && Rooms(t.counts, rooms, |xs|) && Entries(cls, t, xs) && Short(cls, t, xs, x)
    ensures !EachItsPlace(cls, t.firsts, rooms, xs)
  {
    hide OfClass, Offset, Flatten, EntryOf;
    var f := t.firsts;
    var e := EntryOf(cls, f, cls(x));
    if Found(cls, f, xs, |xs|) {
      var k :| 0 <= k < |xs| && xs[k] == x;
      assert EntryOf(cls, f, cls(xs[k])) != NONE;
      var i := NthOfClass(cls, cls(x), xs, |rooms[e]|);
      OffsetNext(rooms, e);
      assert Place(cls, f, rooms, xs, i) == Offset(rooms, e + 1);
      if e + 1 < |f| {
        FirstOfEntry(cls, t, xs, e + 1);
        var j := NthOfClass(cls, cls(f[e + 1]), xs, 0);
        assert Place(cls, f, rooms, xs, j) == Offset(rooms, e + 1);
        assert cls(f[e]) != cls(f[e + 1]) && i != j;
      }
    }
  }

  lemma FirstOfEntry<C>(cls: nat -> C, t: Tally, xs: seq<nat>, g: nat)
    requires t.Valid() && Entries(cls, t, xs) && g < |t.firsts|
    ensures EntryOf(cls, t.firsts, cls(t.firsts[g])) == g && |OfClass(cls, cls(t.firsts[g]), xs)| > 0
  {
    EntryAt(cls, t.firsts, g);
    OfClassMembers(cls, cls(t.firsts[g]), xs);
    assert t.firsts[g] in OfClass(cls, cls(t.firsts[g]), xs);
  }

  /** What pass 2 writes is right exactly if growth has not separated what had been counted as one. */
  lemma DividedGoesWrong<K>(d: Input<K>, cap: nat, xs: seq<nat>)
    requires cap > 0
    ensures var t := Tallied(d, cap, xs);
      && |RoomsFor(d, cap, xs)| == |t.firsts|
      && (EachItsPlace(Classes(d, t.cap), t.firsts, RoomsFor(d, cap, xs), xs) <==> Undivided(d, cap, xs))
  {
    hide Tallied, Undivided, RoomsFor, Classes, EachItsPlace;
    var t := Tallied(d, cap, xs);
    RoomsFit(d, cap, xs);
    RightOrShort(d, cap, xs);
    ExactlyUndivided(d, cap, xs);
    var cls := Classes(d, t.cap);
    if SomeShort(cls, t, xs) {
      var x: nat :| Short(cls, t, xs, x);
      ShortPlaces(cls, t, RoomsFor(d, cap, xs), xs, x);
    } else {
      RoomyPlaces(cls, t, RoomsFor(d, cap, xs), xs);
    }
  }
}
