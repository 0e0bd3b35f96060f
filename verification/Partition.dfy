/** The partition_by_key primitives: two passes over every partition, with a small hash table
    that counts the keys in the first pass and hands out places in the second. */
module Partitioning {
  import opened Bits
  import opened SlotChains
  import opened SmallTable
  import opened Grouping
  import opened Tallies

  /** The table's entries were made for the elements f. */
  ghost predicate Listed<K>(keys: seq<nat>, hashes: seq<Hash>, d: Input<K>, f: seq<nat>) {
    && |keys| == |hashes| == |f|
    && forall g :: 0 <= g < |f| ==> d.Has(f[g]) && keys[g] == d.rep[f[g]] && hashes[g] == d.hashes[f[g]]
  }

  /** The table is what has been counted. */
  ghost predicate Holds<K>(ht: HashmapSmall, d: Input<K>, t: Tally)
    reads ht
  {
    && t.Valid() && ht.capacity == t.cap && ht.capLimit == t.cap * 7 / 10 && ht.storageUsed == |t.firsts|
    && ht.values == t.counts && Listed(ht.keys, ht.hashes, d, t.firsts)
  }

  lemma {:induction false} EntryNewest<C>(cls: nat -> C, f: seq<nat>, c: C, g: nat)
    requires g < |f| && cls(f[g]) == c
    ensures g <= EntryOf(cls, f, c)
  {
    if g < |f| - 1 && cls(f[|f| - 1]) != c { EntryNewest(cls, f[..|f| - 1], c, g); }
  }

  /** Looking up an element finds the entry of its class. */
  method Lookup<K(==)>(ht: HashmapSmall, d: Input<K>, ghost f: seq<nat>, x: nat) returns (el: nat)
    requires ht.Valid() && d.Has(x) && Listed(ht.keys, ht.hashes, d, f)
    ensures var e := EntryOf(Classes(d, ht.capacity), f, Classes(d, ht.capacity)(x));
      if e == NONE then el == EMPTY else el == e < |f| == ht.storageUsed && el < EMPTY
  {
    hide HashmapSmall.Stored, HashmapSmall.Threaded, EntryOf, Slot;
    ghost var cls := Classes(d, ht.capacity);
    var key := d.keys[d.rep[x]];
    el := ht.FindFirst(d.hashes[x], (pos: nat) => pos < |d.keys| && d.keys[pos] == key);
    forall g: nat | g < |f| ensures cls(f[g]) == cls(x) <==> d.keys[ht.keys[g]] == key && ht.InSlot(g, d.hashes[x]) { }
    ghost var e := EntryOf(cls, f, cls(x));
    if e != NONE { assert ht.InSlot(e, d.hashes[x]); }
    if el != EMPTY { EntryNewest(cls, f, cls(x), el); }
  }

  /** Pass 1, one element. */
  method CountOne<K(==)>(ht: HashmapSmall, d: Input<K>, ghost t: Tally, x: nat)
    requires ht.Valid() && Holds(ht, d, t) && d.Has(x) && |t.firsts| < ht.size
    modifies ht, ht.entries, ht.storage
    ensures ht.Valid() && Holds(ht, d, Counting(d, t, x))
  {
    hide HashmapSmall.Stored, HashmapSmall.Threaded, EntryOf, Slot, Classes;
    var el := Lookup(ht, d, t.firsts, x);
    if el != EMPTY {
      ReadValue(ht, el);
      ht.SetValue(el, ht.storage[el].value + 1);
    } else {
      ht.Insert(d.rep[x], d.hashes[x], 1);
      SizedLimit(ht);
    }
  }

  lemma SizedLimit(ht: HashmapSmall)
    requires ht.Valid()
    ensures ht.capLimit == ht.capacity * 7 / 10 && ht.capacity > 0
  {
  }

  lemma ReadValue(ht: HashmapSmall, i: nat)
    requires ht.Valid() && i < ht.storageUsed
    ensures ht.storage[i].value == ht.values[i]
  {
  }

  /** Pass 1: determine the frequency of each key. */
  method CountPass<K(==)>(ht: HashmapSmall, d: Input<K>, sel: seq<nat>, start: nat, end: nat)
    requires ht.Valid() && ht.Empty()
    requires start <= end <= |sel| && d.Covers(sel[start..end]) && end - start <= ht.size
    modifies ht, ht.entries, ht.storage
    ensures ht.Valid() && old(ht.capacity) > 0 && Holds(ht, d, Tallied(d, old(ht.capacity), sel[start..end]))
  {
    hide HashmapSmall.Stored, HashmapSmall.Threaded, Counting;
    var xs := sel[start..end];
    ghost var cap := ht.capacity;
    SizedLimit(ht);
    var i := start;
    assert xs[..0] == [];
    while i < end
      invariant start <= i <= end && ht.Valid() && Holds(ht, d, Tallied(d, cap, xs[..i - start]))
    {
      var k := i - start;
      assert xs[..k + 1][..k] == xs[..k] && xs[..k + 1][k] == sel[i] && sel[i] in xs;
      TallySize(d, cap, xs[..k]);
      CountOne(ht, d, Tallied(d, cap, xs[..k]), sel[i]);
      i := i + 1;
    }
    assert xs[..end - start] == xs;
  }

  // ------------------------------------------------------ places and pass 2

  /** The room of each entry: as many places as were counted for it. */
  ghost predicate Rooms(counts: seq<nat>, rooms: seq<seq<nat>>, n: nat) {
    |rooms| == |counts| && |Flatten(rooms)| == n && forall g :: 0 <= g < |rooms| ==> |rooms[g]| == counts[g]
  }

  /** Each entry holds the place of the next element of its class, i elements into pass 2. */
  ghost predicate Placed<C>(values: seq<nat>, cls: nat -> C, f: seq<nat>, rooms: seq<seq<nat>>, xs: seq<nat>, i: nat,
                            start: nat)
    requires i <= |xs|
  {
    |values| == |f| == |rooms| && forall g :: 0 <= g < |f| ==>
      && values[g] == start + Offset(rooms, g) + |OfClass(cls, cls(f[g]), xs[..i])|
      && |OfClass(cls, cls(f[g]), xs[..i])| <= |rooms[g]|
  }

  ghost predicate Scattered<C>(out: seq<nat>, cls: nat -> C, f: seq<nat>, rooms: seq<seq<nat>>, xs: seq<nat>, i: nat,
                               start: nat)
    requires i <= |xs| && |f| == |rooms|
  {
    forall g :: 0 <= g < |f| ==> StandsAt(out, start + Offset(rooms, g), OfClass(cls, cls(f[g]), xs[..i]))
  }

  ghost predicate StandsAt(out: seq<nat>, at: nat, part: seq<nat>) {
    at + |part| <= |out| && out[at..at + |part|] == part
  }

  /** Elements so far have an entry. */
  ghost predicate Found<C>(cls: nat -> C, f: seq<nat>, xs: seq<nat>, i: nat)
    requires i <= |xs|
  {
    forall j :: 0 <= j < i ==> EntryOf(cls, f, cls(xs[j])) != NONE
  }

  /** Where the rooms end. */
  ghost predicate Bounds(bounds: array<nat>, first: nat, rooms: seq<seq<nat>>, start: nat)
    reads bounds
  {
    first + |rooms| <= bounds.Length &&
    forall g :: 0 <= g < |rooms| ==> bounds[first + g] == start + Offset(rooms, g) + |rooms[g]|
  }

  lemma Apart(rooms: seq<seq<nat>>, g: nat, h: nat)
    requires g < |rooms| && h < |rooms|
    ensures Offset(rooms, g) + |rooms[g]| <= |Flatten(rooms)|
    ensures g < h ==> Offset(rooms, g) + |rooms[g]| <= Offset(rooms, h)
    ensures h < g ==> Offset(rooms, h) + |rooms[h]| <= Offset(rooms, g)
  {
    OffsetOrder(rooms, g, |rooms|);
    if g < h { OffsetOrder(rooms, g, h); } else if h < g { OffsetOrder(rooms, h, g); }
  }

  lemma ScatterStep<C>(values: seq<nat>, out: seq<nat>, cls: nat -> C, f: seq<nat>, rooms: seq<seq<nat>>, xs: seq<nat>,
                       i: nat, start: nat, el: nat)
    requires i < |xs| && start + |xs| <= |out| && |Flatten(rooms)| == |xs| && Unlike(cls, f)
    requires Placed(values, cls, f, rooms, xs, i, start) && Scattered(out, cls, f, rooms, xs, i, start)
    requires el < |f| && cls(f[el]) == cls(xs[i]) && values[el] != start + Offset(rooms, el) + |rooms[el]|
    ensures start <= values[el] < start + |xs|
    ensures Placed(values[el := values[el] + 1], cls, f, rooms, xs, i + 1, start)
    ensures Scattered(out[values[el] := xs[i]], cls, f, rooms, xs, i + 1, start)
  {
    hide OfClass, Offset, StandsAt, Flatten;
    OfClassPrefix(cls, cls(f[el]), xs, i);
    Apart(rooms, el, el);
    var pos := values[el];
    forall g: nat | g < |f|
      ensures values[el := pos + 1][g] == start + Offset(rooms, g) + |OfClass(cls, cls(f[g]), xs[..i + 1])|
      ensures |OfClass(cls, cls(f[g]), xs[..i + 1])| <= |rooms[g]|
      ensures StandsAt(out[pos := xs[i]], start + Offset(rooms, g), OfClass(cls, cls(f[g]), xs[..i + 1])) {
      OfClassPrefix(cls, cls(f[g]), xs, i);
      var part, at := OfClass(cls, cls(f[g]), xs[..i]), start + Offset(rooms, g);
      assert StandsAt(out, at, part);
      if g == el {
        StandsMore(out, at, part, xs[i]);
      } else {
        assert cls(f[g]) != cls(f[el]);
        assert part + [] == part;
        Apart(rooms, g, el);
        StandsStill(out, at, part, pos, xs[i]);
      }
    }
  }

  lemma StandsMore(out: seq<nat>, at: nat, part: seq<nat>, x: nat)
    requires StandsAt(out, at, part) && at + |part| < |out|
    ensures StandsAt(out[at + |part| := x], at, part + [x])
  {
    var out' := out[at + |part| := x];
    assert out'[at..at + |part|] == out[at..at + |part|];
    assert out'[at..at + |part| + 1] == out'[at..at + |part|] + [x];
  }

  lemma StandsStill(out: seq<nat>, at: nat, part: seq<nat>, pos: nat, x: nat)
    requires StandsAt(out, at, part) && pos < |out| && (pos < at || at + |part| <= pos)
    ensures StandsAt(out[pos := x], at, part)
  {
    assert out[pos := x][at..at + |part|] == out[at..at + |part|];
  }

  lemma StandsWithin(out: seq<nat>, start: nat, n: nat, at: nat, part: seq<nat>)
    requires StandsAt(out, start + at, part) && at + |part| <= n && start + n <= |out|
    ensures out[start..start + n][at..at + |part|] == part
  {
    var here := out[start..start + n];
    assert forall k :: 0 <= k < n ==> here[k] == out[start + k];
    forall k | 0 <= k < |part| ensures here[at..at + |part|][k] == part[k] {
      assert out[start + at..start + at + |part|][k] == out[start + at + k];
    }
  }

  /** What stands in the rooms is the classes one behind the other, if the rooms are the classes. */
  lemma ScatteredAll<C>(out: seq<nat>, cls: nat -> C, xs: seq<nat>, start: nat)
    requires start + |xs| <= |out| && Scattered(out, cls, Firsts(cls, xs), Split(cls, xs), xs, |xs|, start)
    ensures out[start..start + |xs|] == Flatten(Split(cls, xs))
  {
    hide Scattered, OfClass, Firsts, Split, Flatten;
    SplitLength(cls, xs);
    SplitAt(cls, xs);
    RoomsFilled(out, cls, Firsts(cls, xs), Split(cls, xs), xs, start);
  }

  lemma RoomsFilled<C>(out: seq<nat>, cls: nat -> C, f: seq<nat>, rooms: seq<seq<nat>>, xs: seq<nat>, start: nat)
    requires start + |xs| <= |out| && |f| == |rooms| && Scattered(out, cls, f, rooms, xs, |xs|, start)
    requires |Flatten(rooms)| == |xs| && forall g :: 0 <= g < |f| ==> rooms[g] == OfClass(cls, cls(f[g]), xs)
    ensures out[start..start + |xs|] == Flatten(rooms)
  {
    hide Scattered, OfClass, Flatten, Offset, StandsAt;
    var here := out[start..start + |xs|];
    forall g: nat | g < |rooms|
      ensures Offset(rooms, g) + |rooms[g]| <= |here|
      ensures here[Offset(rooms, g)..Offset(rooms, g) + |rooms[g]|] == rooms[g] {
      Apart(rooms, g, g);
      StandsHere(out, cls, f, rooms, xs, start, g);
      StandsWithin(out, start, |xs|, Offset(rooms, g), rooms[g]);
    }
    Assemble(rooms, here, |rooms|);
    AllOf(rooms, here);
  }

  lemma StandsHere<C>(out: seq<nat>, cls: nat -> C, f: seq<nat>, parts: seq<seq<nat>>, xs: seq<nat>, start: nat, g: nat)
    requires |f| == |parts| && g < |f| && Scattered(out, cls, f, parts, xs, |xs|, start)
    requires parts[g] == OfClass(cls, cls(f[g]), xs)
    ensures StandsAt(out, start + Offset(parts, g), parts[g])
  {
    hide OfClass, Offset, StandsAt;
    assert xs[..|xs|] == xs;
    assert StandsAt(out, start + Offset(parts, g), OfClass(cls, cls(f[g]), xs[..|xs|]));
  }

  lemma SplitAt<C>(cls: nat -> C, xs: seq<nat>)
    ensures forall g :: 0 <= g < |Firsts(cls, xs)| ==> Split(cls, xs)[g] == OfClass(cls, cls(Firsts(cls, xs)[g]), xs)
  {
  }

  lemma AllOf(parts: seq<seq<nat>>, here: seq<nat>)
    requires |Flatten(parts)| == |here|
    requires Offset(parts, |parts|) <= |here| && here[..Offset(parts, |parts|)] == Flatten(parts[..|parts|])
    ensures here == Flatten(parts)
  {
    assert parts[..|parts|] == parts;
  }

  lemma OffsetStep(rooms: seq<seq<nat>>, k: nat)
    requires k < |rooms|
    ensures Offset(rooms, 0) == 0 && Offset(rooms, |rooms|) == |Flatten(rooms)|
    ensures Offset(rooms, k + 1) == Offset(rooms, k) + |rooms[k]|
    ensures forall start: nat :: Ends(rooms[..k + 1], start) == Ends(rooms[..k], start) + [start + Offset(rooms, k + 1)]
  {
    OffsetNext(rooms, k);
    assert rooms[..k + 1][..k] == rooms[..k];
  }

  /** The place of one class, and its bound. */
  method OffsetOne(ht: HashmapSmall, k: nat, startCurPart: nat, bounds: array<nat>, out: nat) returns (next: nat)
    requires ht.Valid() && k < ht.storageUsed
    requires bounds != ht.entries && out < bounds.Length
    modifies ht`values, ht.storage, bounds
    ensures ht.Valid() && next == startCurPart + old(ht.values)[k]
    ensures ht.values == old(ht.values)[k := startCurPart]
    ensures bounds[..out + 1] == old(bounds[..out]) + [next]
  {
    hide HashmapSmall.Stored, HashmapSmall.Threaded;
    ReadValue(ht, k);
    var count := ht.storage[k].value;
    ht.SetValue(k, startCurPart);
    next := startCurPart + count;
    bounds[out] := next;
  }

  /** Turns the frequencies into places, and writes the bounds. */
  method OffsetPass(ht: HashmapSmall, ghost rooms: seq<seq<nat>>, ghost n: nat, start: nat, bounds: array<nat>,
                    outPartition: nat) returns (startCurPart: nat, out: nat)
    requires ht.Valid() && Rooms(ht.values, rooms, n)
    requires bounds != ht.entries && outPartition + |rooms| <= bounds.Length
    modifies ht`values, ht.storage, bounds
    ensures ht.Valid() && |ht.values| == |rooms| && forall g :: 0 <= g < |rooms| ==>
      ht.values[g] == start + Offset(rooms, g)
    ensures startCurPart == start + n && out == outPartition + |rooms| <= bounds.Length
    ensures bounds[..out] == old(bounds[..outPartition]) + Ends(rooms, start)
    ensures Bounds(bounds, outPartition, rooms, start)
  {
    hide HashmapSmall.Stored, HashmapSmall.Threaded, Offset, Ends, Flatten;
    NoOffset(rooms, start);
    SizedCounts(ht);
    startCurPart, out := start, outPartition;
    ghost var before := bounds[..outPartition];
    var k := 0;
    while k < ht.storageUsed
      invariant k <= ht.storageUsed == |rooms| && out == outPartition + k
      invariant ht.Valid() && |ht.values| == |rooms| && startCurPart == start + Offset(rooms, k)
      invariant forall g :: 0 <= g < k ==> ht.values[g] == start + Offset(rooms, g)
      invariant forall g :: k <= g < |rooms| ==> ht.values[g] == |rooms[g]|
      invariant bounds[..out] == before + Ends(rooms[..k], start)
    {
      OffsetStep(rooms, k);
      startCurPart := OffsetOne(ht, k, startCurPart, bounds, out);
      out := out + 1;
      k := k + 1;
    }
    assert rooms[..|rooms|] == rooms;
    WrittenBounds(bounds[..out], before, rooms, start);
  }

  lemma SizedCounts(ht: HashmapSmall)
    requires ht.Valid()
    ensures ht.storageUsed == |ht.values|
  {
  }

  lemma NoOffset(rooms: seq<seq<nat>>, start: nat)
    ensures Offset(rooms, 0) == 0 && Offset(rooms, |rooms|) == |Flatten(rooms)| && Ends(rooms[..0], start) == []
  {
    assert rooms[..|rooms|] == rooms;
  }

  lemma WrittenBounds(s: seq<nat>, before: seq<nat>, rooms: seq<seq<nat>>, start: nat)
    requires s == before + Ends(rooms, start)
    ensures forall g :: 0 <= g < |rooms| ==> s[|before| + g] == start + Offset(rooms, g) + |rooms[g]|
  {
    forall g: nat | g < |rooms| ensures s[|before| + g] == start + Offset(rooms, g) + |rooms[g]| {
      EndsAt(rooms, start, g);
      OffsetNext(rooms, g);
    }
  }

  /** Pass 2, one element. It fails if the element has no entry (the pointer findFirst returns is null),
      or the room of its entry is used up. */
  method ScatterOne<K(==)>(ht: HashmapSmall, d: Input<K>, ghost t: Tally, ghost rooms: seq<seq<nat>>,
                           ghost xs: seq<nat>,
                           ghost i: nat, ghost start: nat, x: nat, selOut: array<nat>, bounds: array<nat>, first: nat)
    returns (ok: bool)
    requires ht.Valid() && t.Valid() && ht.capacity == t.cap && Listed(ht.keys, ht.hashes, d, t.firsts)
    requires Rooms(t.counts, rooms, |xs|) && Bounds(bounds, first, rooms, start) && Entries(Classes(d, t.cap), t, xs)
    requires i < |xs| && x == xs[i] && d.Has(x)
    requires start + |xs| <= selOut.Length && selOut != ht.entries && selOut != bounds
    requires Placed(ht.values, Classes(d, t.cap), t.firsts, rooms, xs, i, start)
    requires Scattered(selOut[..], Classes(d, t.cap), t.firsts, rooms, xs, i, start)
    modifies ht`values, ht.storage, selOut
    ensures !ok ==> SomeShort(Classes(d, t.cap), t, xs)
    ensures ok ==>
      && ht.Valid() && selOut[..start] == old(selOut[..start])
      && Placed(ht.values, Classes(d, t.cap), t.firsts, rooms, xs, i + 1, start)
      && Scattered(selOut[..], Classes(d, t.cap), t.firsts, rooms, xs, i + 1, start)
      && EntryOf(Classes(d, t.cap), t.firsts, Classes(d, t.cap)(x)) != NONE
  {
    hide HashmapSmall.Stored, HashmapSmall.Threaded, Slot, Listed, Placed, Scattered, Classes, EntryOf, OfClass,
      Offset, Flatten;
    ghost var cls := Classes(d, t.cap);
    var el := Lookup(ht, d, t.firsts, x);
    if el == EMPTY {
      NoEntry(cls, t, xs, i);
      return false;
    }
    ReadValue(ht, el);
    var groupOffset := ht.storage[el].value;
    if groupOffset == bounds[first + el] {
      RoomUsedUp(ht.values, cls, t, rooms, xs, i, start, el);
      return false;
    }
    ScatterStep(ht.values, selOut[..], cls, t.firsts, rooms, xs, i, start, el);
    ghost var was := selOut[..];
    selOut[groupOffset] := x;
    assert selOut[..] == was[groupOffset := x];
    ht.SetValue(el, groupOffset + 1);
    ok := true;
  }

  lemma NoEntry<C>(cls: nat -> C, t: Tally, xs: seq<nat>, i: nat)
    requires t.Valid() && i < |xs| && EntryOf(cls, t.firsts, cls(xs[i])) == NONE
    ensures SomeShort(cls, t, xs)
  {
    OfClassMembers(cls, cls(xs[i]), xs);
    assert xs[i] in OfClass(cls, cls(xs[i]), xs);
    assert Short(cls, t, xs, xs[i]);
  }

  lemma RoomUsedUp<C>(values: seq<nat>, cls: nat -> C, t: Tally, rooms: seq<seq<nat>>, xs: seq<nat>, i: nat,
                      start: nat, el: nat)
    requires t.Valid() && Unlike(cls, t.firsts) && Rooms(t.counts, rooms, |xs|)
    requires i < |xs| && el < |t.firsts| && cls(t.firsts[el]) == cls(xs[i])
    requires Placed(values, cls, t.firsts, rooms, xs, i, start)
    requires values[el] == start + Offset(rooms, el) + |rooms[el]|
    ensures SomeShort(cls, t, xs)
  {
    hide OfClass, Offset, EntryOf;
    OfClassPrefix(cls, cls(xs[i]), xs, i);
    EntryAt(cls, t.firsts, el);
    assert Short(cls, t, xs, xs[i]);
  }

  /** Pass 2: every element goes to the place of its class. */
  method ScatterPass<K(==)>(ht: HashmapSmall, d: Input<K>, ghost t: Tally, ghost rooms: seq<seq<nat>>, sel: seq<nat>,
                            start: nat, end: nat, selOut: array<nat>, bounds: array<nat>, first: nat) returns (ok: bool)
    requires ht.Valid() && t.Valid() && ht.capacity == t.cap && Listed(ht.keys, ht.hashes, d, t.firsts)
    requires start <= end <= |sel| && d.Covers(sel[start..end])
    requires end <= selOut.Length && selOut != ht.entries && selOut != bounds
    requires Rooms(t.counts, rooms, end - start) && Bounds(bounds, first, rooms, start)
    requires Entries(Classes(d, t.cap), t, sel[start..end])
    requires |ht.values| == |rooms| && forall g :: 0 <= g < |rooms| ==> ht.values[g] == start + Offset(rooms, g)
    modifies ht`values, ht.storage, selOut
    ensures ok <==> !SomeShort(Classes(d, t.cap), t, sel[start..end])
    ensures ok ==> ht.Valid() && selOut[..start] == old(selOut[..start])
    ensures ok ==> Scattered(selOut[..], Classes(d, t.cap), t.firsts, rooms, sel[start..end], end - start, start)
  {
    hide HashmapSmall.Stored, HashmapSmall.Threaded, Slot, Listed, Placed, Scattered, Classes, EntryOf, Entries,
      Offset, Flatten, Input.Covers;
    var xs := sel[start..end];
    ghost var cls := Classes(d, t.cap);
    ghost var before := selOut[..start];
    NothingScattered(ht.values, selOut[..], cls, t.firsts, rooms, xs, start);
    var i := start;
    while i < end
      invariant start <= i <= end
      invariant ht.Valid() && selOut[..start] == before
      invariant Placed(ht.values, cls, t.firsts, rooms, xs, i - start, start)
      invariant Scattered(selOut[..], cls, t.firsts, rooms, xs, i - start, start)
      invariant Found(cls, t.firsts, xs, i - start)
    {
      assert sel[i] == xs[i - start] && sel[i] in xs;
      CoversOne(d, xs, sel[i]);
      ok := ScatterOne(ht, d, t, rooms, xs, i - start, start, sel[i], selOut, bounds, first);
      if !ok { return; }
      i := i + 1;
    }
    NothingShort(ht.values, cls, t, rooms, xs, start);
    ok := true;
  }

  lemma CoversOne<K>(d: Input<K>, xs: seq<nat>, x: nat)
    requires d.Covers(xs) && x in xs
    ensures d.Has(x)
  {
  }

  lemma NothingShort<C>(values: seq<nat>, cls: nat -> C, t: Tally, rooms: seq<seq<nat>>, xs: seq<nat>, start: nat)
    requires t.Valid() && Rooms(t.counts, rooms, |xs|) && Placed(values, cls, t.firsts, rooms, xs, |xs|, start)
    requires Found(cls, t.firsts, xs, |xs|)
    ensures !SomeShort(cls, t, xs)
  {
    hide OfClass, Offset;
    assert xs[..|xs|] == xs;
    forall x: nat | x in xs ensures !Short(cls, t, xs, x) {
      var j :| 0 <= j < |xs| && xs[j] == x;
      assert EntryOf(cls, t.firsts, cls(xs[j])) != NONE;
    }
  }

  lemma NothingScattered<C>(values: seq<nat>, out: seq<nat>, cls: nat -> C, f: seq<nat>, rooms: seq<seq<nat>>,
                            xs: seq<nat>, start: nat)
    requires start + |xs| <= |out| && |values| == |f| == |rooms| && |Flatten(rooms)| == |xs|
    requires forall g :: 0 <= g < |rooms| ==> values[g] == start + Offset(rooms, g)
    ensures Placed(values, cls, f, rooms, xs, 0, start) && Scattered(out, cls, f, rooms, xs, 0, start)
    ensures Found(cls, f, xs, 0)
  {
    hide Offset, Flatten;
    forall g: nat | g < |f| ensures StandsAt(out, start + Offset(rooms, g), OfClass(cls, cls(f[g]), xs[..0])) {
      Apart(rooms, g, g);
    }
  }

  /** The slots of the elements of a partition are all slots in use. */
  lemma ElementsCover<K>(ht: HashmapSmall, d: Input<K>, f: seq<nat>, xs: seq<nat>, used: seq<Hash>)
    requires ht.Sized() && Listed(ht.keys, ht.hashes, d, f) && forall g :: 0 <= g < |f| ==> f[g] in xs
    requires |used| == |xs| && forall j :: 0 <= j < |xs| ==> d.Has(xs[j]) && used[j] == d.hashes[xs[j]]
    ensures ht.Covers(used)
  {
    hide Slot;
    forall g: nat | g < ht.storageUsed ensures ht.CoversEntry(used, g) {
      var j :| 0 <= j < |xs| && xs[j] == f[g];
      assert used[j] == ht.hashes[g];
      assert Slot(used[j], ht.capacity) == Slot(ht.hashes[g], ht.capacity);
    }
  }

  method ClearPass<K>(ht: HashmapSmall, d: Input<K>, ghost f: seq<nat>, sel: seq<nat>, start: nat, end: nat)
    requires ht.Valid() && start <= end <= |sel| && d.Covers(sel[start..end])
    requires Listed(ht.keys, ht.hashes, d, f) && forall g :: 0 <= g < |f| ==> f[g] in sel[start..end]
    modifies ht, ht.entries, ht.storage
    ensures ht.Valid() && ht.Empty() && ht.capacity == old(ht.capacity)
  {
    hide HashmapSmall.Stored, HashmapSmall.Threaded, Slot, Listed;
    ghost var xs := sel[start..end];
    assert forall j :: 0 <= j < |xs| ==> xs[j] in xs && sel[start + j] == xs[j];
    var used := seq(end - start, j requires 0 <= j < end - start && d.Has(sel[start + j]) => d.hashes[sel[start + j]]);
    ElementsCover(ht, d, f, xs, used);
    ht.Clear(used);
  }

  /** Rooms for what was counted: the classes themselves, if all is right. */
  ghost function RoomsFor<K>(d: Input<K>, cap: nat, xs: seq<nat>): seq<seq<nat>>
    requires cap > 0
  {
    var t := Tallied(d, cap, xs);
    if Undivided(d, cap, xs) then Split(Classes(d, t.cap), xs)
    else seq(|t.counts|, g requires 0 <= g < |t.counts| => seq(t.counts[g], _ => 0))
  }

  lemma {:induction false} CountsAddUp<K>(d: Input<K>, cap: nat, xs: seq<nat>, rooms: seq<seq<nat>>)
    requires cap > 0 && |rooms| == |Tallied(d, cap, xs).counts|
    requires forall g :: 0 <= g < |rooms| ==> |rooms[g]| == Tallied(d, cap, xs).counts[g]
    ensures |Flatten(rooms)| == |xs|
  {
    hide EntryOf, Classes;
    if xs != [] {
      var t, x := Tallied(d, cap, xs[..|xs| - 1]), xs[|xs| - 1];
      var e := EntryOf(Classes(d, t.cap), t.firsts, Classes(d, t.cap)(x));
      if e != NONE {
        FlattenUpdate(rooms, e, rooms[e][1..]);
        CountsAddUp(d, cap, xs[..|xs| - 1], rooms[e := rooms[e][1..]]);
      } else {
        CountsAddUp(d, cap, xs[..|xs| - 1], rooms[..|rooms| - 1]);
      }
    }
  }

  lemma RoomsFit<K>(d: Input<K>, cap: nat, xs: seq<nat>)
    requires cap > 0
    ensures Rooms(Tallied(d, cap, xs).counts, RoomsFor(d, cap, xs), |xs|)
    ensures |RoomsFor(d, cap, xs)| <= |xs|
  {
    var t, rooms := Tallied(d, cap, xs), RoomsFor(d, cap, xs);
    hide Tallied, Undivided, Firsts, OfClass, Classes, Flatten;
    RightOrShort(d, cap, xs);
    TallySize(d, cap, xs);
    CountsAddUp(d, cap, xs, rooms);
  }

  /** One partition. It fails exactly if growing the directory separated elements that had been
      counted as one. */
  method PartitionOne<K(==)>(ht: HashmapSmall, d: Input<K>, sel: seq<nat>, start: nat, end: nat,
                             selOut: array<nat>, bounds: array<nat>, outPartition: nat) returns (ok: bool, out: nat)
    requires ht.Valid() && ht.Empty() && ht.capacity > 0
    requires start <= end <= |sel| && d.Covers(sel[start..end]) && end - start <= ht.size
    requires end <= selOut.Length && outPartition + (end - start) <= bounds.Length
    requires selOut != ht.entries && bounds != ht.entries && selOut != bounds
    modifies ht, ht.entries, ht.storage, selOut, bounds
    ensures ok <==> Undivided(d, old(ht.capacity), sel[start..end])
    ensures ok ==>
      var t := Tallied(d, old(ht.capacity), sel[start..end]);
      var parts := Split(Classes(d, t.cap), sel[start..end]);
      && ht.Valid() && ht.Empty() && ht.capacity == t.cap
      && out == outPartition + |parts| <= bounds.Length
      && selOut[..end] == old(selOut[..start]) + Flatten(parts)
      && bounds[..out] == old(bounds[..outPartition]) + Ends(parts, start)
  {
    hide HashmapSmall.Stored, HashmapSmall.Threaded, Slot, Listed, Placed, Scattered, Flatten, Split, Ends, Tallied,
      Undivided, RoomsFor, Firsts, Classes;
    ghost var xs, cap := sel[start..end], ht.capacity;
    ghost var t, rooms := Tallied(d, cap, xs), RoomsFor(d, cap, xs);
    RoomsFit(d, cap, xs);
    RightOrShort(d, cap, xs);
    ExactlyUndivided(d, cap, xs);
    CountPass(ht, d, sel, start, end);
    var startCurPart;
    startCurPart, out := OffsetPass(ht, rooms, end - start, start, bounds, outPartition);
    ok := ScatterPass(ht, d, t, rooms, sel, start, end, selOut, bounds, outPartition);
    if ok {
      RoomsAreClasses(d, cap, xs);
      ScatteredAll(selOut[..], Classes(d, t.cap), xs, start);
      assert selOut[..end] == selOut[..start] + selOut[..][start..start + |xs|];
      ClearPass(ht, d, t.firsts, sel, start, end);
    }
  }

  lemma RoomsAreClasses<K>(d: Input<K>, cap: nat, xs: seq<nat>)
    requires cap > 0 && Undivided(d, cap, xs)
    ensures var t := Tallied(d, cap, xs);
      RoomsFor(d, cap, xs) == Split(Classes(d, t.cap), xs) && t.firsts == Firsts(Classes(d, t.cap), xs)
  {
    RightOrShort(d, cap, xs);
  }

  // ------------------------------------------------------ the whole primitive

  /** The capacity after all these partitions; it is never made smaller. */
  ghost function CapAfter<K>(d: Input<K>, cap: nat, parts: seq<seq<nat>>): (c: nat)
    requires cap > 0
    ensures c > 0
  {
    if parts == [] then cap else Tallied(d, CapAfter(d, cap, parts[..|parts| - 1]), parts[|parts| - 1]).cap
  }

  /** Every partition split into the classes that the table tells apart at its end. */
  ghost function RefineEach<K>(d: Input<K>, cap: nat, parts: seq<seq<nat>>): seq<seq<nat>>
    requires cap > 0
  {
    if parts == [] then []
    else RefineEach(d, cap, parts[..|parts| - 1]) + Split(Classes(d, CapAfter(d, cap, parts)), parts[|parts| - 1])
  }

  /** In no partition growth divides what was counted as one. */
  ghost predicate NeverDivided<K>(d: Input<K>, cap: nat, parts: seq<seq<nat>>)
    requires cap > 0
  {
    forall p :: 0 <= p < |parts| ==> Undivided(d, CapAfter(d, cap, parts[..p]), parts[p])
  }

  lemma EachStep<K>(d: Input<K>, cap: nat, parts: seq<seq<nat>>, p: nat)
    requires cap > 0 && p < |parts|
    ensures CapAfter(d, cap, parts[..p + 1]) == Tallied(d, CapAfter(d, cap, parts[..p]), parts[p]).cap
    ensures RefineEach(d, cap, parts[..p + 1]) ==
            RefineEach(d, cap, parts[..p]) + Split(Classes(d, CapAfter(d, cap, parts[..p + 1])), parts[p])
    ensures |Flatten(parts[..p + 1])| == |Flatten(parts[..p])| + |parts[p]| <= |Flatten(parts)|
    ensures Flatten(parts)[|Flatten(parts[..p])|..|Flatten(parts[..p + 1])|] == parts[p]
    ensures Ends(parts, 0)[p] == |Flatten(parts[..p + 1])|
  {
    EndsAt(parts, 0, p);
    assert parts[..p + 1][..p] == parts[..p];
  }

  /** partition_by_key. `parts` are the partitions that come in: sel holds them one behind the other,
      partitionBounds their ends. What goes out is every one of them split into the classes of its
      elements, unless a pass was divided. */
  method PartitionByKey<K(==)>(n: nat, sel: seq<nat>, d: Input<K>, partitionBounds: seq<nat>,
                               selOut: array<nat>, partitionBoundsOut: array<nat>, ht: HashmapSmall,
                               ghost parts: seq<seq<nat>>) returns (ok: bool, outPartition: nat)
    requires ht.Valid() && ht.Empty() && ht.capacity > 0
    requires n == |parts| <= |partitionBounds| && partitionBounds[..n] == Ends(parts, 0)
    requires |Flatten(parts)| <= |sel| && sel[..|Flatten(parts)|] == Flatten(parts) && d.Covers(Flatten(parts))
    requires forall p :: 0 <= p < n ==> |parts[p]| <= ht.size
    requires |Flatten(parts)| <= selOut.Length && |Flatten(parts)| <= partitionBoundsOut.Length
    requires selOut != ht.entries && partitionBoundsOut != ht.entries && selOut != partitionBoundsOut
    modifies ht, ht.entries, ht.storage, selOut, partitionBoundsOut
    ensures ok <==> NeverDivided(d, old(ht.capacity), parts)
    ensures ok ==>
      var out := RefineEach(d, old(ht.capacity), parts);
      && ht.Valid() && ht.Empty() && ht.capacity == CapAfter(d, old(ht.capacity), parts)
      && outPartition == |out| <= partitionBoundsOut.Length && |Flatten(out)| == |Flatten(parts)|
      && selOut[..|Flatten(parts)|] == Flatten(out)
      && partitionBoundsOut[..outPartition] == Ends(out, 0)
  {
    hide HashmapSmall.Stored, HashmapSmall.Threaded, Slot, Flatten, Split, Ends, RefineEach, CapAfter, Undivided,
      Firsts, Classes, Tallied, Input.Covers;
    ghost var cap, all := ht.capacity, Flatten(parts);
    var startCurPart := 0;
    outPartition := 0;
    NoParts(d, cap, parts);
    var p := 0;
    while p < n
      invariant p <= n && startCurPart == |Flatten(parts[..p])| <= |all|
      invariant ht.Valid() && ht.Empty() && ht.capacity == CapAfter(d, cap, parts[..p])
      invariant forall q :: 0 <= q < p ==> Undivided(d, CapAfter(d, cap, parts[..q]), parts[q])
      invariant outPartition == |RefineEach(d, cap, parts[..p])| <= startCurPart
      invariant selOut[..startCurPart] == Flatten(RefineEach(d, cap, parts[..p]))
      invariant partitionBoundsOut[..outPartition] == Ends(RefineEach(d, cap, parts[..p]), 0)
    {
      EachStep(d, cap, parts, p);
      var end := partitionBounds[p];
      assert end == partitionBounds[..n][p];
      SliceOfPrefix(sel, |all|, startCurPart, end);
      assert sel[startCurPart..end] == parts[p];
      CoversPart(d, all, startCurPart, end);
      ghost var before, more := RefineEach(d, cap, parts[..p]), Split(Classes(d, CapAfter(d, cap, parts[..p + 1])),
                                           parts[p]);
      ok, outPartition := PartitionOne(ht, d, sel, startCurPart, end, selOut, partitionBoundsOut, outPartition);
      if !ok { return; }
      EndsConcat(before, more, 0);
      FlattenConcat(before, more);
      startCurPart := end;
      p := p + 1;
    }
    assert parts[..n] == parts;
    ok := true;
  }

  lemma SliceOfPrefix(s: seq<nat>, n: nat, a: nat, b: nat)
    requires a <= b <= n <= |s|
    ensures s[..n][a..b] == s[a..b]
  {
  }

  lemma NoParts<K>(d: Input<K>, cap: nat, parts: seq<seq<nat>>)
    requires cap > 0
    ensures Flatten(parts[..0]) == [] && RefineEach(d, cap, parts[..0]) == []
    ensures Flatten(RefineEach(d, cap, parts[..0])) == []
    ensures Ends(RefineEach(d, cap, parts[..0]), 0) == [] && CapAfter(d, cap, parts[..0]) == cap
  {
  }

  lemma CoversPart<K>(d: Input<K>, all: seq<nat>, start: nat, end: nat)
    requires d.Covers(all) && start <= end <= |all|
    ensures d.Covers(all[start..end])
  {
  }

  /** No pass is divided if the hashes fit the keys within every partition. */
  lemma FittingParts<K>(d: Input<K>, cap: nat, parts: seq<seq<nat>>)
    requires cap > 0 && forall p :: 0 <= p < |parts| ==> HashesFit(d, parts[p])
    ensures NeverDivided(d, cap, parts)
  {
    hide Undivided, CapAfter, HashesFit;
    forall p | 0 <= p < |parts| ensures Undivided(d, CapAfter(d, cap, parts[..p]), parts[p]) {
      FittingHashes(d, CapAfter(d, cap, parts[..p]), parts[p]);
    }
  }

  /** No partition has more classes than the directory takes before it is enlarged. */
  ghost predicate Fits<K>(d: Input<K>, parts: seq<seq<nat>>, cap: nat)
    requires cap > 0
  {
    forall p :: 0 <= p < |parts| ==> |Firsts(Classes(d, cap), parts[p])| <= cap * 7 / 10
  }

  /** Then the table does not grow, and the classes are the same in all partitions. */
  lemma {:induction false} SameCapacity<K>(d: Input<K>, cap: nat, parts: seq<seq<nat>>, k: nat)
    requires cap > 0 && Fits(d, parts, cap) && k <= |parts|
    ensures CapAfter(d, cap, parts[..k]) == cap && RefineEach(d, cap, parts[..k]) == Refine(Classes(d, cap), parts[..k])
  {
    hide Undivided, Tallied, Split, Firsts, Classes;
    if k > 0 {
      SameCapacity(d, cap, parts, k - 1);
      EachStep(d, cap, parts, k - 1);
      FewClasses(d, cap, parts[k - 1]);
      assert parts[..k][..k - 1] == parts[..k - 1];
    }
  }

  lemma NoGrowthNoDivision<K>(d: Input<K>, cap: nat, parts: seq<seq<nat>>)
    requires cap > 0 && Fits(d, parts, cap)
    ensures NeverDivided(d, cap, parts) && CapAfter(d, cap, parts) == cap
    ensures RefineEach(d, cap, parts) == Refine(Classes(d, cap), parts)
  {
    hide Undivided, CapAfter, Firsts, Classes, RefineEach, Refine;
    forall p | 0 <= p < |parts| ensures Undivided(d, CapAfter(d, cap, parts[..p]), parts[p]) {
      SameCapacity(d, cap, parts, p);
      FewClasses(d, cap, parts[p]);
    }
    SameCapacity(d, cap, parts, |parts|);
    assert parts[..|parts|] == parts;
  }

  // --------------------------------------------------------------- results

  /** The key of an element. */
  function KeyOf<K>(d: Input<K>): nat -> Option<K> {
    (x: nat) => if d.Has(x) then Some(d.keys[d.rep[x]]) else None
  }

  datatype Option<T> = None | Some(value: T)

  /** With one key whose hash fits it, partitioning everything gives exactly the classes of equal
      keys, whatever the capacity was and however often the table grew. */
  lemma KeysGrouped<K(!new)>(d: Input<K>, cap: nat, xs: seq<nat>)
    requires HashesFit(d, xs) && cap > 0 && d.Covers(xs) && xs != []
    ensures NeverDivided(d, cap, [xs]) && Groups(KeyOf(d), xs, RefineEach(d, cap, [xs]))
  {
    hide Split, Refine, Groups, Slot, Tallied, Undivided;
    FittingParts(d, cap, [xs]);
    assert [xs][..0] == [] && [xs][0] == xs;
    assert RefineEach(d, cap, [xs][..0]) == [];
    var cls := Classes(d, CapAfter(d, cap, [xs]));
    assert RefineEach(d, cap, [xs]) == Split(cls, xs);
    SplitGroups(cls, xs);
    SameGroups(cls, KeyOf(d), xs, Split(cls, xs));
  }

  // -------------------------------------------------------- composite keys

  /** The partitions, and the capacity the table has come to. */
  datatype Partitions = Partitions(cap: nat, parts: seq<seq<nat>>)

  /** Partitioning by several keys, one operation after the other. */
  ghost function Evaluated<K>(ds: seq<Input<K>>, cap: nat, xs: seq<nat>): (r: Partitions)
    requires cap > 0
    ensures r.cap > 0
  {
    if ds == [] then Partitions(cap, [xs])
    else
      var d, r := ds[|ds| - 1], Evaluated(ds[..|ds| - 1], cap, xs);
      Partitions(CapAfter(d, r.cap, r.parts), RefineEach(d, r.cap, r.parts))
  }

  /** In none of the operations growth divides what was counted as one. */
  ghost predicate Unsplit<K>(ds: seq<Input<K>>, cap: nat, xs: seq<nat>)
    requires cap > 0
  {
    forall i :: 0 <= i < |ds| ==>
      NeverDivided(ds[i], Evaluated(ds[..i], cap, xs).cap, Evaluated(ds[..i], cap, xs).parts)
  }

  /** The composite key of an element. */
  function CompositeKey<K>(ds: seq<Input<K>>): nat -> seq<Option<K>> {
    (x: nat) => seq(|ds|, i requires 0 <= i < |ds| => KeyOf(ds[i])(x))
  }

  lemma CompositeAt<K>(ds: seq<Input<K>>, x: nat)
    ensures |CompositeKey(ds)(x)| == |ds|
    ensures forall i :: 0 <= i < |ds| ==> CompositeKey(ds)(x)[i] == KeyOf(ds[i])(x)
  {
  }

  /** One hash of the whole key: equal composite keys carry equal hashes, in every operation. */
  ghost predicate HashOfAll<K>(ds: seq<Input<K>>, xs: seq<nat>) {
    && (forall i :: 0 <= i < |ds| ==> ds[i].Covers(xs))
    && (forall i, x: nat, y: nat ::
          0 <= i < |ds| && x in xs && y in xs && CompositeKey(ds)(x) == CompositeKey(ds)(y) ==>
            ds[i].hashes[x] == ds[i].hashes[y])
  }

  /** The partition an element is in. */
  ghost function PartOf(parts: seq<seq<nat>>, x: nat): (p: int)
    ensures NONE <= p < |parts| && (p != NONE ==> x in parts[p])
  {
    if parts == [] then NONE
    else if x in parts[|parts| - 1] then |parts| - 1
    else PartOf(parts[..|parts| - 1], x)
  }

  ghost function Part(parts: seq<seq<nat>>): nat -> int {
    (x: nat) => PartOf(parts, x)
  }

  lemma {:induction false} SomePart(parts: seq<seq<nat>>, x: nat, p: nat)
    requires p < |parts| && x in parts[p]
    ensures PartOf(parts, x) != NONE
  {
    if x !in parts[|parts| - 1] { SomePart(parts[..|parts| - 1], x, p); }
  }

  lemma PartAt<C(!new)>(c: nat -> C, xs: seq<nat>, parts: seq<seq<nat>>, p: nat, x: nat)
    requires Groups(c, xs, parts) && p < |parts| && x in parts[p]
    ensures x in xs && PartOf(parts, x) == p && c(x) == c(parts[p][0])
  {
    hide PartOf, OfClass;
    SomePart(parts, x, p);
    OfClassMembers(c, c(parts[p][0]), xs);
    var q := PartOf(parts, x);
    OfClassMembers(c, c(parts[q][0]), xs);
    assert c(parts[q][0]) == c(parts[p][0]);
  }

  /** Being in the same partition is being of the same class. */
  lemma Indexed<C(!new)>(c: nat -> C, xs: seq<nat>, parts: seq<seq<nat>>)
    requires Groups(c, xs, parts)
    ensures Groups(Part(parts), xs, parts)
    ensures forall x: nat, y: nat :: x in xs && y in xs ==> (Part(parts)(x) == Part(parts)(y) <==> c(x) == c(y))
  {
    hide PartOf, OfClass;
    forall x: nat | x in xs ensures Part(parts)(x) != NONE && c(x) == c(parts[Part(parts)(x)][0]) {
      var p: nat :| p < |parts| && x in parts[p];
      PartAt(c, xs, parts, p, x);
    }
    SameGroups(c, Part(parts), xs, parts);
  }

  /** The class in which the table saw an element: that at the end of its partition. */
  ghost function ClassIn<K>(d: Input<K>, cap: nat, parts: seq<seq<nat>>): nat -> Class<K>
    requires cap > 0
  {
    (x: nat) =>
      var p := PartOf(parts, x);
      if p == NONE then Outside else ClassOf(d, CapAfter(d, cap, parts[..p + 1]), x)
  }

  lemma EachIsClassIn<K, C(!new)>(d: Input<K>, cap: nat, c: nat -> C, xs: seq<nat>, parts: seq<seq<nat>>, p: nat)
    requires cap > 0 && Groups(c, xs, parts) && p < |parts|
    ensures Split(Classes(d, CapAfter(d, cap, parts[..p + 1])), parts[p]) == Split(ClassIn(d, cap, parts), parts[p])
  {
    hide ClassOf, Split, CapAfter, Groups;
    var a, b := Classes(d, CapAfter(d, cap, parts[..p + 1])), ClassIn(d, cap, parts);
    forall x: nat | x in parts[p] ensures a(x) == b(x) {
      PartAt(c, xs, parts, p, x);
    }
    SameSplit(a, b, parts[p]);
  }

  lemma {:induction false} EachIsRefine<K, C(!new)>(d: Input<K>, cap: nat, c: nat -> C, xs: seq<nat>,
                                                    parts: seq<seq<nat>>, k: nat)
    requires cap > 0 && Groups(c, xs, parts) && k <= |parts|
    ensures RefineEach(d, cap, parts[..k]) == Refine(ClassIn(d, cap, parts), parts[..k])
  {
    hide Classes, ClassIn, Split, CapAfter, Groups;
    if k > 0 {
      EachIsRefine(d, cap, c, xs, parts, k - 1);
      EachIsClassIn(d, cap, c, xs, parts, k - 1);
      assert parts[..k][..k - 1] == parts[..k - 1];
    }
  }

  /** What an operation does to partitions that are the classes of c: it splits them further. */
  lemma OperationGroups<K(!new), C(!new)>(d: Input<K>, cap: nat, c: nat -> C, xs: seq<nat>, parts: seq<seq<nat>>)
    requires cap > 0 && Groups(c, xs, parts)
    ensures Groups(Both(c, ClassIn(d, cap, parts)), xs, RefineEach(d, cap, parts))
  {
    hide Groups, ClassIn, RefineEach, Refine, Both;
    EachIsRefine(d, cap, c, xs, parts, |parts|);
    assert parts[..|parts|] == parts;
    RefineGroups(c, ClassIn(d, cap, parts), xs, parts);
  }

  /** The same, for two elements. */
  lemma StillTogether<K(!new)>(d: Input<K>, cap: nat, xs: seq<nat>, parts: seq<seq<nat>>, x: nat, y: nat)
    requires cap > 0 && Groups(Part(parts), xs, parts) && x in xs && y in xs
    ensures var out := RefineEach(d, cap, parts);
      && PartOf(parts, x) != NONE && PartOf(out, x) != NONE
      && (PartOf(out, x) == PartOf(out, y) <==>
            PartOf(parts, x) == PartOf(parts, y) && ClassIn(d, cap, parts)(x) == ClassIn(d, cap, parts)(y))
  {
    hide Groups, PartOf, ClassIn, RefineEach;
    var out, a, b := RefineEach(d, cap, parts), Part(parts), ClassIn(d, cap, parts);
    OperationGroups(d, cap, a, xs, parts);
    Indexed(Both(a, b), xs, out);
    InSomePart(parts, xs, x);
    InSomePart(out, xs, x);
    var same := Both(a, b)(x) == Both(a, b)(y);
    assert Part(out)(x) == Part(out)(y) <==> same;
  }

  /** After any number of operations every partition has one key so far, whatever the capacities were. */
  lemma {:induction false} KeysApart<K(!new)>(ds: seq<Input<K>>, cap: nat, xs: seq<nat>)
    requires cap > 0 && xs != [] && forall i :: 0 <= i < |ds| ==> ds[i].Covers(xs)
    ensures var parts := Evaluated(ds, cap, xs).parts;
      && Groups(Part(parts), xs, parts)
      && forall x: nat, y: nat :: x in xs && y in xs && Part(parts)(x) == Part(parts)(y) ==>
           CompositeKey(ds)(x) == CompositeKey(ds)(y)
  {
    if ds == [] {
      OneIndex(xs);
      forall x: nat, y: nat ensures CompositeKey(ds)(x) == CompositeKey(ds)(y) { }
    } else {
      KeysApart(ds[..|ds| - 1], cap, xs);
      KeysApartStep(ds, cap, xs);
    }
  }

  lemma KeysApartStep<K(!new)>(ds: seq<Input<K>>, cap: nat, xs: seq<nat>)
    requires cap > 0 && ds != [] && forall i :: 0 <= i < |ds| ==> ds[i].Covers(xs)
    requires var n := |ds| - 1;
      var parts := Evaluated(ds[..n], cap, xs).parts;
      && Groups(Part(parts), xs, parts)
      && forall x: nat, y: nat :: x in xs && y in xs && Part(parts)(x) == Part(parts)(y) ==>
           CompositeKey(ds[..n])(x) == CompositeKey(ds[..n])(y)
    ensures var parts := Evaluated(ds, cap, xs).parts;
      && Groups(Part(parts), xs, parts)
      && forall x: nat, y: nat :: x in xs && y in xs && Part(parts)(x) == Part(parts)(y) ==>
           CompositeKey(ds)(x) == CompositeKey(ds)(y)
  {
    hide Groups, PartOf, Evaluated, CompositeKey, ClassIn, KeyOf;
    var n := |ds| - 1;
    EvaluatedMore(ds, cap, xs, n + 1);
    assert ds[..n + 1] == ds;
    var r, parts := Evaluated(ds[..n], cap, xs), Evaluated(ds, cap, xs).parts;
    OperationGroups(ds[n], r.cap, Part(r.parts), xs, r.parts);
    Indexed(Both(Part(r.parts), ClassIn(ds[n], r.cap, r.parts)), xs, parts);
    forall x: nat, y: nat | x in xs && y in xs && Part(parts)(x) == Part(parts)(y)
      ensures CompositeKey(ds)(x) == CompositeKey(ds)(y) {
      StillTogether(ds[n], r.cap, xs, r.parts, x, y);
      assert Part(r.parts)(x) == Part(r.parts)(y);
      SameClassIn(ds[n], r.cap, r.parts, x, y);
      CompositeMore(ds, x, y);
    }
  }

  lemma OneIndex(xs: seq<nat>)
    requires xs != []
    ensures Groups(Part([xs]), xs, [xs]) && forall x: nat :: x in xs ==> Part([xs])(x) == 0
  {
    var c := (x: nat) => 0;
    OnePart(c, xs);
    Indexed(c, xs, [xs]);
  }

  lemma SameClassIn<K>(d: Input<K>, cap: nat, parts: seq<seq<nat>>, x: nat, y: nat)
    requires cap > 0 && d.Has(x) && d.Has(y) && PartOf(parts, x) == PartOf(parts, y) != NONE
    ensures ClassIn(d, cap, parts)(x) == ClassIn(d, cap, parts)(y) ==> KeyOf(d)(x) == KeyOf(d)(y)
    ensures KeyOf(d)(x) == KeyOf(d)(y) && d.hashes[x] == d.hashes[y] ==>
      ClassIn(d, cap, parts)(x) == ClassIn(d, cap, parts)(y)
  {
    hide PartOf, CapAfter, Slot;
  }

  lemma CompositeMore<K>(ds: seq<Input<K>>, x: nat, y: nat)
    requires ds != []
    ensures var n := |ds| - 1;
      CompositeKey(ds)(x) == CompositeKey(ds)(y) <==>
      CompositeKey(ds[..n])(x) == CompositeKey(ds[..n])(y) && KeyOf(ds[n])(x) == KeyOf(ds[n])(y)
  {
    var n := |ds| - 1;
    CompositeAt(ds, x);
    CompositeAt(ds, y);
    CompositeAt(ds[..n], x);
    CompositeAt(ds[..n], y);
    hide CompositeKey, KeyOf;
    var a, b := CompositeKey(ds)(x), CompositeKey(ds)(y);
    assert a == CompositeKey(ds[..n])(x) + [KeyOf(ds[n])(x)];
    assert b == CompositeKey(ds[..n])(y) + [KeyOf(ds[n])(y)];
    assert a[n] == KeyOf(ds[n])(x) && b[n] == KeyOf(ds[n])(y);
    assert a[..n] == CompositeKey(ds[..n])(x) && b[..n] == CompositeKey(ds[..n])(y);
  }

  /** With a hash of the whole key no operation takes apart what has one key. */
  lemma {:induction false} KeysTogether<K(!new)>(ds: seq<Input<K>>, cap: nat, xs: seq<nat>, k: nat, x: nat, y: nat)
    requires cap > 0 && xs != [] && HashOfAll(ds, xs) && k <= |ds|
    requires x in xs && y in xs && CompositeKey(ds)(x) == CompositeKey(ds)(y)
    ensures var parts := Evaluated(ds[..k], cap, xs).parts; PartOf(parts, x) == PartOf(parts, y) != NONE
  {
    if k == 0 {
      OneIndex(xs);
      assert Part([xs])(x) == Part([xs])(y) == 0;
    } else {
      KeysTogether(ds, cap, xs, k - 1, x, y);
      KeysTogetherStep(ds, cap, xs, k, x, y);
    }
  }

  lemma KeysTogetherStep<K(!new)>(ds: seq<Input<K>>, cap: nat, xs: seq<nat>, k: nat, x: nat, y: nat)
    requires cap > 0 && xs != [] && HashOfAll(ds, xs) && 0 < k <= |ds|
    requires x in xs && y in xs && CompositeKey(ds)(x) == CompositeKey(ds)(y)
    requires var parts := Evaluated(ds[..k - 1], cap, xs).parts; PartOf(parts, x) == PartOf(parts, y) != NONE
    ensures var parts := Evaluated(ds[..k], cap, xs).parts; PartOf(parts, x) == PartOf(parts, y) != NONE
  {
    hide HashOfAll, CompositeKey, Evaluated, PartOf, Groups, ClassIn, KeyOf, Input.Covers;
    var d, r, parts := ds[k - 1], Evaluated(ds[..k - 1], cap, xs), Evaluated(ds[..k], cap, xs).parts;
    CoveredByAll(ds, xs, k - 1, x, y);
    KeysApart(ds[..k - 1], cap, xs);
    EvaluatedMore(ds, cap, xs, k);
    StillTogether(d, r.cap, xs, r.parts, x, y);
    SameClassIn(d, r.cap, r.parts, x, y);
  }

  lemma InSomePart(parts: seq<seq<nat>>, xs: seq<nat>, x: nat)
    requires Groups(Part(parts), xs, parts) && x in xs
    ensures PartOf(parts, x) != NONE
  {
    hide OfClass, PartOf;
    var p: nat :| p < |parts| && x in parts[p];
    SomePart(parts, x, p);
  }

  lemma CoveredByAll<K>(ds: seq<Input<K>>, xs: seq<nat>, i: nat, x: nat, y: nat)
    requires HashOfAll(ds, xs) && i < |ds| && x in xs && y in xs && CompositeKey(ds)(x) == CompositeKey(ds)(y)
    ensures forall j :: 0 <= j < |ds| ==> ds[j].Covers(xs)
    ensures ds[i].Has(x) && ds[i].Has(y) && ds[i].hashes[x] == ds[i].hashes[y] && KeyOf(ds[i])(x) == KeyOf(ds[i])(y)
  {
    CompositeAt(ds, x);
    CompositeAt(ds, y);
    assert CompositeKey(ds)(x)[i] == CompositeKey(ds)(y)[i];
  }

  lemma EvaluatedMore<K>(ds: seq<Input<K>>, cap: nat, xs: seq<nat>, k: nat)
    requires cap > 0 && 0 < k <= |ds|
    ensures var r := Evaluated(ds[..k - 1], cap, xs);
      Evaluated(ds[..k], cap, xs) ==
      Partitions(CapAfter(ds[k - 1], r.cap, r.parts), RefineEach(ds[k - 1], r.cap, r.parts))
  {
    assert ds[..k][..k - 1] == ds[..k - 1];
  }

  /** After the operations for all parts of a composite key the partitions are exactly the classes
      of equal composite keys, although the hash is of the whole key in every operation, and wherever
      the table grew. */
  lemma CompositeKeysGrouped<K(!new)>(ds: seq<Input<K>>, cap: nat, xs: seq<nat>)
    requires cap > 0 && xs != [] && HashOfAll(ds, xs)
    ensures Groups(CompositeKey(ds), xs, Evaluated(ds, cap, xs).parts)
  {
    hide Groups, Evaluated, CompositeKey, PartOf;
    var parts := Evaluated(ds, cap, xs).parts;
    KeysApart(ds, cap, xs);
    assert ds[..|ds|] == ds;
    forall x: nat, y: nat | x in xs && y in xs
      ensures Part(parts)(x) == Part(parts)(y) <==> CompositeKey(ds)(x) == CompositeKey(ds)(y) {
      if CompositeKey(ds)(x) == CompositeKey(ds)(y) { KeysTogether(ds, cap, xs, |ds|, x, y); }
    }
    SameGroups(Part(parts), CompositeKey(ds), xs, parts);
  }

  // -------------------------------------------------- without growing

  /** Partitioning by several keys, if the classes are the same in all partitions. */
  function RefineAll<K(==)>(ds: seq<Input<K>>, cap: nat, parts: seq<seq<nat>>): seq<seq<nat>>
    requires cap > 0
  {
    if ds == [] then parts
    else Refine(Classes(ds[|ds| - 1], cap), RefineAll(ds[..|ds| - 1], cap, parts))
  }

  /** What the first operations tell apart: their keys, and the slot of the hash. */
  function Prefix<K(==)>(ds: seq<Input<K>>, cap: nat): nat -> seq<Class<K>>
    requires cap > 0
  {
    (x: nat) => seq(|ds|, i requires 0 <= i < |ds| => ClassOf(ds[i], cap, x))
  }

  lemma PrefixStep<K(!new)>(ds: seq<Input<K>>, cap: nat, x: nat, y: nat)
    requires ds != [] && cap > 0
    ensures var n := |ds| - 1;
      Prefix(ds, cap)(x) == Prefix(ds, cap)(y) <==>
      Both(Prefix(ds[..n], cap), Classes(ds[n], cap))(x) == Both(Prefix(ds[..n], cap), Classes(ds[n], cap))(y)
  {
    var n := |ds| - 1;
    PrefixAt(ds, cap, x);
    PrefixAt(ds, cap, y);
    PrefixAt(ds[..n], cap, x);
    PrefixAt(ds[..n], cap, y);
    hide Prefix, ClassOf;
    var a, b := Prefix(ds, cap)(x), Prefix(ds, cap)(y);
    assert a == Prefix(ds[..n], cap)(x) + [ClassOf(ds[n], cap, x)];
    assert b == Prefix(ds[..n], cap)(y) + [ClassOf(ds[n], cap, y)];
    assert a[..n] == Prefix(ds[..n], cap)(x) && b[..n] == Prefix(ds[..n], cap)(y);
  }

  lemma PrefixAt<K>(ds: seq<Input<K>>, cap: nat, x: nat)
    requires cap > 0
    ensures |Prefix(ds, cap)(x)| == |ds|
    ensures forall i :: 0 <= i < |ds| ==> Prefix(ds, cap)(x)[i] == ClassOf(ds[i], cap, x)
  {
  }

  /** After any number of operations the partitions are the classes of the keys used so far,
      together with the slot of the hash. */
  lemma {:induction false} PrefixesGrouped<K(!new)>(ds: seq<Input<K>>, cap: nat, xs: seq<nat>)
    requires cap > 0 && xs != []
    ensures Groups(Prefix(ds, cap), xs, RefineAll(ds, cap, [xs]))
  {
    if ds == [] {
      forall x: nat ensures Prefix(ds, cap)(x) == [] { }
      OnePart(Prefix(ds, cap), xs);
    } else {
      var n := |ds| - 1;
      PrefixesGrouped(ds[..n], cap, xs);
      var parts := RefineAll(ds[..n], cap, [xs]);
      RefineGroups(Prefix(ds[..n], cap), Classes(ds[n], cap), xs, parts);
      forall x: nat, y: nat | x in xs && y in xs
        ensures Both(Prefix(ds[..n], cap), Classes(ds[n], cap))(x) == Both(Prefix(ds[..n], cap), Classes(ds[n], cap))(y)
                <==> Prefix(ds, cap)(x) == Prefix(ds, cap)(y) {
        PrefixStep(ds, cap, x, y);
      }
      SameGroups(Both(Prefix(ds[..n], cap), Classes(ds[n], cap)), Prefix(ds, cap), xs,
                 Refine(Classes(ds[n], cap), parts));
    }
  }

  /** The table does not grow in any of the operations. */
  ghost predicate NoGrowth<K>(ds: seq<Input<K>>, cap: nat, xs: seq<nat>)
    requires cap > 0
  {
    forall i :: 0 <= i < |ds| ==> Fits(ds[i], RefineAll(ds[..i], cap, [xs]), cap)
  }

  lemma {:induction false} SteadyOperations<K(!new)>(ds: seq<Input<K>>, cap: nat, xs: seq<nat>, k: nat)
    requires cap > 0 && NoGrowth(ds, cap, xs) && k <= |ds|
    ensures Evaluated(ds[..k], cap, xs) == Partitions(cap, RefineAll(ds[..k], cap, [xs]))
  {
    hide CapAfter, RefineEach, Refine, NeverDivided, Fits;
    if k > 0 {
      SteadyOperations(ds, cap, xs, k - 1);
      assert ds[..k][..k - 1] == ds[..k - 1];
      NoGrowthNoDivision(ds[k - 1], cap, RefineAll(ds[..k - 1], cap, [xs]));
    }
  }

  /** Then nothing is divided, and after any number of operations the partitions are the classes of
      the keys used so far together with the slot of the hash. */
  lemma SteadyGrouped<K(!new)>(ds: seq<Input<K>>, cap: nat, xs: seq<nat>)
    requires cap > 0 && xs != [] && NoGrowth(ds, cap, xs)
    ensures Unsplit(ds, cap, xs) && Evaluated(ds, cap, xs).cap == cap
    ensures forall k :: 0 <= k <= |ds| ==> Groups(Prefix(ds[..k], cap), xs, Evaluated(ds[..k], cap, xs).parts)
  {
    hide Evaluated, Groups, NeverDivided, RefineAll, Prefix, Fits;
    forall k | 0 <= k <= |ds| ensures Groups(Prefix(ds[..k], cap), xs, Evaluated(ds[..k], cap, xs).parts) {
      SteadyOperations(ds, cap, xs, k);
      PrefixesGrouped(ds[..k], cap, xs);
    }
    forall i | 0 <= i < |ds|
      ensures NeverDivided(ds[i], Evaluated(ds[..i], cap, xs).cap, Evaluated(ds[..i], cap, xs).parts) {
      SteadyOperations(ds, cap, xs, i);
      NoGrowthNoDivision(ds[i], cap, RefineAll(ds[..i], cap, [xs]));
    }
    SteadyOperations(ds, cap, xs, |ds|);
    assert ds[..|ds|] == ds;
  }

  // ------------------------------------------------------- all operations

  lemma PartsInside<K(!new)>(ds: seq<Input<K>>, cap: nat, xs: seq<nat>, d: Input<K>)
    requires cap > 0 && xs != [] && (forall i :: 0 <= i < |ds| ==> ds[i].Covers(xs)) && d.Covers(xs)
    ensures var parts := Evaluated(ds, cap, xs).parts;
      d.Covers(Flatten(parts)) && forall p :: 0 <= p < |parts| ==> |parts[p]| <= |xs|
  {
    var parts := Evaluated(ds, cap, xs).parts;
    KeysApart(ds, cap, xs);
    hide Evaluated, PartOf, OfClass;
    forall x | x in Flatten(parts) ensures d.Has(x) {
      var p := InPart(parts, x);
      PartAt(Part(parts), xs, parts, p, x);
    }
  }

  lemma {:induction false} InPart(parts: seq<seq<nat>>, x: nat) returns (p: nat)
    requires x in Flatten(parts)
    ensures p < |parts| && x in parts[p]
  {
    var n := |parts| - 1;
    if x in parts[n] { p := n; } else { p := InPart(parts[..n], x); }
  }

  lemma NoOperations<K>(ds: seq<Input<K>>, cap: nat, xs: seq<nat>)
    requires cap > 0
    ensures Evaluated(ds[..0], cap, xs) == Partitions(cap, [xs]) && Unsplit(ds[..0], cap, xs)
  {
  }

  lemma UnsplitMore<K>(ds: seq<Input<K>>, cap: nat, xs: seq<nat>, i: nat)
    requires cap > 0 && i < |ds|
    ensures var r := Evaluated(ds[..i], cap, xs);
      && (Unsplit(ds[..i + 1], cap, xs) <==> Unsplit(ds[..i], cap, xs) && NeverDivided(ds[i], r.cap, r.parts))
      && (Unsplit(ds, cap, xs) ==> NeverDivided(ds[i], r.cap, r.parts))
  {
    hide NeverDivided, Evaluated;
    assert forall j :: 0 <= j <= i ==> ds[..i + 1][..j] == ds[..j];
    assert forall j :: 0 <= j < i ==> ds[..i][..j] == ds[..j] && ds[..i][j] == ds[..i + 1][j];
  }

  /** partitionKeys.evaluate(1): one operation for each part of the key, each reading what the one
      before wrote, through buffers that are swapped. */
  method PartitionByKeys<K(==, !new)>(ht: HashmapSmall, ds: seq<Input<K>>, ghost xs: seq<nat>,
                                      rowsIn: array<nat>, rowsOut: array<nat>, endsIn: array<nat>, endsOut: array<nat>)
    returns (ok: bool, n: nat, rows: array<nat>, ends: array<nat>)
    requires ht.Valid() && ht.Empty() && ht.capacity > 0
    requires 0 < |xs| <= ht.size && forall i :: 0 <= i < |ds| ==> ds[i].Covers(xs)
    requires |xs| <= rowsIn.Length && |xs| <= rowsOut.Length && |xs| <= endsIn.Length && |xs| <= endsOut.Length
    requires rowsIn[..|xs|] == xs && endsIn[0] == |xs|
    requires rowsIn != rowsOut && rowsIn != endsIn && rowsIn != endsOut && rowsOut != endsIn && rowsOut != endsOut
    requires endsIn != endsOut
    requires ht.entries !in {rowsIn, rowsOut, endsIn, endsOut}
    modifies ht, ht.entries, ht.storage, rowsIn, rowsOut, endsIn, endsOut
    ensures rows in {rowsIn, rowsOut} && ends in {endsIn, endsOut}
    ensures ok <==> Unsplit(ds, old(ht.capacity), xs)
    ensures ok ==>
      var r := Evaluated(ds, old(ht.capacity), xs);
      && ht.Valid() && ht.Empty() && ht.capacity == r.cap
      && n == |r.parts| <= ends.Length && |Flatten(r.parts)| == |xs| <= rows.Length
      && rows[..|xs|] == Flatten(r.parts) && ends[..n] == Ends(r.parts, 0)
  {
    hide HashmapSmall.Stored, HashmapSmall.Threaded, HashmapSmall.Sized, Slot, RefineEach, CapAfter, NeverDivided,
      Flatten, Ends, Input.Covers, Unsplit, Evaluated;
    ghost var cap := ht.capacity;
    var spareRows, spareEnds := rowsOut, endsOut;
    n, rows, ends := 1, rowsIn, endsIn;
    OneStored(xs);
    NoOperations(ds, cap, xs);
    var i := 0;
    while i < |ds|
      invariant i <= |ds|
      invariant {rows, spareRows} == {rowsIn, rowsOut} && rows != spareRows
      invariant {ends, spareEnds} == {endsIn, endsOut} && ends != spareEnds
      invariant Unsplit(ds[..i], cap, xs)
      invariant var r := Evaluated(ds[..i], cap, xs);
        && ht.Valid() && ht.Empty() && ht.capacity == r.cap
        && n == |r.parts| <= ends.Length && |Flatten(r.parts)| == |xs|
        && rows[..|xs|] == Flatten(r.parts) && ends[..n] == Ends(r.parts, 0)
    {
      ghost var r := Evaluated(ds[..i], cap, xs);
      PartsInside(ds[..i], cap, xs, ds[i]);
      EvaluatedMore(ds, cap, xs, i + 1);
      UnsplitMore(ds, cap, xs, i);
      ok, n := PartitionByKey(n, rows[..], ds[i], ends[..], spareRows, spareEnds, ht, r.parts);
      if !ok { return; }
      rows, spareRows := spareRows, rows;
      ends, spareEnds := spareEnds, ends;
      i := i + 1;
    }
    assert ds[..i] == ds;
    ok := true;
  }

  lemma OneStored(xs: seq<nat>)
    ensures Flatten([xs]) == xs && Ends([xs], 0) == [|xs|]
  {
    assert [xs][..0] == [];
  }
}
