/** Allocator::allocate: the per-worker bump allocator on top of the global pool. */
module Allocation {
  import opened GlobalPool

  const ALIGNMENT: nat := 64

  /** No pool to get memory from. */
  const NULL: nat := 0

  function Padding(address: nat): nat { ALIGNMENT - address % ALIGNMENT }

  class Allocator {
    var allocSize: nat
    var start: nat
    var free: nat
    var memorySource: nat

    /** Regions obtained from the pool, and ranges handed out so far. */
    ghost var regions: seq<Grant>
    ghost var handed: seq<Grant>

    constructor ()
      ensures Valid() && regions == [] && handed == [] && memorySource == NULL
    {
      allocSize, start, free, memorySource := 1024 * 1024 * 2, 0, 0, NULL;
      regions, handed := [], [];
    }

    /** The unused tail of the newest region. */
    ghost function Tail(): Grant
      reads this
    {
      Grant(start, free, 0)
    }

    ghost predicate Valid()
      reads this
    {
      && allocSize > 0
      && (free > 0 ==> regions != [] && Inside(Tail(), regions[|regions| - 1]))
      && (forall i :: 0 <= i < |handed| ==> Owned(handed[i], regions))
      && (forall i :: 0 <= i < |handed| ==> handed[i].start % ALIGNMENT == 0)
      && (forall i, j :: 0 <= i < j < |handed| ==> Disjoint(handed[i], handed[j]))
      && (free > 0 ==> forall i :: 0 <= i < |handed| ==> Disjoint(handed[i], Tail()))
    }

    /** What the allocator asks the pool for, if it has to. */
    function Request(size: nat): nat
      reads this
    {
      Max(allocSize * 2, size + Padding(start) + ALIGNMENT)
    }

    /** From now on memory comes from this pool, beginning with a region of its own; what is left of the
        former region is given up. `region` is what the pool returns when asked for allocSize bytes. */
    method SetSource(source: nat, region: nat) returns (previous: nat)
      requires Valid()
      requires source != NULL ==> forall i :: 0 <= i < |regions| ==> Disjoint(regions[i], Grant(region, allocSize, 0))
      modifies this
      ensures Valid() && handed == old(handed) && allocSize == old(allocSize)
      ensures previous == old(memorySource) && memorySource == source
      ensures source == NULL ==> regions == old(regions) && Tail() == old(Tail())
      ensures source != NULL ==>
        regions == old(regions) + [Grant(region, allocSize, 0)] && Tail() == Grant(region, allocSize, 0)
    {
      hide Owned;
      previous := memorySource;
      memorySource := source;
      if source != NULL {
        ghost var before := regions;
        start, free := region, allocSize;
        regions := regions + [Grant(region, allocSize, 0)];
        forall i | 0 <= i < |handed| ensures Owned(handed[i], regions) && Disjoint(handed[i], Tail()) {
          OwnedElsewhere(handed[i], before, Grant(region, allocSize, 0));
        }
      }
    }

    /** `region` stands for what the pool returns when asked for Request(size) bytes: memory that
        overlaps no region it has returned before. The padding is added twice when a region is
        fetched, and still fits, so `free` cannot fall below zero. */
    method Allocate(size: nat, region: nat) returns (alloc: nat)
      requires Valid() && (memorySource != NULL || size + Padding(start) <= free)
      requires forall i :: 0 <= i < |regions| ==> Disjoint(regions[i], Grant(region, Request(size), 0))
      modifies this
      ensures Valid() && memorySource == old(memorySource)
      ensures alloc % ALIGNMENT == 0
      ensures handed == old(handed) + [Grant(alloc, size, 0)]
      ensures regions ==
              old(if free < size + Padding(start) then regions + [Grant(region, Request(size), 0)] else regions)
      ensures Owned(Grant(alloc, size, 0), regions)
    {
      hide Owned, Padding;
      PaddingAligns(start);
      var aligndiff: nat := Padding(start);
      var padded: nat := size + aligndiff;
      if free < padded {
        Refill(padded, region);
        PaddingAligns(start);
        aligndiff := Padding(start);
        padded := padded + aligndiff;
      }
      alloc := start + aligndiff;
      start := start + padded;
      free := free - padded;
      OwnedLast(Grant(alloc, size, 0), regions);
      handed := handed + [Grant(alloc, size, 0)];
    }

    method Refill(padded: nat, region: nat)
      requires Valid()
      requires forall i :: 0 <= i < |regions| ==>
        Disjoint(regions[i], Grant(region, Max(allocSize * 2, padded + ALIGNMENT), 0))
      modifies this`allocSize, this`start, this`free, this`regions
      ensures Valid() && allocSize == Max(old(allocSize) * 2, padded + ALIGNMENT)
      ensures Tail() == Grant(region, allocSize, 0) && regions == old(regions) + [Tail()]
    {
      hide Owned, Padding;
      ghost var before := regions;
      allocSize := Max(allocSize * 2, padded + ALIGNMENT);
      start, free := region, allocSize;
      regions := regions + [Grant(region, allocSize, 0)];
      forall i | 0 <= i < |handed| ensures Owned(handed[i], regions) && Disjoint(handed[i], Tail()) {
        OwnedElsewhere(handed[i], before, Grant(region, allocSize, 0));
      }
    }
  }

  predicate Inside(g: Grant, region: Grant) {
    region.start <= g.start && g.start + g.size <= region.start + region.size
  }

  /** A range lies in one of the regions. */
  ghost predicate Owned(g: Grant, regions: seq<Grant>) {
    exists r :: r in regions && Inside(g, r)
  }

  lemma OwnedLast(g: Grant, regions: seq<Grant>)
    requires regions != [] && Inside(g, regions[|regions| - 1])
    ensures Owned(g, regions)
  {
    assert regions[|regions| - 1] in regions;
  }

  lemma OwnedElsewhere(g: Grant, regions: seq<Grant>, fresh': Grant)
    requires Owned(g, regions)
    requires forall i :: 0 <= i < |regions| ==> Disjoint(regions[i], fresh')
    ensures Owned(g, regions + [fresh']) && Disjoint(g, fresh')
  {
    var r :| r in regions && Inside(g, r);
    assert r in regions + [fresh'];
  }

  lemma PaddingAligns(address: nat)
    ensures (address + Padding(address)) % ALIGNMENT == 0 && 0 < Padding(address) <= ALIGNMENT
  {
  }

  /** The regions of an allocator are these grants of the pool. */
  ghost predicate From(regions: seq<Grant>, granted: seq<Grant>, which: seq<nat>) {
    && |which| == |regions|
    && forall r :: 0 <= r < |regions| ==>
         && which[r] < |granted| && regions[r].start == granted[which[r]].start
         && regions[r].size == granted[which[r]].size
  }

  /** Allocators of different workers hand out disjoint ranges, because the pool has granted each
      region to one of them. */
  lemma WorkersApart(trace: seq<State>, k: nat, a: Allocator, b: Allocator, ofA: seq<nat>, ofB: seq<nat>, i: nat,
                     j: nat)
    requires Run(trace) && k < |trace| && a.Valid() && b.Valid() && i < |a.handed| && j < |b.handed|
    requires From(a.regions, trace[k].granted, ofA) && From(b.regions, trace[k].granted, ofB)
    requires forall r, q :: 0 <= r < |ofA| && 0 <= q < |ofB| ==> ofA[r] != ofB[q]
    ensures Disjoint(a.handed[i], b.handed[j])
  {
    hide Run;
    AllocationsDisjoint(trace, k);
    assert Owned(a.handed[i], a.regions) && Owned(b.handed[j], b.regions);
    var x: nat :| x < |a.regions| && Inside(a.handed[i], a.regions[x]);
    var y: nat :| y < |b.regions| && Inside(b.handed[j], b.regions[y]);
    var g, h := trace[k].granted[ofA[x]], trace[k].granted[ofB[y]];
    assert Disjoint(g, h) || Disjoint(h, g);
  }
}
