/** ResetableAllocator: the memory of a worker's groups. Its chunks come from the worker's allocator and are
    used again, in the same order, after each reset. Alignment is added once more after it has been checked
    that a chunk is large enough, which is what the condition below is about. */
module GroupStores {
  import opened GlobalPool
  import opened Allocation

  const WORD_SIZE: nat := 0x1_0000_0000_0000_0000

  const START_SIZE: nat := 1024 * 1024 * 2

  function Room(c: Chunk): Grant { Grant(c.Start(), c.size, 0) }

  /** The first chunk from k on that is not smaller. */
  function FirstLarge(chunks: seq<Chunk>, k: nat, size: nat): (i: nat)
    requires k <= |chunks|
    ensures k <= i <= |chunks|
    ensures i < |chunks| ==> chunks[i].size >= size
    ensures forall j :: k <= j < i ==> chunks[j].size < size
    decreases |chunks| - k
  {
    if k == |chunks| || chunks[k].size >= size then k else FirstLarge(chunks, k + 1, size)
  }

  /** The range lies in an earlier chunk, or in the current one in front of `start`. */
  ghost predicate UsedIn(chunks: seq<Chunk>, current: nat, start: nat, g: Grant)
    requires current < |chunks|
  {
    || (exists i: nat :: i < current && Inside(g, Room(chunks[i])))
    || (Inside(g, Room(chunks[current])) && g.start + g.size <= start)
  }

  ghost predicate AllUsed(chunks: seq<Chunk>, current: nat, start: nat, handed: seq<Grant>)
    requires current < |chunks|
  {
    && (forall i :: 0 <= i < |handed| ==> UsedIn(chunks, current, start, handed[i]) && handed[i].start % ALIGNMENT == 0)
    && (forall i, j :: 0 <= i < j < |handed| ==> Disjoint(handed[i], handed[j]))
  }

  ghost predicate Chunked(chunks: seq<Chunk>) {
    && (forall i :: 0 <= i < |chunks| ==> chunks[i].base % ALIGNMENT == 0 && START_SIZE <= chunks[i].size < WORD_SIZE)
    && (forall i, j :: 0 <= i < j < |chunks| ==> Disjoint(Room(chunks[i]), Room(chunks[j])))
  }

  class ResetableAllocator {
    var allocSize: nat
    var start: nat
    var free: nat
    var chunks: seq<Chunk>
    var current: nat

    /** Ranges handed out since the last reset. */
    ghost var handed: seq<Grant>

    ghost predicate Sized()
      reads this
    {
      current < |chunks| && START_SIZE <= allocSize && Chunked(chunks)
    }

    /** `start` and `free` delimit the unused rest of the current chunk; everything handed out lies in front
        of it or in an earlier chunk. */
    ghost predicate Valid()
      reads this
    {
      && Sized() && chunks[current].Start() <= start && start + free == chunks[current].End()
      && AllUsed(chunks, current, start, handed)
    }

    /** `start` has run past the end of the chunk, and `free` below zero, as an unsigned number. */
    ghost predicate Overrun()
      reads this
    {
      Sized() && start > chunks[current].End() && free + start == chunks[current].End() + WORD_SIZE
    }

    /** The size a new chunk gets. */
    function NewSize(padded: nat): nat
      reads this
    {
      Max(allocSize * 2, padded)
    }

    /** The size of the chunk that serves a request which the present one cannot. */
    function NextSize(padded: nat): nat
      reads this
      requires current < |chunks|
    {
      var next := FirstLarge(chunks, current + 1, padded);
      if next < |chunks| then chunks[next].size else NewSize(padded)
    }

    /** The request, with all the padding it is charged for, is in the memory of one chunk. */
    predicate Fits(size: nat)
      reads this
      requires current < |chunks|
    {
      var padded := size + Padding(start);
      padded <= free || padded + Padding(HEADER) <= NextSize(padded)
    }

    constructor ()
      ensures allocSize == START_SIZE && chunks == [] && handed == [] && free == 0
    {
      allocSize, start, free, chunks, current := START_SIZE, 0, 0, [], 0;
      handed := [];
    }

    /** setSource: `created` is what the worker's allocator returns for the first chunk. */
    method SetSource(created: nat)
      requires chunks == [] && handed == [] && START_SIZE <= allocSize < WORD_SIZE && created % ALIGNMENT == 0
      modifies this
      ensures Valid() && chunks == [Chunk(created, allocSize)] && handed == [] && allocSize == old(allocSize)
    {
      chunks, current := [Chunk(created, allocSize)], 0;
      free := allocSize;
      start := created + HEADER;
    }

    /** `created` is what the worker's allocator returns if a new chunk is needed. Exactly if the request fits,
        the accounts stay right, and the result lies in the unused part of its chunk. If it does not, `free`
        wraps around. */
    method Allocate(size: nat, created: nat) returns (alloc: nat)
      requires Valid() && created % ALIGNMENT == 0 && size + 2 * ALIGNMENT < WORD_SIZE && allocSize * 2 < WORD_SIZE
      requires forall i :: 0 <= i < |chunks| ==>
        Disjoint(Room(chunks[i]), Room(Chunk(created, NewSize(size + Padding(start)))))
      modifies this
      ensures old(chunks) <= chunks && current < |chunks| && alloc % ALIGNMENT == 0
      ensures old(Fits(size)) ==>
        && Valid() && handed == old(handed) + [Grant(alloc, size, 0)]
        && Inside(Grant(alloc, size, 0), Room(chunks[current]))
      ensures !old(Fits(size)) ==> Overrun()
    {
      hide Padding, FirstLarge, AllUsed, Chunked;
      PaddingAligns(start);
      var aligndiff: nat := Padding(start);
      var padded: nat := size + aligndiff;
      if free < padded {
        NextChunk(padded, created);
        StartPadding(chunks, current);
        PaddingAligns(start);
        aligndiff := Padding(start);
        padded := padded + aligndiff;
      }
      alloc := Take(size, aligndiff, padded);
    }

    /** alloc = start + aligndiff; start += size; free -= size. */
    method Take(size: nat, aligndiff: nat, padded: nat) returns (alloc: nat)
      requires Valid() && aligndiff + size <= padded < WORD_SIZE && (start + aligndiff) % ALIGNMENT == 0
      modifies this`start, this`free, this`handed
      ensures alloc == old(start) + aligndiff
      ensures padded <= old(free) ==>
        && Valid() && handed == old(handed) + [Grant(alloc, size, 0)]
        && Inside(Grant(alloc, size, 0), Room(chunks[current]))
      ensures padded > old(free) ==> Overrun()
    {
      hide AllUsed, Chunked;
      alloc := start + aligndiff;
      ghost var fits := padded <= free;
      if fits { UsedMore(chunks, current, start, handed, start + padded, Grant(alloc, size, 0)); }
      start := start + padded;
      free := if free < padded then free + WORD_SIZE - padded else free - padded;
      if fits { handed := handed + [Grant(alloc, size, 0)]; }
    }

    /** The next chunk that is large enough, without the alignment at its start; a new one if there is none. */
    method NextChunk(padded: nat, created: nat)
      requires Valid() && created % ALIGNMENT == 0 && padded < WORD_SIZE && allocSize * 2 < WORD_SIZE
      requires forall i :: 0 <= i < |chunks| ==> Disjoint(Room(chunks[i]), Room(Chunk(created, NewSize(padded))))
      modifies this
      ensures Valid() && handed == old(handed) && old(chunks) <= chunks
      ensures start == chunks[current].Start() && free == chunks[current].size == old(NextSize(padded))
      ensures old(current) < current
    {
      hide UsedIn, AllUsed, FirstLarge, Chunked, Room;
      ghost var target := FirstLarge(chunks, current + 1, padded);
      ghost var was, before, limit := current, chunks, start;
      while current + 1 < |chunks| && chunks[current + 1].size < padded
        invariant was <= current < |chunks|
        invariant target == FirstLarge(chunks, current + 1, padded)
        modifies this`current
      {
        current := current + 1;
        NotLarge(chunks, current, padded);
      }
      FoundLarge(chunks, current + 1, padded);
      if current + 1 == |chunks| {
        allocSize := Max(allocSize * 2, padded);
        ChunkMore(chunks, Chunk(created, allocSize));
        chunks := chunks + [Chunk(created, allocSize)];
      }
      current := current + 1;
      free := chunks[current].size;
      start := chunks[current].Start();
      StillUsed(before, was, limit, chunks, current, start, handed);
    }

    /** reset: all chunks are free again. */
    method Reset()
      requires Sized()
      modifies this
      ensures Valid() && handed == [] && chunks == old(chunks) && allocSize == old(allocSize)
      ensures current == 0 && free == chunks[0].size
    {
      hide Chunked;
      current := 0;
      start := chunks[0].Start();
      free := chunks[0].size;
      handed := [];
    }

    /** Requests that, with both paddings, are no larger than the first chunk always fit. */
    lemma SmallFits(size: nat)
      requires Valid() && size + 2 * ALIGNMENT <= START_SIZE
      ensures Fits(size)
    {
      hide FirstLarge;
      PaddingAligns(start);
      PaddingAligns(HEADER);
    }

    /** A request for twice the allocation size or more never fits if it takes a new chunk. */
    lemma LargeNeverFits(size: nat)
      requires Valid() && size >= allocSize * 2 && free < size
      requires forall i :: current < i < |chunks| ==> chunks[i].size < size
      ensures !Fits(size)
    {
      hide FirstLarge;
      PaddingAligns(start);
      PaddingAligns(HEADER);
    }

    /** After an overrun whatever is asked for is granted, all of it behind the chunk. */
    lemma OverrunGrants(size: nat)
      requires Overrun() && start + size + Padding(start) <= chunks[current].End() + WORD_SIZE
      ensures size + Padding(start) <= free && start + Padding(start) > chunks[current].End()
    {
    }
  }

  lemma StillUsed(was: seq<Chunk>, k: nat, limit: nat, now: seq<Chunk>, c: nat, start: nat, handed: seq<Grant>)
    requires k < |was| && was <= now && k < c < |now| && AllUsed(was, k, limit, handed)
    ensures AllUsed(now, c, start, handed)
  {
    forall i | 0 <= i < |handed| ensures UsedIn(now, c, start, handed[i]) {
      if j: nat :| j < k && Inside(handed[i], Room(was[j])) {
        assert Inside(handed[i], Room(now[j]));
      } else {
        assert Inside(handed[i], Room(now[k]));
      }
    }
  }

  /** A range taken from the unused part is apart from all others. */
  lemma UsedMore(chunks: seq<Chunk>, current: nat, start: nat, handed: seq<Grant>, now: nat, g: Grant)
    requires current < |chunks| && Chunked(chunks) && AllUsed(chunks, current, start, handed)
    requires chunks[current].Start() <= start <= g.start && g.start + g.size <= now <= chunks[current].End()
    requires g.start % ALIGNMENT == 0
    ensures AllUsed(chunks, current, now, handed + [g])
  {
    forall i | 0 <= i < |handed| ensures UsedIn(chunks, current, now, handed[i]) && Disjoint(handed[i], g) {
      if k: nat :| k < current && Inside(handed[i], Room(chunks[k])) {
        assert Disjoint(Room(chunks[k]), Room(chunks[current]));
      }
    }
  }

  lemma ChunkMore(chunks: seq<Chunk>, c: Chunk)
    requires Chunked(chunks) && c.base % ALIGNMENT == 0 && START_SIZE <= c.size < WORD_SIZE
    requires forall i :: 0 <= i < |chunks| ==> Disjoint(Room(chunks[i]), Room(c))
    ensures Chunked(chunks + [c])
  {
  }

  lemma NotLarge(chunks: seq<Chunk>, k: nat, size: nat)
    requires k < |chunks| && chunks[k].size < size
    ensures FirstLarge(chunks, k, size) == FirstLarge(chunks, k + 1, size)
  {
  }

  lemma FoundLarge(chunks: seq<Chunk>, k: nat, size: nat)
    requires k <= |chunks| && (k == |chunks| || chunks[k].size >= size)
    ensures FirstLarge(chunks, k, size) == k
  {
  }

  /** Behind the header of a chunk the padding is always the same. */
  lemma StartPadding(chunks: seq<Chunk>, k: nat)
    requires Chunked(chunks) && k < |chunks|
    ensures Padding(chunks[k].Start()) == Padding(HEADER)
  {
  }
}
