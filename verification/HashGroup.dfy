/** HashGroup: the vectorised two-phase aggregation. Every worker aggregates its vectors in a table,
    spilling it into a partitioned deque; behind a barrier the workers take partitions from a shared
    counter, aggregate each from all deques and hand its groups out block by block. */
module VectorGroups {
  import opened Bits
  import opened Folds
  import opened GroupTables
  import opened SmallTable
  import opened Deques
  import opened TwoPhase
  import opened GroupLookups
  import opened GroupCreation
  import opened Partitioning
  import opened GroupVectors
  import opened Handouts

  // ------------------------------------------------------------ blocks

  /** Entries in blocks of these sizes. */
  function Total(blocks: seq<nat>): nat {
    if blocks == [] then 0 else Total(blocks[..|blocks| - 1]) + blocks[|blocks| - 1]
  }

  lemma {:induction false} TotalTake(blocks: seq<nat>, i: nat)
    requires i < |blocks|
    ensures Total(blocks[..i]) + blocks[i] == Total(blocks[..i + 1]) <= Total(blocks)
  {
    assert blocks[..i + 1][..i] == blocks[..i];
    if i + 1 < |blocks| {
      TotalTake(blocks[..|blocks| - 1], i);
      assert blocks[..|blocks| - 1][..i + 1] == blocks[..i + 1];
      assert blocks[..|blocks| - 1][..i] == blocks[..i];
    } else {
      assert blocks[..i + 1] == blocks;
    }
  }

  lemma TotalMore(blocks: seq<nat>, n: nat)
    ensures Total(blocks + [n]) == Total(blocks) + n
  {
    assert (blocks + [n])[..|blocks|] == blocks;
  }

  /** A small table starts with room for all elements it is made for, or for 179. */
  lemma LimitAtStart(t: HashmapSmall)
    requires t.Sized() && t.capacity == if t.maxCapacity < START_CAPACITY then t.maxCapacity else START_CAPACITY
    ensures t.size <= t.capLimit || t.capLimit == 179
  {
  }

  const INITIAL_MAP_SIZE: nat := 1024

  const CHUNK_SIZE: nat := 1024

  method NewTable<K(==), V>() returns (t: Hashmapx<K, V>, maxFill: nat)
    ensures fresh(t) && fresh(t.dir) && t.Valid() && t.rows == []
  {
    t := new Hashmapx(INITIAL_MAP_SIZE);
    maxFill := t.SetSize(INITIAL_MAP_SIZE);
  }

  method NewGroupTable(vecSize: nat) returns (t: HashmapSmall)
    requires 0 < vecSize < EMPTY
    ensures fresh(t) && fresh(t.entries) && fresh(t.storage) && t.Valid() && t.Empty()
    ensures t.size == vecSize && (vecSize <= t.capLimit || t.capLimit == 179)
  {
    t := new HashmapSmall(vecSize);
    LimitAtStart(t);
  }

  method NewBuffers(n: nat) returns (b: Scratch)
    ensures forall x :: x in b.All() ==> fresh(x)
    ensures b.Fits(n) && b.rowsIn.Length == n
  {
    var rowsIn, rowsOut, endsIn, endsOut := new nat[n], new nat[n], new nat[n], new nat[n];
    b := Scratch(rowsIn, rowsOut, endsIn, endsOut);
  }

  /** HashGroup::Shared: the next partition that no worker has taken. */
  class Shared {
    var partition: nat

    constructor ()
      ensures partition == 0
    {
      partition := 0;
    }
  }

  lemma PartitionKnown<K(!new), V(!new)>(o: Ops<K, V>, all: seq<Row<K, V>>, deques: seq<Deque<K, V>>, shift: nat,
                                         i: nat, p: nat)
    requires AllPlaced(o, deques, shift) && shift <= 64 && p < Pow2(64 - shift) && i < |deques|
    requires Known(all, DequeRows(deques))
    ensures p < |deques[i].partitions| && Known(all, deques[i].partitions[p]) && Hashed(o, deques[i].partitions[p])
  {
    hide Sum, Pow2, DequeRows;
    assert TwoPhase.Placed(o, deques[i]);
    var rows := deques[i].partitions[p];
    assert InPartition(o, deques[i], p, rows);
    forall k | Has(rows, k) ensures Has(all, k) {
      HasJoin(deques[i].partitions, k);
      InDequeRows(deques, i, k);
    }
  }

  /** No two keys share a hash, and a vector with several key columns never has more keys than the small
      table takes before it grows. */
  ghost predicate Harmless<K(!new), V>(o: Ops<Key<K>, V>, nrKeys: nat, vecSize: nat, all: seq<Row<Key<K>, V>>,
                                       limit: nat) {
    CollisionFree(o, all) && (nrKeys == 1 || vecSize <= limit || |KeySet(all)| <= limit)
  }

  /** One worker's operator. */
  class HashGroup<K(==, !new), V(!new)> {
    const o: Ops<Key<K>, V>
    const nrKeys: nat
    const vecSize: nat

    const ht: Hashmapx<Key<K>, V>
    var maxFill: nat
    const groupHt: HashmapSmall
    const buffers: Scratch
    const htMatches: array<nat>
    const groupsFound: array<nat>

    /** The worker's deque. */
    var spill: Deque<Key<K>, V>

    /** Sizes of the blocks in which entries were allocated, by preAggregation and by
        globalAggregation. */
    var preAllocations: seq<nat>
    var allocations: seq<nat>

    /** cont: the partition at hand, whether it needs aggregation, and the next block to return. */
    var consumed: bool
    var partition: nat
    var partitionNeedsAggregation: bool
    var iter: nat

    /** All tuples of the query, and what has been handed out of the partition at hand. */
    ghost const all: seq<Row<Key<K>, V>>
    ghost var handed: seq<Row<Key<K>, V>>

    /** The vectors so far, each with what it met in the tables. */
    ghost var calls: seq<Call<K, V>>

    /** The worker's objects: those it always has, and the directory of its table. */
    ghost function Own(): (own: set<object>)
      ensures this in own && ht in own && groupHt in own && groupHt.entries in own && groupHt.storage in own
    {
      {this, ht, groupHt, groupHt.entries, groupHt.storage, buffers.rowsIn, buffers.rowsOut, buffers.endsIn,
       buffers.endsOut, htMatches, groupsFound}
    }

    lemma OursAreThere()
      ensures forall x :: x in Objects() ==> allocated(x)
    {
    }

    lemma SharedIsNotOurs(shared: Shared)
      ensures shared !in Objects() && forall x :: x in Objects() ==> allocated(x)
    {
    }

    twostate lemma NewIsNotOwn(new d: object)
      requires fresh(d)
      ensures d !in Own()
    {
    }

    ghost function Objects(): set<object>
      reads ht
    {
      Own() + {ht.dir}
    }

    /** The buffers are large enough and distinct. */
    ghost predicate Buffered() {
      && buffers.Fits(vecSize) && buffers.rowsIn.Length == vecSize
      && vecSize <= htMatches.Length && vecSize <= groupsFound.Length
      && groupHt.entries !in buffers.All() && htMatches !in buffers.All() && groupsFound !in buffers.All()
      && htMatches != groupHt.entries && groupsFound != groupHt.entries && groupsFound != htMatches
    }

    ghost predicate Suitable() {
      Commutes(o) && Shaped(nrKeys, all)
    }

    /** Every lookup so far has listed the tuples without a group and no others. */
    ghost predicate Exact()
      reads this`calls
    {
      AllRight(calls)
    }

    /** That is so exactly if every vector so far has left its tuples at the groups of their keys, and no key
        with two. */
    ghost predicate Told()
      reads this`calls
    {
      AllRight(calls) <==> AllSound(calls)
    }

    /** The call for this vector has been added to the record. */
    twostate predicate Recorded(v: Vector<K, V>, ok: bool)
      reads this`calls, ht, htMatches
    {
      calls == old(calls) +
        [Call(v, old(ht.rows), old(ht.capacity), old(groupHt.capacity),
              if ok then ht.rows else [], if ok then htMatches[..] else [])]
    }

    /** No vector so far has overrun the buffer for what is not found, or divided the partitioning of it. */
    ghost predicate Ran()
      reads this`calls
    {
      AllRun(calls, vecSize)
    }

    /** Nothing has gone wrong, and nothing will. */
    ghost predicate Safe()
      reads this`calls, groupHt
    {
      Exact() && Harmless(o, nrKeys, vecSize, all, groupHt.capLimit)
    }

    ghost predicate Ready()
      reads this`calls, ht, ht.dir, groupHt, groupHt.entries, groupHt.storage
    {
      && ht.Valid() && Hashed(o, ht.rows) && Known(all, ht.rows) && (Exact() ==> Distinct(ht.rows))
      && groupHt.Valid() && groupHt.Empty() && 0 < vecSize <= groupHt.size
      && Buffered() && Suitable() && Ran() && Told()
    }

    constructor (o: Ops<Key<K>, V>, nrKeys: nat, vecSize: nat, nrThreads: nat, ghost all: seq<Row<Key<K>, V>>)
      requires Commutes(o) && Shaped(nrKeys, all)
      requires 0 < vecSize < EMPTY && 0 < nrThreads * 4 < WORD_SIZE
      ensures calls == [] && (Harmless(o, nrKeys, vecSize, all, 179) ==> Safe())
      ensures Ready() && fresh(Objects()) && this.o == o && this.nrKeys == nrKeys && this.vecSize == vecSize
      ensures this.all == all
      ensures ht.rows == [] && preAllocations == [] && allocations == [] && handed == []
      ensures spill == PostConstruct(nrThreads * 4) && !consumed && partitionNeedsAggregation
    {
      hide Hashmapx.Valid, HashmapSmall.Valid, HashmapSmall.Empty, Commutes, CollisionFree, Shaped, KeySet, Pow2, Known,
        Hashed, Distinct, AllRight, AllSound, AllRun;
      NothingKnown(o, all);
      NoCalls<K, V>(vecSize);
      var table, fill := NewTable();
      var small := NewGroupTable(vecSize);
      var b := NewBuffers(vecSize);
      var matches, found := new nat[vecSize], new nat[vecSize];
      this.o, this.nrKeys, this.vecSize, this.all := o, nrKeys, vecSize, all;
      ht, maxFill, groupHt, buffers, htMatches, groupsFound := table, fill, small, b, matches, found;
      spill := PostConstruct(nrThreads * 4);
      preAllocations, allocations, handed, calls := [], [], [], [];
      consumed, partition, partitionNeedsAggregation, iter := false, 0, true, 0;
    }

    /** What the lookup of a vector may rely on. */
    lemma VectorMeets(v: Vector<K, V>)
      requires Ready() && IsVector(o, nrKeys, vecSize, v) && Known(all, RowsOfVector(o, v))
      ensures ht.capacity > 0 && groupHt.capacity > 0
      ensures Hashes(v.keys, v.hashes, |v.values|) && Fitting(v.keys, v.hashes, |v.values|, ht.rows)
      ensures Columns(v.keys, ht.rows)
      ensures Harmless(o, nrKeys, vecSize, all, groupHt.capLimit) ==>
        && ClashFree(v.keys, v.hashes, ht.rows) && Steady(v.keys, groupHt, |v.values|)
        && ListsRight(v.keys, v.hashes, ht.capacity, ht.rows)
        && (nrKeys == 1 || |KeysOf(v.keys, |v.values|)| <= groupHt.capLimit)
    {
      hide Hashmapx.Threaded, HashmapSmall.Stored, HashmapSmall.Threaded, Commutes, CompositeKey, KeysOf, KeySet,
        CollisionFree, Known, Shaped, Distinct, ClashFree, Columns, ListsRight, Fitting, Hashed, AllRight,
        AllSound, AllRun;
      VectorFits(o, nrKeys, vecSize, v, ht.rows);
      ColumnsKnown(nrKeys, all, ht.rows, v.keys);
      FewKeys(o, all, v);
      if Harmless(o, nrKeys, vecSize, all, groupHt.capLimit) {
        VectorClashFree(o, all, nrKeys, vecSize, v, ht.rows);
        NothingFollowed(v.keys, v.hashes, ht.capacity, ht.rows);
      }
    }

    /** One vector: its groups are found or created, and updated. Afterwards every tuple points to the group
        of its key and no key has two, exactly if the lookup has listed the tuples without a group and no
        others. The run ends where the source writes beyond its buffer or partitioning is divided. */
    method AggregateVector(v: Vector<K, V>, allowResize: bool) returns (ok: bool, groups: nat)
      requires Ready() && IsVector(o, nrKeys, vecSize, v) && Known(all, RowsOfVector(o, v))
      modifies this`maxFill, this`calls, ht, ht.dir, groupHt, groupHt.entries, groupHt.storage, buffers.rowsIn,
               buffers.rowsOut, buffers.endsIn, buffers.endsOut, htMatches, groupsFound
      ensures Recorded(v, ok)
      ensures (Exact() ==> old(Exact())) && (ok <==> Ran()) && (old(Safe()) ==> ok && Safe())
      ensures ht.dir == old(ht.dir) || fresh(ht.dir)
      ensures ok ==> Ready() && |ht.rows| == |old(ht.rows)| + groups
      ensures ok && old(Distinct(ht.rows)) ==> (Sound(calls[|old(calls)|]) <==> Right(calls[|old(calls)|]))
      ensures ok && Exact() ==> SameTotals(o, ht.rows, old(ht.rows) + RowsOfVector(o, v))
    {
      hide Hashmapx.Threaded, Hashmapx.Sized, HashmapSmall.Stored, HashmapSmall.Threaded, SameTotals, Commutes, Sum,
        Fitting, Columns, Creatable, ClashFree, ListsRight, CompositeKey, KeysOf, KeySet, CollisionFree, Known, Shaped,
        Matches, Distinct, NewGroup, AllMatch, AllRight, AllSound, AllRun, Hashed, SameKeys;
      ghost var before, tuples := ht.rows, RowsOfVector(o, v);
      ghost var record := Call(v, ht.rows, ht.capacity, groupHt.capacity, [], []);
      VectorMeets(v);
      ok, groups, maxFill := GroupVector(ht, groupHt, v.keys, v.hashes, |v.values|, buffers, htMatches, groupsFound,
                                         o.init, maxFill, allowResize);
      if !ok {
        OneMoreCall(calls, record, vecSize);
        calls := calls + [record];
        return;
      }
      ghost var made := ht.rows;
      ghost var more := made[|before|..];
      assert made == before + more;
      NewForTuples(o, nrKeys, vecSize, v, more);
      UpdateGroups(o, ht, v, htMatches);
      KeysKnown(o, all, before, more, tuples, ht.rows);
      SameGroups(v.keys, |v.values|, htMatches[..], made, ht.rows);
      record := record.(after := ht.rows, matches := htMatches[..]);
      OneMoreCall(calls, record, vecSize);
      calls := calls + [record];
      if Exact() {
        MoreGroups(o, before, more);
        NewCountNothing(o, before, more, tuples);
        TotalsChain(o, ht.rows, before + more + tuples, before + tuples);
      }
    }

    // ------------------------------------------------------------ phase 1

    /** Table and deque together hold the folds of the tuples so far. */
    ghost predicate Aggregated(tuples: seq<Row<Key<K>, V>>)
      reads this, ht, ht.dir, groupHt, groupHt.entries, groupHt.storage
    {
      && Ready() && Total(preAllocations) == |ht.rows| && TwoPhase.Placed(o, spill)
      && Known(all, Join(spill.partitions))
      && (Exact() ==> SameTotals(o, ht.rows + Join(spill.partitions), tuples))
    }

    /** flushAndClear: the blocks go to the deque one after the other. */
    method FlushAndClear(ghost tuples: seq<Row<Key<K>, V>>)
      requires Aggregated(tuples)
      modifies this`spill, this`preAllocations, ht, ht.dir
      ensures Aggregated(tuples) && ht.rows == [] && preAllocations == [] && ht.dir == old(ht.dir)
      ensures spill.shift == old(spill.shift)
    {
      hide Hashmapx.Threaded, SameTotals, TwoPhase.Placed, Commutes, Sum, Join, Suitable, Buffered, Known, Hashed,
        Distinct, AllRight, AllSound, AllRun;
      ghost var rows, spilled := ht.rows, Join(spill.partitions);
      SuitableCommutes();
      assert spilled + rows[..0] == spilled;
      TotalsSame(o, spilled);
      var i := 0;
      while i < |preAllocations|
        invariant i <= |preAllocations| && Total(preAllocations[..i]) <= |rows|
        invariant TwoPhase.Placed(o, spill) && spill.shift == old(spill.shift)
        invariant SameTotals(o, Join(spill.partitions), spilled + rows[..Total(preAllocations[..i])])
        modifies this`spill
      {
        TotalTake(preAllocations, i);
        var at, end := Total(preAllocations[..i]), Total(preAllocations[..i + 1]);
        SliceKnown(o, all, rows, at, end);
        ghost var was := Join(spill.partitions);
        spill := Spill(o, ht.rows[at..end], spill);
        TotalsMore(o, was, spilled + rows[..at], rows[at..end]);
        assert spilled + rows[..at] + rows[at..end] == spilled + rows[..end];
        TotalsChain(o, Join(spill.partitions), was + rows[at..end], spilled + rows[..end]);
        i := i + 1;
      }
      assert preAllocations[..i] == preAllocations && rows[..|rows|] == rows;
      preAllocations := [];
      ht.Clear();
      TotalsSwap(o, spilled, rows);
      TotalsChain(o, Join(spill.partitions), spilled + rows, rows + spilled);
      StillKnown(o, all, spilled, rows, Join(spill.partitions));
      if Exact() { TotalsChain(o, Join(spill.partitions), rows + spilled, tuples); }
      assert ht.rows + Join(spill.partitions) == Join(spill.partitions);
      NothingKnown(o, all);
    }

    lemma SuitableCommutes()
      requires Suitable()
      ensures Commutes(o)
    {
    }

    /** One vector of the child, without enlarging the table. */
    method Consume(v: Vector<K, V>, ghost tuples: seq<Row<Key<K>, V>>) returns (ok: bool, groups: nat)
      requires Aggregated(tuples) && IsVector(o, nrKeys, vecSize, v) && Known(all, RowsOfVector(o, v))
      modifies this`maxFill, this`preAllocations, this`calls, ht, ht.dir, groupHt, groupHt.entries, groupHt.storage,
               buffers.rowsIn, buffers.rowsOut, buffers.endsIn, buffers.endsOut, htMatches, groupsFound
      ensures Recorded(v, ok)
      ensures (Exact() ==> old(Exact())) && (ok <==> Ran()) && (old(Safe()) ==> ok && Safe())
      ensures ht.dir == old(ht.dir) || fresh(ht.dir)
      ensures ok ==> Aggregated(tuples + RowsOfVector(o, v))
    {
      hide Hashmapx.Threaded, HashmapSmall.Stored, HashmapSmall.Threaded, SameTotals, TwoPhase.Placed, Commutes, Sum,
        Join, Known, IsVector, Hashed, Distinct, AllRight, AllSound, AllRun, AllMatch, Right, Harmless;
      ghost var rows, spilled, more := ht.rows, Join(spill.partitions), RowsOfVector(o, v);
      ok, groups := AggregateVector(v, false);
      if !ok { return; }
      TotalMore(preAllocations, groups);
      if groups > 0 {
        preAllocations := preAllocations + [groups];
      }
      if Exact() {
        TotalsMore(o, ht.rows, rows + more, spilled);
        TotalsMiddle(o, rows, more, spilled);
        TotalsChain(o, ht.rows + spilled, rows + more + spilled, rows + spilled + more);
        TotalsMore(o, rows + spilled, tuples, more);
        TotalsChain(o, ht.rows + spilled, rows + spilled + more, tuples + more);
      }
    }

    lemma AllSpilled(tuples: seq<Row<Key<K>, V>>)
      requires Aggregated(tuples) && ht.rows == []
      ensures Ready() && Ran() && TwoPhase.Placed(o, spill) && Known(all, Join(spill.partitions))
      ensures Exact() ==> SameTotals(o, Join(spill.partitions), tuples)
    {
      hide Ran, Exact;
      assert ht.rows + Join(spill.partitions) == Join(spill.partitions);
    }

    /** Phase 1: all vectors of the child, spilling whenever the table is full and at the end. The
        count of groups is never reset, so that after the first overflow every vector is spilled. */
    method PreAggregate(vectors: seq<Vector<K, V>>) returns (ok: bool)
      requires Aggregated([]) && ht.rows == [] && preAllocations == [] && calls == []
      requires forall i :: 0 <= i < |vectors| ==>
        IsVector(o, nrKeys, vecSize, vectors[i]) && Known(all, RowsOfVector(o, vectors[i]))
      modifies this`maxFill, this`preAllocations, this`spill, this`calls, ht, ht.dir, groupHt, groupHt.entries,
               groupHt.storage, buffers.rowsIn, buffers.rowsOut, buffers.endsIn, buffers.endsOut, htMatches, groupsFound
      ensures OfVectors(calls, vectors) && (ok ==> |calls| == |vectors|)
      ensures (ok <==> Ran()) && (old(Safe()) ==> ok && Safe())
      ensures ht.dir == old(ht.dir) || fresh(ht.dir)
      ensures ok ==>
        && Ready() && ht.rows == [] && preAllocations == []
        && TwoPhase.Placed(o, spill) && spill.shift == old(spill.shift) && Known(all, Join(spill.partitions))
        && (Exact() ==> SameTotals(o, Join(spill.partitions), RowsOfVectors(o, vectors)))
    {
      hide Aggregated, RowsOfVectors, IsVector, Known, Safe, Ran, Told, Exact;
      var groups := 0;
      ghost var tuples: seq<Row<Key<K>, V>> := [];
      RowsOfNoVectors(o, vectors);
      var i := 0;
      while i < |vectors|
        invariant i <= |vectors| && tuples == RowsOfVectors(o, vectors[..i]) && Aggregated(tuples)
        invariant old(Safe()) ==> Safe()
        invariant OfVectors(calls, vectors) && |calls| == i
        invariant spill.shift == old(spill.shift) && (ht.dir == old(ht.dir) || fresh(ht.dir))
      {
        var groupsCreated;
        ok, groupsCreated := Consume(vectors[i], tuples);
        if !ok { return; }
        tuples := tuples + RowsOfVector(o, vectors[i]);
        groups := groups + groupsCreated;
        if groups >= maxFill {
          FlushAndClear(tuples);
        }
        RowsOfMore(o, vectors, i);
        i := i + 1;
      }
      FlushAndClear(tuples);
      assert vectors[..i] == vectors;
      AllSpilled(tuples);
      ok := true;
    }

    // ------------------------------------------------------------ phase 2

    /** The entries of the table are in blocks, none of them empty. */
    ghost predicate Blocked()
      reads this`allocations, ht`rows
    {
      Total(allocations) == |ht.rows| && forall i :: 0 <= i < |allocations| ==> allocations[i] > 0
    }

    /** One vector of rows, in a table that may be enlarged. */
    method AggregateBlock(rows: seq<Row<Key<K>, V>>) returns (ok: bool)
      requires Ready() && Blocked() && |rows| <= vecSize && Hashed(o, rows) && Known(all, rows)
      modifies this`maxFill, this`allocations, this`calls, ht, ht.dir, groupHt, groupHt.entries, groupHt.storage,
               buffers.rowsIn, buffers.rowsOut, buffers.endsIn, buffers.endsOut, htMatches, groupsFound
      ensures AreKeys(nrKeys, rows)
      ensures Recorded(RowVector(nrKeys, rows), ok)
      ensures (Exact() ==> old(Exact())) && (ok <==> Ran()) && (old(Safe()) ==> ok && Safe())
      ensures ht.dir == old(ht.dir) || fresh(ht.dir)
      ensures ok ==> Ready() && Blocked() && (Exact() ==> SameTotals(o, ht.rows, old(ht.rows) + rows))
    {
      hide Hashmapx.Threaded, HashmapSmall.Stored, HashmapSmall.Threaded, SameTotals, Commutes, Sum, IsVector, Hashed,
        RowVector, AllMatch, Right, AllRight, AllSound, AllRun, Harmless, Distinct;
      RowsAreKeys(rows);
      RowsOfRowVector(o, nrKeys, vecSize, rows);
      var groups;
      ok, groups := AggregateVector(RowVector(nrKeys, rows), true);
      if !ok { return; }
      TotalMore(allocations, groups);
      if groups > 0 {
        allocations := allocations + [groups];
      }
    }

    lemma RowsAreKeys(rows: seq<Row<Key<K>, V>>)
      requires Suitable() && Known(all, rows)
      ensures AreKeys(nrKeys, rows)
    {
      forall x | 0 <= x < |rows| ensures IsKey(nrKeys, rows[x].k) {
        assert Has(rows, rows[x].k);
      }
    }

    /** The record of calls grows, and a wrong call stays one. */
    twostate predicate Logs()
      reads this`calls
    {
      old(calls) <= calls && (Exact() ==> old(Exact()))
    }

    lemma ReadyFacts()
      requires Ready()
      ensures vecSize > 0 && Commutes(o) && Ran()
    {
    }

    /** What one deque has for a partition: chunk by chunk, and each chunk in vectors. */
    method AggregateRows(rows: seq<Row<Key<K>, V>>) returns (ok: bool)
      requires Ready() && Blocked() && Hashed(o, rows) && Known(all, rows)
      modifies this`maxFill, this`allocations, this`calls, ht, ht.dir, groupHt, groupHt.entries, groupHt.storage,
               buffers.rowsIn, buffers.rowsOut, buffers.endsIn, buffers.endsOut, htMatches, groupsFound
      ensures Logs() && (ok <==> Ran()) && (old(Safe()) ==> ok && Safe())
      ensures ht.dir == old(ht.dir) || fresh(ht.dir)
      ensures ok ==> Ready() && Blocked() && (Exact() ==> SameTotals(o, ht.rows, old(ht.rows) + rows))
    {
      hide Ready, Hashmapx.Threaded, SameTotals, Commutes, Sum, IsVector, Known, Hashed, Safe, Exact, Ran, RowVector;
      ghost var before := ht.rows;
      assert before + rows[..0] == before;
      TotalsSame(o, before);
      ReadyFacts();
      var chunk := 0;
      while chunk < |rows|
        invariant chunk <= |rows| && Ready() && Blocked() && (old(Safe()) ==> Safe())
        invariant (ht.dir == old(ht.dir) || fresh(ht.dir)) && Logs() && Ran()
        invariant Exact() ==> SameTotals(o, ht.rows, before + rows[..chunk])
      {
        var nPart: nat := if |rows| - chunk < CHUNK_SIZE then |rows| - chunk else CHUNK_SIZE;
        var n: nat, pos: nat := if nPart < vecSize then nPart else vecSize, 0;
        while n > 0
          invariant n == if nPart < vecSize then nPart else vecSize
          invariant chunk + pos + nPart <= |rows| && 0 < pos + nPart && Ready() && Blocked() && (old(Safe()) ==> Safe())
          invariant (ht.dir == old(ht.dir) || fresh(ht.dir)) && Logs() && Ran()
          invariant Exact() ==> SameTotals(o, ht.rows, before + rows[..chunk + pos])
          decreases nPart
        {
          ghost var was, at := ht.rows, chunk + pos;
          SliceKnown(o, all, rows, at, at + n);
          ok := AggregateBlock(rows[chunk + pos..chunk + pos + n]);
          if !ok { return; }
          if Exact() {
            TotalsMore(o, was, before + rows[..at], rows[at..at + n]);
            assert before + rows[..at] + rows[at..at + n] == before + rows[..at + n];
            TotalsChain(o, ht.rows, was + rows[at..at + n], before + rows[..at + n]);
          }
          nPart := nPart - n;
          pos := pos + n;
          n := if nPart < vecSize then nPart else vecSize;
        }
        chunk := chunk + pos;
      }
      assert rows[..chunk] == rows;
      ok := true;
    }

    /** A partition, from the deques of all workers. */
    method AggregatePartition(deques: seq<Deque<Key<K>, V>>, ghost shift: nat) returns (ok: bool)
      requires Ready() && ht.rows == [] && allocations == []
      requires AllPlaced(o, deques, shift) && shift <= 64 && partition < Pow2(64 - shift)
      requires Known(all, DequeRows(deques))
      modifies this`maxFill, this`allocations, this`calls, ht, ht.dir, groupHt, groupHt.entries, groupHt.storage,
               buffers.rowsIn, buffers.rowsOut, buffers.endsIn, buffers.endsOut, htMatches, groupsFound
      ensures Logs() && (ok <==> Ran()) && (old(Safe()) ==> ok && Safe())
      ensures ht.dir == old(ht.dir) || fresh(ht.dir)
      ensures ok ==> Ready() && Blocked() && (Exact() ==> SameTotals(o, ht.rows, Column(o, deques, shift, partition)))
    {
      hide Ready, SameTotals, Commutes, Sum, Known, Hashed, DequeRows, Pow2, Safe, Exact, Ran;
      TotalsSame<Key<K>, V>(o, []);
      ReadyFacts();
      assert Column(o, deques[..0], shift, partition) == [];
      var i := 0;
      while i < |deques|
        invariant i <= |deques| && Ready() && Blocked() && (ht.dir == old(ht.dir) || fresh(ht.dir))
        invariant (old(Safe()) ==> Safe()) && Logs() && Ran()
        invariant Exact() ==> SameTotals(o, ht.rows, Column(o, deques[..i], shift, partition))
      {
        ghost var was, before := ht.rows, Column(o, deques[..i], shift, partition);
        assert TwoPhase.Placed(o, deques[i]);
        var rows := deques[i].partitions[partition];
        PartitionKnown(o, all, deques, shift, i, partition);
        ok := AggregateRows(rows);
        if !ok { return; }
        if Exact() {
          TotalsMore(o, was, before, rows);
          TotalsChain(o, ht.rows, was + rows, before + rows);
        }
        assert deques[..i + 1][..i] == deques[..i];
        i := i + 1;
      }
      assert deques[..i] == deques;
      ok := true;
    }

    /** The state of a worker behind the barrier: it has a partition of its own, which it has not
        begun, or has aggregated and handed out up to block `iter`. */
    ghost predicate Working(deques: seq<Deque<Key<K>, V>>, shift: nat)
      requires AllPlaced(o, deques, shift) && shift <= 64
      reads ht, Objects()
    {
      && Ready() && Blocked() && spill.Valid() && spill.shift == shift && Known(all, DequeRows(deques))
      && (partitionNeedsAggregation ==> ht.rows == [] && allocations == [] && handed == [])
      && (!partitionNeedsAggregation ==>
            && consumed && partition < Pow2(64 - shift) && iter <= |allocations|
            && (Exact() ==> SameTotals(o, ht.rows, Column(o, deques, shift, partition)))
            && handed <= ht.rows && |handed| == Total(allocations[..iter]))
    }

    /** What a turn does: it hands out more of the worker's partition, or, the partition being all
        handed out, takes the next; at the end it does nothing. */
    twostate predicate Moved(shared: Shared, deques: seq<Deque<Key<K>, V>>, shift: nat,
                             new batch: seq<Row<Key<K>, V>>)
      requires AllPlaced(o, deques, shift) && shift <= 64
      reads this, shared
    {
      if batch != [] then
        && old(consumed) && partition == old(partition) < Pow2(64 - shift) && shared.partition == old(shared.partition)
        && handed == old(handed) + batch && (Exact() ==> HandedOf(o, deques, shift, partition, handed))
      else if old(consumed && partition >= Pow2(64 - shift)) then
        partition == old(partition) && shared.partition == old(shared.partition) && handed == old(handed)
      else
        && partition == old(shared.partition) && shared.partition == partition + 1 && handed == []
        && (Exact() && old(consumed) ==> SameTotals(o, old(handed), Column(o, deques, shift, old(partition))))
    }

    /** One turn of the loop of next: a batch of groups, or the next partition. It touches the
        shared counter at most once. */
    method Step(shared: Shared, deques: seq<Deque<Key<K>, V>>, ghost shift: nat)
      returns (ok: bool, batch: seq<Row<Key<K>, V>>)
      requires AllPlaced(o, deques, shift) && shift <= 64 && Working(deques, shift)
      requires consumed ==> partition < shared.partition
      modifies shared, Own(), ht.dir
      ensures Logs() && (ok <==> Ran()) && (old(Safe()) ==> ok && Safe())
      ensures ht.dir == old(ht.dir) || fresh(ht.dir)
      ensures ok ==>
        Working(deques, shift) && consumed && partition < shared.partition && Moved(shared, deques, shift, batch)
    {
      hide Working, SameTotals, Column, DequeRows, Pow2, HandedOf, Safe, Exact, Ran;
      ok, batch := true, [];
      WorkingFacts(deques, shift);
      if !consumed {
        EnterPhase2(deques, shift);
        TakePartition(shared, deques, shift);
      } else {
        if partition < |spill.partitions| {
          if partitionNeedsAggregation {
            ok := Begin(deques, shift);
            if !ok { return; }
          }
          if iter < |allocations| {
            batch := HandOut(deques, shift);
          } else {
            Finish(deques, shift);
            TakePartition(shared, deques, shift);
          }
        }
      }
    }

    /** cont.partition = shared.partition.fetch_add(1). */
    method TakePartition(shared: Shared, deques: seq<Deque<Key<K>, V>>, ghost shift: nat)
      requires AllPlaced(o, deques, shift) && shift <= 64 && Working(deques, shift) && partitionNeedsAggregation
      modifies shared, this`partition
      ensures Working(deques, shift) && partition == old(shared.partition) && shared.partition == partition + 1
      ensures handed == []
    {
      hide Ready, SameTotals, Known, Column, DequeRows, Pow2, Exact;
      partition := shared.partition;
      shared.partition := shared.partition + 1;
    }

    method Begin(deques: seq<Deque<Key<K>, V>>, ghost shift: nat) returns (ok: bool)
      requires AllPlaced(o, deques, shift) && shift <= 64 && Working(deques, shift) && partitionNeedsAggregation
      requires consumed && partition < |spill.partitions|
      modifies this`maxFill, this`allocations, this`calls, this`partitionNeedsAggregation, this`iter, ht, ht.dir,
               groupHt, groupHt.entries,
               groupHt.storage, buffers.rowsIn, buffers.rowsOut, buffers.endsIn, buffers.endsOut, htMatches, groupsFound
      ensures Logs() && (ok <==> Ran()) && (old(Safe()) ==> ok && Safe())
      ensures ht.dir == old(ht.dir) || fresh(ht.dir)
      ensures ok ==> Working(deques, shift) && !partitionNeedsAggregation && handed == old(handed)
    {
      hide Ready, SameTotals, Known, Column, DequeRows, Pow2, Safe, Exact, Ran;
      ok := AggregatePartition(deques, shift);
      if !ok { return; }
      partitionNeedsAggregation := false;
      iter := 0;
    }

    /** The next block of groups goes to the parent operator. */
    method HandOut(deques: seq<Deque<Key<K>, V>>, ghost shift: nat) returns (batch: seq<Row<Key<K>, V>>)
      requires AllPlaced(o, deques, shift) && shift <= 64 && Working(deques, shift) && !partitionNeedsAggregation
      requires iter < |allocations|
      modifies this`iter, this`handed
      ensures Working(deques, shift) && batch != [] && handed == old(handed) + batch
      ensures Exact() ==> HandedOf(o, deques, shift, partition, handed)
    {
      hide Ready, SameTotals, Commutes, Known, Column, DequeRows, Pow2, HandedOf, Exact;
      TotalTake(allocations, iter);
      var at, end := Total(allocations[..iter]), Total(allocations[..iter + 1]);
      batch := ht.rows[at..end];
      iter := iter + 1;
      handed := handed + batch;
      ReadyGroups();
      if Exact() { HandedPart(o, deques, shift, partition, ht.rows, handed); }
    }

    /** All blocks are handed out: the table is cleared. */
    method Finish(deques: seq<Deque<Key<K>, V>>, ghost shift: nat)
      requires AllPlaced(o, deques, shift) && shift <= 64 && Working(deques, shift) && !partitionNeedsAggregation
      requires iter >= |allocations|
      modifies this`allocations, this`partitionNeedsAggregation, this`handed, ht, ht.dir
      ensures Working(deques, shift) && partitionNeedsAggregation && ht.dir == old(ht.dir) && handed == []
      ensures partition < Pow2(64 - shift)
      ensures Exact() ==> SameTotals(o, old(handed), Column(o, deques, shift, partition))
    {
      hide Ready, SameTotals, Commutes, Known, Column, DequeRows, Pow2, Exact;
      assert allocations[..iter] == allocations;
      assert handed == ht.rows;
      ClearTable();
      partitionNeedsAggregation := true;
      handed := [];
    }

    lemma WorkingFacts(deques: seq<Deque<Key<K>, V>>, shift: nat)
      requires AllPlaced(o, deques, shift) && shift <= 64 && Working(deques, shift)
      ensures |spill.partitions| == Pow2(64 - shift) && Ran() && Told()
      ensures !partitionNeedsAggregation ==> partition < |spill.partitions|
    {
      hide Hashmapx.Valid, HashmapSmall.Valid, HashmapSmall.Empty, Buffered, Suitable, SameTotals, Known, Hashed,
        Column, DequeRows, Pow2, AllRight, AllSound, AllRun;
    }

    /** Behind the barrier the input is consumed. */
    method EnterPhase2(ghost deques: seq<Deque<Key<K>, V>>, ghost shift: nat)
      requires AllPlaced(o, deques, shift) && shift <= 64 && Working(deques, shift) && !consumed
      modifies this`consumed
      ensures Working(deques, shift) && consumed && partitionNeedsAggregation
    {
      hide Ready, SameTotals, Known, Column, DequeRows, Pow2, Exact;
      consumed := true;
    }

    /** clearHashtable of globalAggregation. */
    method ClearTable()
      requires Ready()
      modifies ht, ht.dir, this`allocations
      ensures Ready() && Blocked() && ht.rows == [] && allocations == [] && ht.dir == old(ht.dir)
    {
      hide Hashmapx.Threaded, SameTotals, Commutes, Sum, Known, Suitable, Buffered, AllRight, AllSound, AllRun;
      ht.Clear();
      allocations := [];
      NothingKnown(o, all);
    }

    lemma ReadyGroups()
      requires Ready()
      ensures Commutes(o) && (Exact() ==> Groups(o, ht.rows))
    {
    }

    ghost predicate HandedLast(deques: seq<Deque<Key<K>, V>>, shift: nat, batch: seq<Row<Key<K>, V>>)
      requires shift <= 64
      reads this
    {
      && |batch| <= |handed| && batch == handed[|handed| - |batch|..]
      && (Exact() ==> HandedOf(o, deques, shift, partition, handed))
    }

    /** next, behind the barrier: it returns groups, or EndOfStream when the counter has run past
        the last partition. */
    method Next(shared: Shared, deques: seq<Deque<Key<K>, V>>, ghost shift: nat)
      returns (ok: bool, batch: seq<Row<Key<K>, V>>)
      requires AllPlaced(o, deques, shift) && shift <= 64 && Working(deques, shift)
      requires consumed ==> partition < shared.partition
      modifies shared, Own(), ht.dir
      ensures Logs() && (ok <==> Ran()) && (old(Safe()) ==> ok && Safe())
      ensures ht.dir == old(ht.dir) || fresh(ht.dir)
      ensures ok ==> Working(deques, shift) && consumed && partition < shared.partition
      ensures ok && batch == [] ==> partition >= |spill.partitions| && shared.partition > |spill.partitions|
      ensures ok && batch != [] ==> HandedLast(deques, shift, batch)
    {
      hide Working, Column, DequeRows, SameTotals, Pow2, HandedOf, Own, Safe, Exact, Ran;
      ok, batch := Step(shared, deques, shift);
      if !ok { return; }
      WorkingFacts(deques, shift);
      while batch == [] && partition < |spill.partitions|
        invariant Working(deques, shift) && consumed && partition < shared.partition
        invariant |spill.partitions| == Pow2(64 - shift)
        invariant (ht.dir == old(ht.dir) || fresh(ht.dir)) && ok && (old(Safe()) ==> Safe()) && Logs() && Ran()
        invariant batch != [] ==> HandedLast(deques, shift, batch)
        decreases Pow2(64 - shift) - partition, if batch == [] then 1 else 0
      {
        ok, batch := Step(shared, deques, shift);
        if !ok { return; }
        WorkingFacts(deques, shift);
      }
    }

    /** Waiting at the barrier. */
    ghost predicate Waiting()
      reads ht, Objects()
    {
      && Ready() && ht.rows == [] && allocations == [] && handed == [] && !consumed && partitionNeedsAggregation
    }
  }

  // ------------------------------------------------------------ all workers

  /** Workers share no objects. */
  ghost predicate Separate<K(!new), V(!new)>(workers: seq<HashGroup<K, V>>)
    reads set w | w in workers :: w.ht
  {
    Apart(workers, DirsOf(workers))
  }

  /** The directories of the workers' tables. */
  ghost function DirsOf<K(!new), V(!new)>(workers: seq<HashGroup<K, V>>): (dirs: seq<array<int>>)
    reads set w | w in workers :: w.ht
    ensures |dirs| == |workers| && forall w: nat :: w < |workers| ==> dirs[w] == workers[w].ht.dir
  {
    if workers == [] then [] else DirsOf(workers[..|workers| - 1]) + [workers[|workers| - 1].ht.dir]
  }

  ghost predicate Apart<K(!new), V(!new)>(workers: seq<HashGroup<K, V>>, dirs: seq<array<int>>)
    requires |dirs| == |workers|
  {
    forall i: nat, j: nat :: i < |workers| && j < |workers| && i != j ==>
      workers[i].Own() !! workers[j].Own() && dirs[i] !in workers[j].Own() && dirs[i] != dirs[j]
  }

  lemma StillApart<K(!new), V(!new)>(workers: seq<HashGroup<K, V>>, dirs: seq<array<int>>, w: nat, d: array<int>)
    requires |dirs| == |workers| && Apart(workers, dirs) && w < |workers|
    requires d == dirs[w] || forall v: nat :: v < |workers| && v != w ==> d !in workers[v].Own() && d != dirs[v]
    ensures Apart(workers, dirs[w := d])
  {
    hide HashGroup.Own;
  }

  ghost function HoldOf<K(!new), V(!new)>(w: HashGroup<K, V>): Hold<Key<K>, V>
    reads w
  {
    Hold(w.consumed, w.partition, w.handed)
  }

  ghost predicate Seen<K(!new), V(!new)>(workers: seq<HashGroup<K, V>>, holds: seq<Hold<Key<K>, V>>)
    reads workers
  {
    |holds| == |workers| && forall w: nat :: w < |holds| ==> holds[w] == HoldOf(workers[w])
  }

  ghost function HoldsOf<K(!new), V(!new)>(workers: seq<HashGroup<K, V>>): (holds: seq<Hold<Key<K>, V>>)
    reads workers
    ensures Seen(workers, holds)
  {
    if workers == [] then [] else HoldsOf(workers[..|workers| - 1]) + [HoldOf(workers[|workers| - 1])]
  }

  /** All workers are behind the barrier. */
  ghost predicate AllWorking<K(!new), V(!new)>(o: Ops<Key<K>, V>, workers: seq<HashGroup<K, V>>,
                                              deques: seq<Deque<Key<K>, V>>, shift: nat)
    requires AllPlaced(o, deques, shift) && shift <= 64
    reads set w | w in workers :: w.ht, set w, x | w in workers && x in w.Objects() :: x
  {
    forall w: nat :: w < |workers| ==> workers[w].o == o && workers[w].Working(deques, shift)
  }

  ghost predicate AllSafe<K(!new), V(!new)>(workers: seq<HashGroup<K, V>>)
    reads workers, set w | w in workers :: w.groupHt
  {
    forall w: nat :: w < |workers| ==> workers[w].Safe()
  }

  /** No worker's lookup has gone wrong. */
  ghost predicate AllExact<K(!new), V(!new)>(workers: seq<HashGroup<K, V>>)
    reads workers
  {
    forall w: nat :: w < |workers| ==> workers[w].Exact()
  }

  /** No worker has had to stop. */
  ghost predicate AllRan<K(!new), V(!new)>(workers: seq<HashGroup<K, V>>)
    reads workers
  {
    forall w: nat :: w < |workers| ==> workers[w].Ran()
  }

  /** The record of every worker tells by the outcomes whether the lookups were right. */
  ghost predicate AllTold<K(!new), V(!new)>(workers: seq<HashGroup<K, V>>)
    reads workers
  {
    forall w: nat :: w < |workers| ==> workers[w].Told()
  }

  lemma SafeIsExact<K(!new), V(!new)>(workers: seq<HashGroup<K, V>>)
    requires AllSafe(workers)
    ensures AllExact(workers)
  {
    hide HashGroup.Exact, Harmless;
  }

  /** Whoever works has run. */
  lemma WorkingRan<K(!new), V(!new)>(o: Ops<Key<K>, V>, workers: seq<HashGroup<K, V>>,
                                    deques: seq<Deque<Key<K>, V>>, shift: nat)
    requires AllPlaced(o, deques, shift) && shift <= 64 && AllWorking(o, workers, deques, shift)
    ensures AllRan(workers) && AllTold(workers)
  {
    hide HashGroup.Working, HashGroup.Ran, HashGroup.Told;
    forall w: nat | w < |workers| ensures workers[w].Ran() && workers[w].Told() {
      workers[w].WorkingFacts(deques, shift);
    }
  }

  /** Partitions at hand are below the shared counter. */
  ghost predicate Counted<K, V>(holds: seq<Hold<K, V>>, next: nat) {
    forall w: nat :: w < |holds| && holds[w].consumed ==> holds[w].partition < next
  }

  /** The workers' objects are in the region. */
  ghost predicate Inside<K(!new), V(!new)>(workers: seq<HashGroup<K, V>>, region: set<object>)
    reads set w | w in workers :: w.ht
  {
    Held(workers, DirsOf(workers), region)
  }

  ghost predicate Held<K(!new), V(!new)>(workers: seq<HashGroup<K, V>>, dirs: seq<array<int>>, region: set<object>)
    requires |dirs| == |workers|
  {
    forall w: nat :: w < |workers| ==> workers[w].Own() <= region && dirs[w] in region
  }

  lemma StillHeld<K(!new), V(!new)>(workers: seq<HashGroup<K, V>>, dirs: seq<array<int>>, w: nat, d: array<int>,
                                   region: set<object>)
    requires |dirs| == |workers| && Held(workers, dirs, region) && w < |workers|
    ensures Held(workers, dirs[w := d], region + {d}) && dirs[w] in region
  {
    hide HashGroup.Own;
  }

  lemma MayTurn<K(!new), V(!new)>(workers: seq<HashGroup<K, V>>, w: nat, region: set<object>)
    requires Inside(workers, region) && w < |workers|
    ensures workers[w].Objects() <= region
  {
  }

  /** These calls, and perhaps more since. */
  ghost predicate Grown<K(!new), V(!new)>(workers: seq<HashGroup<K, V>>, logs: seq<seq<Call<K, V>>>)
    reads workers
  {
    |logs| == |workers| && forall w: nat :: w < |workers| ==> logs[w] <= workers[w].calls
  }

  lemma NothingShared<K(!new), V(!new)>(workers: seq<HashGroup<K, V>>, v: nat, w: nat)
    requires Separate(workers) && v < |workers| && w < |workers| && v != w
    ensures workers[v].Objects() !! workers[w].Objects()
  {
    hide HashGroup.Own;
  }

  lemma SizedLikeDeques<K(!new), V(!new)>(o: Ops<Key<K>, V>, workers: seq<HashGroup<K, V>>,
                                         deques: seq<Deque<Key<K>, V>>, shift: nat, w: nat)
    requires AllPlaced(o, deques, shift) && shift <= 64 && AllWorking(o, workers, deques, shift) && w < |workers|
    ensures workers[w].o == o && workers[w].Working(deques, shift) && |workers[w].spill.partitions| == Pow2(64 - shift)
  {
    hide HashGroup.Working;
    workers[w].WorkingFacts(deques, shift);
  }

  lemma AllAreWorking<K(!new), V(!new)>(o: Ops<Key<K>, V>, workers: seq<HashGroup<K, V>>,
                                       deques: seq<Deque<Key<K>, V>>, shift: nat)
    requires AllPlaced(o, deques, shift) && shift <= 64
    requires forall v: nat :: v < |workers| ==> workers[v].o == o && workers[v].Working(deques, shift)
    ensures AllWorking(o, workers, deques, shift)
  {
    hide HashGroup.Working;
  }

  /** A turn of worker w does not touch the others. */
  method TurnAlone<K(==, !new), V(!new)>(ghost o: Ops<Key<K>, V>, workers: seq<HashGroup<K, V>>, shared: Shared,
                                        deques: seq<Deque<Key<K>, V>>, ghost shift: nat, w: nat,
                                        ghost holds: seq<Hold<Key<K>, V>>, ghost logs: seq<seq<Call<K, V>>>,
                                        ghost region: set<object>)
    returns (ok: bool, batch: seq<Row<Key<K>, V>>)
    requires AllPlaced(o, deques, shift) && shift <= 64 && w < |workers|
    requires Separate(workers) && AllWorking(o, workers, deques, shift) && Seen(workers, holds)
    requires holds[w].consumed ==> holds[w].partition < shared.partition
    requires Grown(workers, logs) && Inside(workers, region)
    modifies shared, workers[w].Objects()
    ensures (old(AllSafe(workers)) ==> ok && AllSafe(workers)) && (ok <==> workers[w].Ran()) && Grown(workers, logs)
    ensures AllExact(workers) ==> old(AllExact(workers))
    ensures Inside(workers, region + {workers[w].ht.dir}) && (workers[w].ht.dir in region || fresh(workers[w].ht.dir))
    ensures ok ==>
      && Separate(workers) && AllWorking(o, workers, deques, shift)
      && Seen(workers, holds[w := HoldOf(workers[w])]) && workers[w].consumed
      && workers[w].partition < shared.partition
      && workers[w].o == o && workers[w].Moved(shared, deques, shift, batch)
  {
    hide HashGroup.Working, HashGroup.Own, HashGroup.Moved, HashGroup.Safe, HashGroup.Exact, HashGroup.Ran,
      AllWorking, Apart, Held, DirsOf;
    forall v: nat | v < |workers| ensures workers[v].o == o && workers[v].Working(deques, shift) {
      SizedLikeDeques(o, workers, deques, shift, v);
    }
    forall v: nat | v < |workers|
      ensures shared !in workers[v].Objects() && forall x :: x in workers[v].Objects() ==> allocated(x) {
      workers[v].SharedIsNotOurs(shared);
    }
    forall v: nat | v < |workers| && v != w ensures workers[v].Objects() !! workers[w].Objects() {
      NothingShared(workers, v, w);
    }
    ghost var dirs := DirsOf(workers);
    ok, batch := workers[w].Step(shared, deques, shift);
    ghost var d := workers[w].ht.dir;
    forall v: nat | v < |workers| && v != w ensures d == dirs[w] || (d !in workers[v].Own() && d != dirs[v]) {
      if fresh(d) { workers[v].NewIsNotOwn(d); }
    }
    assert DirsOf(workers) == dirs[w := d];
    StillApart(workers, dirs, w, d);
    StillHeld(workers, dirs, w, d, region);
    if !ok { return; }
    forall v: nat | v < |workers| ensures workers[v].o == o && workers[v].Working(deques, shift) { }
    AllAreWorking(o, workers, deques, shift);
  }

  /** One turn of worker w keeps what holds of all of them. */
  method Turn<K(==, !new), V(!new)>(ghost o: Ops<Key<K>, V>, workers: seq<HashGroup<K, V>>, shared: Shared,
                                   deques: seq<Deque<Key<K>, V>>, ghost shift: nat, w: nat,
                                   ghost holds: seq<Hold<Key<K>, V>>, ghost owner: seq<nat>,
                                   ghost outs: seq<seq<Row<Key<K>, V>>>, ghost result: seq<Row<Key<K>, V>>,
                                   ghost logs: seq<seq<Call<K, V>>>, ghost region: set<object>)
    returns (ok: bool, batch: seq<Row<Key<K>, V>>, ghost holds': seq<Hold<Key<K>, V>>, ghost owner': seq<nat>,
             ghost outs': seq<seq<Row<Key<K>, V>>>)
    requires Commutes(o) && AllPlaced(o, deques, shift) && shift <= 64 && w < |workers|
    requires Separate(workers) && AllWorking(o, workers, deques, shift) && Seen(workers, holds)
    requires Counted(holds, shared.partition) && |outs| == Pow2(64 - shift)
    requires AllExact(workers) ==>
      Taken(o, deques, shift, shared.partition, holds, owner, outs) && Delivered(o, deques, shift, outs, result)
    requires Grown(workers, logs) && Inside(workers, region)
    modifies shared, workers[w].Objects()
    ensures (old(AllSafe(workers)) ==> ok && AllSafe(workers)) && (ok <==> workers[w].Ran()) && Grown(workers, logs)
    ensures AllExact(workers) ==> old(AllExact(workers))
    ensures Inside(workers, region + {workers[w].ht.dir}) && (workers[w].ht.dir in region || fresh(workers[w].ht.dir))
    ensures ok ==>
      && Separate(workers) && AllWorking(o, workers, deques, shift) && Seen(workers, holds')
      && Counted(holds', shared.partition) && |outs'| == |outs|
    ensures ok && AllExact(workers) ==>
      && Taken(o, deques, shift, shared.partition, holds', owner', outs')
      && Delivered(o, deques, shift, outs', result + batch)
  {
    hide Commutes, Sum, DequeRows, Column, Pow2, Taken, Delivered, HashGroup.Working, SameTotals, HandedOf,
      HashGroup.Own, Separate, AllWorking, AllSafe, HashGroup.Exact, HashGroup.Ran;
    ghost var next, h := shared.partition, holds[w];
    ok, batch := TurnAlone(o, workers, shared, deques, shift, w, holds, logs, region);
    holds', owner', outs' := holds[w := HoldOf(workers[w])], owner, outs;
    if !ok { return; }
    if batch != [] {
      outs' := outs[h.partition := h.handed + batch];
    } else if !(h.consumed && h.partition >= |outs|) {
      owner' := owner + [w];
    }
    if AllExact(workers) {
      assert workers[w].Exact() && old(AllExact(workers));
      TurnKeeps(o, deques, shift, next, holds, owner, outs, result, w, HoldOf(workers[w]), batch);
    }
  }

  /** What a turn does to the protocol of the second phase. */
  lemma TurnKeeps<K(!new), V(!new)>(o: Ops<K, V>, deques: seq<Deque<K, V>>, shift: nat, next: nat,
                                    holds: seq<Hold<K, V>>, owner: seq<nat>, outs: seq<seq<Row<K, V>>>,
                                    result: seq<Row<K, V>>, w: nat, now: Hold<K, V>, batch: seq<Row<K, V>>)
    requires Commutes(o) && AllPlaced(o, deques, shift) && shift <= 64 && w < |holds| && |outs| == Pow2(64 - shift)
    requires Taken(o, deques, shift, next, holds, owner, outs) && Delivered(o, deques, shift, outs, result)
    requires batch != [] ==>
      && holds[w].consumed && holds[w].partition < |outs| && HandedOf(o, deques, shift, now.partition, now.handed)
      && now == holds[w].(handed := holds[w].handed + batch)
    requires batch == [] && holds[w].consumed && holds[w].partition >= |outs| ==> now == holds[w]
    requires batch == [] && !(holds[w].consumed && holds[w].partition >= |outs|) ==>
      && now == Hold(true, next, [])
      && (holds[w].consumed ==> SameTotals(o, holds[w].handed, Column(o, deques, shift, holds[w].partition)))
    ensures
      var idle := batch == [] && holds[w].consumed && holds[w].partition >= |outs|;
      var taken := batch == [] && !idle;
      && Taken(o, deques, shift, if taken then next + 1 else next, holds[w := now],
               if taken then owner + [w] else owner,
               if batch != [] then outs[holds[w].partition := holds[w].handed + batch] else outs)
      && Delivered(o, deques, shift,
                   if batch != [] then outs[holds[w].partition := holds[w].handed + batch] else outs, result + batch)
  {
    hide Commutes, Sum, DequeRows, Column, Pow2, Taken, Delivered, SameTotals, HandedOf;
    var h := holds[w];
    HoldBounds(o, deques, shift, next, holds, owner, outs, w);
    assert result + [] == result;
    if batch != [] {
      HandOutKeeps(o, deques, shift, next, holds, owner, outs, w, h.handed + batch);
      DeliverMore(o, deques, shift, outs, result, h.partition, batch);
    } else if h.consumed && h.partition >= |outs| {
      assert holds[w := now] == holds;
    } else {
      if h.consumed {
        TotalsComplete(o, h.handed, Column(o, deques, shift, h.partition));
      }
      TakeKeeps(o, deques, shift, next, holds, owner, outs, w);
    }
  }

  /** Every worker has seen the end. */
  ghost predicate AllPast<K(!new), V(!new)>(workers: seq<HashGroup<K, V>>, partitions: nat)
    reads workers
  {
    forall w: nat :: w < |workers| ==> workers[w].consumed && workers[w].partition >= partitions
  }

  /** Phase 2 under any schedule of the workers' turns: at any time each key has been delivered at
      most once, with its final value, and when every worker has seen the end, all of them have. That
      takes that every lookup has listed the tuples without a group and no others. */
  method RunWorkers<K(==, !new), V(!new)>(ghost o: Ops<Key<K>, V>, workers: seq<HashGroup<K, V>>, shared: Shared,
                                         deques: seq<Deque<Key<K>, V>>, ghost shift: nat, schedule: seq<nat>,
                                         ghost region: set<object>, ghost logs: seq<seq<Call<K, V>>>)
    returns (ok: bool, result: seq<Row<Key<K>, V>>)
    requires Commutes(o) && AllPlaced(o, deques, shift) && shift <= 64 && shared.partition == 0 && workers != []
    requires Separate(workers) && AllWorking(o, workers, deques, shift)
    requires forall w: nat :: w < |workers| ==> !workers[w].consumed
    requires forall i :: 0 <= i < |schedule| ==> schedule[i] < |workers|
    requires Inside(workers, region) && Grown(workers, logs)
    modifies shared, region
    ensures (ok <==> AllRan(workers)) && Grown(workers, logs) && (old(AllSafe(workers)) ==> ok && AllExact(workers))
    ensures ok ==> AllWorking(o, workers, deques, shift)
    ensures AllExact(workers) ==> Distinct(result) && Final(o, DequeRows(deques), result)
    ensures ok && AllExact(workers) && AllPast(workers, Pow2(64 - shift)) ==> SameTotals(o, result, DequeRows(deques))
  {
    hide Commutes, Sum, DequeRows, Column, Pow2, Taken, Delivered, Distinct, Final, HashGroup.Working, SameTotals,
      HashGroup.Own, HashGroup.Objects, Inside, Grown, Separate, AllWorking, AllSafe, HashGroup.Exact, HashGroup.Ran;
    ok, result := true, [];
    ghost var holds, owner: seq<nat> := HoldsOf(workers), [];
    ghost var outs: seq<seq<Row<Key<K>, V>>> := seq(Pow2(64 - shift), _ => []);
    NothingTaken(o, deques, shift, holds, outs);
    ghost var mine: set<object> := region;
    var i := 0;
    while i < |schedule|
      invariant i <= |schedule|
      invariant Separate(workers) && AllWorking(o, workers, deques, shift) && Seen(workers, holds)
      invariant Inside(workers, mine) && forall x :: x in mine ==> x in region || fresh(x)
      invariant ok && (old(AllSafe(workers)) ==> AllSafe(workers)) && Grown(workers, logs)
      invariant Counted(holds, shared.partition) && |outs| == Pow2(64 - shift)
      invariant AllExact(workers) ==>
        Taken(o, deques, shift, shared.partition, holds, owner, outs) && Delivered(o, deques, shift, outs, result)
    {
      var w := schedule[i];
      var batch;
      if AllExact(workers) { DeliveredFacts(o, deques, shift, outs, result); }
      MayTurn(workers, w, mine);
      ok, batch, holds, owner, outs := Turn(o, workers, shared, deques, shift, w, holds, owner, outs, result, logs,
                                             mine);
      if !ok { return; }
      mine := mine + {workers[w].ht.dir};
      result := result + batch;
      i := i + 1;
    }
    WorkingRan(o, workers, deques, shift);
    if AllSafe(workers) { SafeIsExact(workers); }
    if AllExact(workers) {
      DeliveredFacts(o, deques, shift, outs, result);
      if AllPast(workers, Pow2(64 - shift)) {
        assert forall w: nat :: w < |holds| ==> holds[w] == HoldOf(workers[w]);
        AllDelivered(o, deques, shift, shared.partition, holds, owner, outs, result);
      }
    }
  }

  /** A new worker shares no objects with the others. */
  lemma OneMore<K(!new), V(!new)>(workers: seq<HashGroup<K, V>>, worker: HashGroup<K, V>, region: set<object>)
    requires Separate(workers) && Inside(workers, region) && worker.Objects() !! region
    ensures Separate(workers + [worker]) && Inside(workers + [worker], region + worker.Objects())
  {
    hide HashGroup.Own;
    var more := workers + [worker];
    assert more[..|workers|] == workers;
    assert worker.Own() <= worker.Objects() && worker.ht.dir in worker.Objects();
  }

  /** A worker with its first phase behind it. */
  method NewWorker<K(==, !new), V(!new)>(o: Ops<Key<K>, V>, nrKeys: nat, vecSize: nat, nrThreads: nat,
                                        vectors: seq<Vector<K, V>>, ghost all: seq<Row<Key<K>, V>>)
    returns (ok: bool, worker: HashGroup<K, V>)
    requires Commutes(o) && Shaped(nrKeys, all)
    requires 0 < vecSize < EMPTY && 0 < nrThreads * 4 < WORD_SIZE
    requires AreVectors(o, nrKeys, vecSize, vectors)
    requires forall i :: 0 <= i < |vectors| ==> Known(all, RowsOfVector(o, vectors[i]))
    ensures worker.o == o && worker.vecSize == vecSize && worker.all == all && fresh(worker.Objects())
    ensures OfVectors(worker.calls, vectors) && (ok ==> |worker.calls| == |vectors|)
    ensures (ok <==> worker.Ran()) && (Harmless(o, nrKeys, vecSize, all, 179) ==> ok && worker.Safe())
    ensures ok ==>
      && worker.Waiting() && TwoPhase.Placed(o, worker.spill) && Known(all, Join(worker.spill.partitions))
      && worker.spill.shift == PostConstruct<Row<Key<K>, V>>(nrThreads * 4).shift
      && (worker.Exact() ==> SameTotals(o, Join(worker.spill.partitions), RowsOfVectors(o, vectors)))
  {
    hide Commutes, Harmless, Shaped, SameTotals, Sum, Join, HashGroup.Ready, IsVector, Known, KeySet,
      TwoPhase.Placed, RowsOfVectors, HashGroup.Safe, HashGroup.Exact, HashGroup.Ran;
    worker := new HashGroup(o, nrKeys, vecSize, nrThreads, all);
    NothingSpilled(o, nrThreads * 4);
    TotalsSame<Key<K>, V>(o, []);
    NothingKnown(o, all);
    assert worker.ht.rows + Join(worker.spill.partitions) == [];
    ok := worker.PreAggregate(vectors);
  }

  ghost predicate AllWaiting<K(!new), V(!new)>(o: Ops<Key<K>, V>, workers: seq<HashGroup<K, V>>,
                                              deques: seq<Deque<Key<K>, V>>, shift: nat, all: seq<Row<Key<K>, V>>)
    reads set w | w in workers :: w.ht, set w, x | w in workers && x in w.Objects() :: x
  {
    && |workers| == |deques|
    && forall w: nat :: w < |workers| ==>
         workers[w].o == o && workers[w].all == all && workers[w].Waiting() && workers[w].spill == deques[w]
  }

  /** The barrier: every deque is complete, and the second phase may begin. */
  lemma WaitingWorks<K(!new), V(!new)>(o: Ops<Key<K>, V>, workers: seq<HashGroup<K, V>>, deques: seq<Deque<Key<K>, V>>,
                                      shift: nat, all: seq<Row<Key<K>, V>>)
    requires AllWaiting(o, workers, deques, shift, all) && AllPlaced(o, deques, shift) && shift <= 64
    requires Known(all, DequeRows(deques))
    ensures AllWorking(o, workers, deques, shift) && forall w: nat :: w < |workers| ==> !workers[w].consumed
  {
    hide Sum, DequeRows, HashGroup.Ready, Column, Known;
    forall w: nat | w < |workers| ensures workers[w].Working(deques, shift) {
      assert TwoPhase.Placed(o, deques[w]);
    }
  }

  /** Every worker has begun with its own vectors, and whoever has come through has met them all. */
  ghost predicate Begun<K(!new), V(!new)>(workers: seq<HashGroup<K, V>>, vecSize: nat, inputs: seq<seq<Vector<K, V>>>,
                                         ok: bool)
    reads workers
  {
    && |workers| <= |inputs|
    && forall w: nat :: w < |workers| ==>
         && workers[w].vecSize == vecSize && OfVectors(workers[w].calls, inputs[w])
         && (ok ==> |workers[w].calls| == |inputs[w]|)
  }

  lemma KnownMore<K(!new), V>(all: seq<Row<K, V>>, deques: seq<Deque<K, V>>, d: Deque<K, V>)
    requires Known(all, DequeRows(deques)) && Known(all, Join(d.partitions))
    ensures Known(all, DequeRows(deques + [d]))
  {
    hide Join;
    assert (deques + [d])[..|deques|] == deques;
    forall k | Has(DequeRows(deques + [d]), k) ensures Has(all, k) {
      HasConcat(DequeRows(deques), Join(d.partitions), k);
    }
  }

  lemma WaitingMore<K(!new), V(!new)>(o: Ops<Key<K>, V>, workers: seq<HashGroup<K, V>>, worker: HashGroup<K, V>,
                                     deques: seq<Deque<Key<K>, V>>, shift: nat, all: seq<Row<Key<K>, V>>)
    requires AllWaiting(o, workers, deques, shift, all)
    requires worker.o == o && worker.all == all && worker.Waiting()
    ensures AllWaiting(o, workers + [worker], deques + [worker.spill], shift, all)
  {
    hide HashGroup.Waiting;
  }

  lemma RecordMore<K(!new), V(!new)>(workers: seq<HashGroup<K, V>>, worker: HashGroup<K, V>, vecSize: nat,
                                    inputs: seq<seq<Vector<K, V>>>, ok: bool)
    requires Begun(workers, vecSize, inputs, true) && |workers| < |inputs|
    requires worker.vecSize == vecSize && OfVectors(worker.calls, inputs[|workers|])
    requires ok ==> |worker.calls| == |inputs[|workers|]|
    ensures Begun(workers + [worker], vecSize, inputs, ok)
    ensures AllRan(workers + [worker]) <==> AllRan(workers) && worker.Ran()
    ensures AllExact(workers + [worker]) <==> AllExact(workers) && worker.Exact()
    ensures AllSafe(workers + [worker]) <==> AllSafe(workers) && worker.Safe()
  {
    hide HashGroup.Ran, HashGroup.Exact, HashGroup.Safe;
    var more := workers + [worker];
    assert more[|workers|] == worker && forall w: nat :: w < |workers| ==> more[w] == workers[w];
  }

  /** The first phase of all workers. They share nothing, so that their order does not matter. */
  method Phase1<K(==, !new), V(!new)>(o: Ops<Key<K>, V>, nrKeys: nat, vecSize: nat, inputs: seq<seq<Vector<K, V>>>)
    returns (ok: bool, workers: seq<HashGroup<K, V>>, deques: seq<Deque<Key<K>, V>>, ghost shift: nat,
             ghost region: set<object>)
    requires Commutes(o)
    requires 0 < vecSize < EMPTY && 0 < |inputs| * 4 < WORD_SIZE
    requires forall w :: 0 <= w < |inputs| ==> AreVectors(o, nrKeys, vecSize, inputs[w])
    ensures Begun(workers, vecSize, inputs, ok) && (ok <==> AllRan(workers))
    ensures Harmless(o, nrKeys, vecSize, AllTuples(o, inputs), 179) ==> ok && AllSafe(workers)
    ensures ok ==>
      && |workers| == |inputs| && Separate(workers) && AllWaiting(o, workers, deques, shift, AllTuples(o, inputs))
      && fresh(region) && Inside(workers, region)
      && AllPlaced(o, deques, shift) && shift <= 64 && Known(AllTuples(o, inputs), DequeRows(deques))
      && (AllExact(workers) ==> SameTotals(o, DequeRows(deques), AllTuples(o, inputs)))
  {
    hide Commutes, Harmless, Shaped, SameTotals, Sum, Join, HashGroup.Waiting, HashGroup.Own, AreVectors, Known,
      KeySet, TwoPhase.Placed, DequeRows, AllTuples, HashGroup.Safe, HashGroup.Exact, HashGroup.Ran, Separate, Inside,
      Begun, AllExact, AllSafe, AllRan;
    ghost var all := AllTuples(o, inputs);
    TuplesShaped(o, nrKeys, vecSize, inputs);
    shift := PostConstruct<Row<Key<K>, V>>(|inputs| * 4).shift;
    workers, deques, region := [], [], {};
    NobodyYet(o, all, shift, vecSize, inputs);
    var w := 0;
    while w < |inputs|
      invariant w <= |inputs| && |workers| == |deques| == w
      invariant Separate(workers) && AllWaiting(o, workers, deques, shift, all)
      invariant fresh(region) && Inside(workers, region)
      invariant AllPlaced(o, deques, shift) && Known(all, DequeRows(deques))
      invariant AllExact(workers) ==> SameTotals(o, DequeRows(deques), AllTuples(o, inputs[..w]))
      invariant (Harmless(o, nrKeys, vecSize, all, 179) ==> AllSafe(workers)) && AllRan(workers)
      invariant Begun(workers, vecSize, inputs, true)
    {
      VectorsKnown(o, inputs, w);
      forall v: nat | v < |workers| ensures forall x :: x in workers[v].Objects() ==> allocated(x) {
        workers[v].OursAreThere();
      }
      var worker;
      ok, worker := NewWorker(o, nrKeys, vecSize, |inputs|, inputs[w], all);
      RecordMore(workers, worker, vecSize, inputs, ok);
      if !ok {
        workers := workers + [worker];
        return;
      }
      WaitingMore(o, workers, worker, deques, shift, all);
      OneMore(workers, worker, region);
      KnownMore(all, deques, worker.spill);
      if AllExact(workers) && worker.Exact() { TuplesMore(o, inputs, w, deques, worker.spill); }
      workers, deques, region := workers + [worker], deques + [worker.spill], region + worker.Objects();
      w := w + 1;
    }
    assert inputs[..w] == inputs;
    ok := true;
  }

  lemma NobodyYet<K(!new), V(!new)>(o: Ops<Key<K>, V>, all: seq<Row<Key<K>, V>>, shift: nat, vecSize: nat,
                                   inputs: seq<seq<Vector<K, V>>>)
    ensures Separate<K, V>([]) && Inside<K, V>([], {}) && AllWaiting<K, V>(o, [], [], shift, all)
    ensures Known(all, DequeRows([])) && SameTotals(o, DequeRows([]), AllTuples(o, []))
    ensures Begun([], vecSize, inputs, true) && AllRan<K, V>([]) && AllExact<K, V>([]) && AllSafe<K, V>([])
  {
    NoTuples(o);
  }

  ghost function LogsOf<K(!new), V(!new)>(workers: seq<HashGroup<K, V>>): (logs: seq<seq<Call<K, V>>>)
    reads workers
    ensures Grown(workers, logs) && AreLogs(workers, logs)
  {
    if workers == [] then [] else LogsOf(workers[..|workers| - 1]) + [workers[|workers| - 1].calls]
  }

  ghost predicate LogsRight<K, V>(logs: seq<seq<Call<K, V>>>) {
    forall w :: 0 <= w < |logs| ==> AllRight(logs[w])
  }

  ghost predicate LogsSound<K, V>(logs: seq<seq<Call<K, V>>>) {
    forall w :: 0 <= w < |logs| ==> AllSound(logs[w])
  }

  ghost predicate LogsRun<K, V>(logs: seq<seq<Call<K, V>>>, room: nat) {
    forall w :: 0 <= w < |logs| ==> AllRun(logs[w], room)
  }

  /** The first calls of every worker are for the vectors of its input; for all of them, if it has come through. */
  ghost predicate LogsOfInputs<K, V>(logs: seq<seq<Call<K, V>>>, inputs: seq<seq<Vector<K, V>>>, ok: bool) {
    && |logs| <= |inputs| && (ok ==> |logs| == |inputs|)
    && forall w :: 0 <= w < |logs| ==> OfVectors(logs[w], inputs[w]) && (ok ==> |inputs[w]| <= |logs[w]|)
  }

  ghost predicate AreLogs<K(!new), V(!new)>(workers: seq<HashGroup<K, V>>, logs: seq<seq<Call<K, V>>>)
    reads workers
  {
    |logs| == |workers| && forall w: nat :: w < |workers| ==> logs[w] == workers[w].calls
  }

  lemma ExactLogs<K(!new), V(!new)>(workers: seq<HashGroup<K, V>>, logs: seq<seq<Call<K, V>>>)
    requires AreLogs(workers, logs)
    ensures AllExact(workers) <==> LogsRight(logs)
  {
    hide AllRight;
    if AllExact(workers) {
      forall w: nat | w < |logs| ensures AllRight(logs[w]) { assert workers[w].Exact(); }
    }
  }

  lemma ToldLogs<K(!new), V(!new)>(workers: seq<HashGroup<K, V>>, logs: seq<seq<Call<K, V>>>)
    requires AllTold(workers) && AreLogs(workers, logs)
    ensures LogsRight(logs) <==> LogsSound(logs)
  {
    hide AllRight, AllSound;
    forall w: nat | w < |logs| ensures AllRight(logs[w]) <==> AllSound(logs[w]) { assert workers[w].Told(); }
  }

  lemma RanLogs<K(!new), V(!new)>(workers: seq<HashGroup<K, V>>, logs: seq<seq<Call<K, V>>>, vecSize: nat)
    requires AreLogs(workers, logs) && forall w: nat :: w < |workers| ==> workers[w].vecSize == vecSize
    ensures AllRan(workers) <==> LogsRun(logs, vecSize)
  {
    hide AllRun;
    if AllRan(workers) {
      forall w: nat | w < |logs| ensures AllRun(logs[w], vecSize) { assert workers[w].Ran(); }
    }
  }

  /** Whether all workers have seen the end. */
  method SeenTheEnd<K(==, !new), V(!new)>(ghost o: Ops<Key<K>, V>, workers: seq<HashGroup<K, V>>,
                                         ghost deques: seq<Deque<Key<K>, V>>, ghost shift: nat)
    returns (finished: bool)
    requires AllPlaced(o, deques, shift) && shift <= 64 && AllWorking(o, workers, deques, shift)
    ensures finished <==> AllPast(workers, Pow2(64 - shift))
  {
    hide HashGroup.Working, Pow2, AllWorking;
    forall w: nat | w < |workers| ensures |workers[w].spill.partitions| == Pow2(64 - shift) {
      SizedLikeDeques(o, workers, deques, shift, w);
    }
    finished := true;
    var w := 0;
    while w < |workers|
      invariant w <= |workers|
      invariant finished <==> forall v: nat :: v < w ==> workers[v].consumed && workers[v].partition >= Pow2(64 - shift)
    {
      finished := finished && workers[w].consumed && workers[w].partition >= |workers[w].spill.partitions|;
      w := w + 1;
    }
  }

  lemma StillExact<K(!new), V(!new)>(workers: seq<HashGroup<K, V>>, begun: seq<seq<Call<K, V>>>,
                                    logs: seq<seq<Call<K, V>>>)
    requires Grown(workers, begun) && AreLogs(workers, logs) && LogsRight(logs)
    ensures LogsRight(begun)
  {
    hide Right;
    forall w: nat, i: nat | w < |logs| && i < |begun[w]| ensures Right(begun[w][i]) {
      assert begun[w][i] == logs[w][i];
    }
  }

  lemma BegunLogs<K(!new), V(!new)>(workers: seq<HashGroup<K, V>>, logs: seq<seq<Call<K, V>>>, vecSize: nat,
                                   inputs: seq<seq<Vector<K, V>>>, ok: bool)
    requires Begun(workers, vecSize, inputs, ok) && AreLogs(workers, logs) && (ok ==> |workers| == |inputs|)
    ensures LogsOfInputs(logs, inputs, ok) && forall w: nat :: w < |workers| ==> workers[w].vecSize == vecSize
  {
    hide OfVectors;
  }

  lemma StillOfInputs<K(!new), V(!new)>(workers: seq<HashGroup<K, V>>, begun: seq<seq<Call<K, V>>>,
                                       logs: seq<seq<Call<K, V>>>, inputs: seq<seq<Vector<K, V>>>)
    requires Grown(workers, begun) && AreLogs(workers, logs) && LogsOfInputs(begun, inputs, true)
    ensures LogsOfInputs(logs, inputs, true)
  {
    forall w: nat | w < |logs| ensures OfVectors(logs[w], inputs[w]) {
      forall i: nat | i < |logs[w]| && i < |inputs[w]| ensures logs[w][i].v == inputs[w][i] {
        assert begun[w][i] == logs[w][i];
      }
    }
  }

  lemma NothingFinal<K(!new), V>(o: Ops<K, V>, all: seq<Row<K, V>>)
    ensures Distinct<K, V>([]) && Final(o, all, [])
  {
  }

  lemma OfInputsAtLeast<K, V>(logs: seq<seq<Call<K, V>>>, inputs: seq<seq<Vector<K, V>>>, ok: bool)
    requires LogsOfInputs(logs, inputs, true)
    ensures LogsOfInputs(logs, inputs, ok)
  {
    hide OfVectors;
  }

  lemma KeysOfResult<K(!new), V>(o: Ops<Key<K>, V>, inputs: seq<seq<Vector<K, V>>>, result: seq<Row<Key<K>, V>>)
    requires SameTotals(o, result, AllTuples(o, inputs))
    ensures forall k :: Has(result, k) <==> Occurs(inputs, k)
  {
    hide Occurs;
    forall k ensures Has(result, k) <==> Occurs(inputs, k) { KeysOccur(o, inputs, k); }
  }

  /** The second phase of all workers, from the barrier on. */
  method Phase2<K(==, !new), V(!new)>(ghost o: Ops<Key<K>, V>, workers: seq<HashGroup<K, V>>,
                                     deques: seq<Deque<Key<K>, V>>, ghost shift: nat, schedule: seq<nat>,
                                     ghost region: set<object>, ghost all: seq<Row<Key<K>, V>>,
                                     ghost logs: seq<seq<Call<K, V>>>)
    returns (ok: bool, result: seq<Row<Key<K>, V>>, finished: bool)
    requires Commutes(o) && AllPlaced(o, deques, shift) && shift <= 64 && workers != []
    requires Separate(workers) && AllWaiting(o, workers, deques, shift, all) && Inside(workers, region)
    requires Known(all, DequeRows(deques)) && (AllExact(workers) ==> SameTotals(o, DequeRows(deques), all))
    requires forall i :: 0 <= i < |schedule| ==> schedule[i] < |workers|
    requires Grown(workers, logs) && AreLogs(workers, logs)
    modifies region
    ensures (ok <==> AllRan(workers)) && Grown(workers, logs) && (finished ==> ok) && (ok ==> AllTold(workers))
    ensures old(AllSafe(workers)) ==> ok && AllExact(workers)
    ensures AllExact(workers) ==>
      Distinct(result) && Final(o, all, result) && (finished ==> SameTotals(o, result, all))
  {
    hide Commutes, SameTotals, Sum, DequeRows, Inside, HashGroup.Working, HashGroup.Waiting, HashGroup.Own, Distinct,
      Final, AllSafe, AllRight, Known, Separate, AllWorking, AllExact, AllRan, AllTold, AllPast, Pow2;
    forall v: nat | v < |workers| ensures forall x :: x in workers[v].Objects() ==> allocated(x) {
      workers[v].OursAreThere();
    }
    var shared := new Shared();
    WaitingWorks(o, workers, deques, shift, all);
    ExactLogs(workers, logs);
    ok, result := RunWorkers(o, workers, shared, deques, shift, schedule, region, logs);
    finished := false;
    if AllExact(workers) {
      ExactLogs(workers, LogsOf(workers));
      StillExact(workers, logs, LogsOf(workers));
      FinalSame(o, DequeRows(deques), all, result);
    }
    if !ok { return; }
    WorkingRan(o, workers, deques, shift);
    finished := SeenTheEnd(o, workers, deques, shift);
    if finished && AllExact(workers) { TotalsChain(o, result, DequeRows(deques), all); }
  }

  /** HashGroup on any number of workers, under any schedule of their turns in the second phase. `logs`
      tells what every vector of every worker met in the tables, those of its input first. The run ends
      early exactly if one of them overran the buffer or divided the partitioning. Every lookup listed the
      tuples without a group and no others exactly if every vector left its tuples at the groups of their
      keys, and no key with two. Then no key is delivered twice, every group delivered has its final value,
      and when all workers have seen the end, the result is group-by. If no two keys share a hash, that is so
      with one key column, small vectors or few keys. */
  method GroupAll<K(==, !new), V(!new)>(o: Ops<Key<K>, V>, nrKeys: nat, vecSize: nat, inputs: seq<seq<Vector<K, V>>>,
                                       schedule: seq<nat>)
    returns (ok: bool, result: seq<Row<Key<K>, V>>, finished: bool, ghost logs: seq<seq<Call<K, V>>>)
    requires Commutes(o)
    requires 0 < vecSize < EMPTY && 0 < |inputs| * 4 < WORD_SIZE
    requires forall w :: 0 <= w < |inputs| ==> AreVectors(o, nrKeys, vecSize, inputs[w])
    requires forall i :: 0 <= i < |schedule| ==> schedule[i] < |inputs|
    ensures LogsOfInputs(logs, inputs, ok) && (ok <==> LogsRun(logs, vecSize)) && (finished ==> ok)
    ensures ok ==> (LogsRight(logs) <==> LogsSound(logs))
    ensures LogsRight(logs) ==>
      && Distinct(result) && Final(o, AllTuples(o, inputs), result)
      && (finished ==> SameTotals(o, result, AllTuples(o, inputs)) && forall k :: Has(result, k) <==> Occurs(inputs, k))
    ensures Harmless(o, nrKeys, vecSize, AllTuples(o, inputs), 179) ==> ok && LogsRight(logs)
  {
    hide Commutes, Harmless, SameTotals, Sum, AreVectors, KeySet, TwoPhase.Placed, DequeRows, AllTuples, Inside,
      HashGroup.Working, HashGroup.Waiting, HashGroup.Own, Distinct, Final, AllSafe, Known, Separate, Begun,
      AllWaiting, AllExact, AllRan, AllTold, LogsRight, LogsSound, LogsRun, LogsOfInputs, Pow2, Occurs;
    var workers, deques;
    ghost var shift, region;
    ok, workers, deques, shift, region := Phase1(o, nrKeys, vecSize, inputs);
    ghost var all := AllTuples(o, inputs);
    logs, result, finished := LogsOf(workers), [], false;
    NothingFinal(o, all);
    BegunLogs(workers, logs, vecSize, inputs, ok);
    ExactLogs(workers, logs);
    RanLogs(workers, logs, vecSize);
    if AllSafe(workers) { SafeIsExact(workers); }
    if !ok { return; }
    ghost var begun := logs;
    ok, result, finished := Phase2(o, workers, deques, shift, schedule, region, all, begun);
    logs := LogsOf(workers);
    ExactLogs(workers, logs);
    RanLogs(workers, logs, vecSize);
    StillOfInputs(workers, begun, logs, inputs);
    OfInputsAtLeast(logs, inputs, ok);
    if ok { ToldLogs(workers, logs); }
    if finished && AllExact(workers) { KeysOfResult(o, inputs, result); }
  }
}
