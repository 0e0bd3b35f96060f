/** GroupBy: every thread aggregates what it consumes in a table of bounded size, spilling the
    table's groups into deques partitioned by hash; then each partition is aggregated again. */
module TwoPhase {
  import opened Bits
  import opened SlotChains
  import opened Folds
  import opened GroupTables
  import opened Deques

  type Deque<K, V> = PartitionedDeque<Row<K, V>>

  /** Every spilled group is in the partition of its hash. */
  ghost predicate Placed<K, V>(o: Ops<K, V>, d: Deque<K, V>) {
    && d.Valid()
    && (forall p :: 0 <= p < |d.partitions| ==> InPartition(o, d, p, d.partitions[p]))
  }

  lemma PlacedValid<K, V>(o: Ops<K, V>, d: Deque<K, V>)
    requires Placed(o, d)
    ensures d.Valid()
  {
  }

  ghost predicate InPartition<K, V>(o: Ops<K, V>, d: Deque<K, V>, p: nat, rows: seq<Row<K, V>>)
    requires d.Valid()
  {
    forall i :: 0 <= i < |rows| ==> rows[i].hash == o.hash(rows[i].k) && d.PartitionOf(rows[i].hash) == p
  }

  // ---------------------------------------------------------------- spilling

  lemma PushCounts<K(!new), V(!new)>(o: Ops<K, V>, d: Deque<K, V>, r: Row<K, V>)
    requires Commutes(o) && Placed(o, d) && r.hash == o.hash(r.k)
    ensures Placed(o, d.PushBack(r, r.hash))
    ensures SameTotals(o, Join(d.PushBack(r, r.hash).partitions), Join(d.partitions) + [r])
  {
    var p := d.PartitionOf(r.hash);
    var d' := d.PushBack(r, r.hash);
    forall q | 0 <= q < |d'.partitions| ensures InPartition(o, d', q, d'.partitions[q]) {
      assert InPartition(o, d, q, d.partitions[q]);
    }
    forall k
      ensures Sum(o, Join(d'.partitions), k) == Sum(o, Join(d.partitions) + [r], k)
      ensures Has(Join(d'.partitions), k) <==> Has(Join(d.partitions) + [r], k) {
      SumJoinPush(o, d.partitions, p, r, k);
      SumConcat(o, Join(d.partitions), [r], k);
      HasJoinPush(d.partitions, p, r, k);
    }
  }

  lemma HasJoinPush<K, V>(parts: seq<seq<Row<K, V>>>, p: nat, r: Row<K, V>, k: K)
    requires p < |parts|
    ensures Has(Join(parts[p := parts[p] + [r]]), k) <==> Has(Join(parts) + [r], k)
  {
    var parts' := parts[p := parts[p] + [r]];
    HasJoin(parts, k);
    HasJoin(parts', k);
    HasConcat(Join(parts), [r], k);
    HasConcat(parts[p], [r], k);
    SumOneHas(r, k);
    if q :| 0 <= q < |parts| && Has(parts[q], k) { assert Has(parts'[q], k); }
    if r.k == k { assert Has(parts'[p], k); }
    if q :| 0 <= q < |parts'| && Has(parts'[q], k) { assert q == p || Has(parts[q], k); }
  }

  lemma SumOneHas<K, V>(r: Row<K, V>, k: K)
    ensures Has([r], k) <==> r.k == k
  {
    assert [r][0].k == r.k;
  }

  lemma TotalsMore<K(!new), V(!new)>(o: Ops<K, V>, a: seq<Row<K, V>>, b: seq<Row<K, V>>, c: seq<Row<K, V>>)
    requires Commutes(o) && SameTotals(o, a, b)
    ensures SameTotals(o, a + c, b + c)
  {
    forall k
      ensures Sum(o, a + c, k) == Sum(o, b + c, k)
      ensures Has(a + c, k) <==> Has(b + c, k) {
      SumConcat(o, a, c, k);
      SumConcat(o, b, c, k);
      HasConcat(a, c, k);
      HasConcat(b, c, k);
    }
  }

  lemma TotalsSwap<K(!new), V(!new)>(o: Ops<K, V>, a: seq<Row<K, V>>, b: seq<Row<K, V>>)
    requires Commutes(o)
    ensures SameTotals(o, a + b, b + a)
  {
    forall k
      ensures Sum(o, a + b, k) == Sum(o, b + a, k)
      ensures Has(a + b, k) <==> Has(b + a, k) {
      SumConcat(o, a, b, k);
      SumConcat(o, b, a, k);
      HasConcat(a, b, k);
      HasConcat(b, a, k);
    }
  }

  /** spill(), and the loop of spillAll: every entry of a stack goes to a deque. */
  method Spill<K(!new), V(!new)>(ghost o: Ops<K, V>, entries: seq<Row<K, V>>, deque: Deque<K, V>)
    returns (d: Deque<K, V>)
    requires Commutes(o) && Placed(o, deque) && Hashed(o, entries)
    ensures Placed(o, d) && d.shift == deque.shift
    ensures SameTotals(o, Join(d.partitions), Join(deque.partitions) + entries)
  {
    hide Sum, Has, Commutes, Placed, SameTotals, Join;
    d := deque;
    var i := 0;
    ghost var before := Join(deque.partitions);
    assert before + entries[..0] == before;
    TotalsSame(o, before);
    while i < |entries|
      invariant i <= |entries| && Placed(o, d) && d.shift == deque.shift
      invariant SameTotals(o, Join(d.partitions), before + entries[..i])
    {
      ghost var was := d;
      PlacedValid(o, d);
      PushCounts(o, d, entries[i]);
      d := d.PushBack(entries[i], entries[i].hash);
      TotalsMore(o, Join(was.partitions), before + entries[..i], [entries[i]]);
      assert before + entries[..i] + [entries[i]] == before + entries[..i + 1];
      TotalsChain(o, Join(d.partitions), Join(was.partitions) + [entries[i]], before + entries[..i + 1]);
      i := i + 1;
    }
    assert entries[..i] == entries;
  }

  lemma TotalsSame<K(!new), V>(o: Ops<K, V>, a: seq<Row<K, V>>)
    ensures SameTotals(o, a, a)
  {
  }

  lemma TotalsChain<K(!new), V>(o: Ops<K, V>, a: seq<Row<K, V>>, b: seq<Row<K, V>>, c: seq<Row<K, V>>)
    requires SameTotals(o, a, b) && SameTotals(o, b, c)
    ensures SameTotals(o, a, c)
  {
  }

  // ---------------------------------------------------------- pre-aggregation

  /** The groups of a table: no key twice, hashes fit. */
  ghost predicate Groups<K, V>(o: Ops<K, V>, rows: seq<Row<K, V>>) {
    Hashed(o, rows) && Distinct(rows)
  }

  lemma GroupsHashed<K, V>(o: Ops<K, V>, rows: seq<Row<K, V>>)
    requires Groups(o, rows)
    ensures Hashed(o, rows)
  {
  }

  /** findOrCreate and update, on what the table holds. */
  function Absorb<K, V>(o: Ops<K, V>, rows: seq<Row<K, V>>, e: int, key: K, value: V): seq<Row<K, V>>
    requires NONE <= e < |rows|
  {
    if e == NONE then rows + [Row(o.hash(key), key, o.update(o.init, value))]
    else rows[e := rows[e].(v := o.update(rows[e].v, value))]
  }

  /** Either way it counts as one more row, and keys stay distinct. */
  lemma AbsorbCounts<K(!new), V(!new)>(o: Ops<K, V>, rows: seq<Row<K, V>>, e: int, key: K, value: V)
    requires Commutes(o) && Groups(o, rows) && NONE <= e < |rows|
    requires e != NONE ==> rows[e].k == key
    requires e == NONE ==> !Has(rows, key)
    ensures Groups(o, Absorb(o, rows, e, key, value))
    ensures SameTotals(o, Absorb(o, rows, e, key, value), rows + [Row(o.hash(key), key, value)])
  {
    var x := Row(o.hash(key), key, value);
    var out := Absorb(o, rows, e, key, value);
    forall i | 0 <= i < |out| ensures out[i].hash == o.hash(out[i].k) { }
    forall i, j | 0 <= i < j < |out| ensures out[i].k != out[j].k { }
    forall k
      ensures Sum(o, out, k) == Sum(o, rows + [x], k)
      ensures Has(out, k) <==> Has(rows + [x], k) {
      AbsorbAt(o, rows, e, key, value, k);
    }
  }

  lemma AbsorbAt<K, V(!new)>(o: Ops<K, V>, rows: seq<Row<K, V>>, e: int, key: K, value: V, k: K)
    requires Commutes(o) && NONE <= e < |rows|
    requires e != NONE ==> rows[e].k == key && rows[e].hash == o.hash(key)
    ensures var out, more := Absorb(o, rows, e, key, value), rows + [Row(o.hash(key), key, value)];
      Sum(o, out, k) == Sum(o, more, k) && (Has(out, k) <==> Has(more, k))
  {
    hide Sum;
    var x := Row(o.hash(key), key, value);
    SumConcat(o, rows, [x], k);
    HasConcat(rows, [x], k);
    SumOne(o, x, k);
    if e != NONE {
      UpdateCounts(o, rows, e, value, k);
      assert rows[e].(v := value) == x;
      assert x.k == k ==> Has(rows, k);
    } else {
      var y := Row(o.hash(key), key, o.update(o.init, value));
      SumConcat(o, rows, [y], k);
      HasConcat(rows, [y], k);
      SumOne(o, y, k);
      assert o.update(o.init, o.update(o.init, value)) == o.update(o.init, value);
    }
  }

  /** The state of one thread in the first phase. `consumed` records what it was given. */
  class Locals<K(==, !new), V(!new)> {
    const o: Ops<K, V>
    const groups: Hashmapx<K, V>
    var spillStorage: Deque<K, V>
    const maxFill: nat
    ghost var consumed: seq<Row<K, V>>

    /** Nothing is lost and nothing is counted twice: the table and the deque together hold the
        folds of what was consumed. The table holds no more than maxFill groups (or the one group it
        must have). */
    ghost predicate Valid()
      reads this, groups, groups.dir
    {
      && groups.Valid() && Groups(o, groups.rows) && Placed(o, spillStorage) && Commutes(o)
      && (|groups.rows| <= maxFill || |groups.rows| == 1)
      && SameTotals(o, groups.rows + Join(spillStorage.partitions), consumed)
    }

    constructor (o: Ops<K, V>, nrThreads: nat, tableSize: nat, maxFill: nat)
      requires Commutes(o) && tableSize > 0 && 0 < nrThreads * 4 < WORD_SIZE
      ensures Valid() && consumed == [] && fresh(groups) && fresh(groups.dir) && this.o == o
      ensures spillStorage == PostConstruct(nrThreads * 4) && groups.capacity > 1
    {
      this.o, this.maxFill, consumed := o, maxFill, [];
      groups := new Hashmapx(tableSize);
      spillStorage := PostConstruct(nrThreads * 4);
      new;
      NothingSpilled(o, nrThreads * 4);
      assert groups.rows + Join(spillStorage.partitions) == [];
    }

    /** The callback of findOrCreate: a full table is spilled and emptied. */
    method MakeRoom()
      requires Valid()
      modifies this`spillStorage, groups`rows, groups`next, groups`nrEntries, groups.dir
      ensures Valid() && (groups.rows == old(groups.rows) || groups.rows == [])
      ensures |groups.rows| < maxFill || groups.rows == []
      ensures spillStorage.shift == old(spillStorage.shift)
    {
      hide SameTotals, Placed, Commutes, Sum, Join, Hashmapx.Threaded;
      if groups.nrEntries >= maxFill {
        ghost var rows, parts := groups.rows, spillStorage.partitions;
        spillStorage := Spill(o, groups.rows, spillStorage);
        groups.Clear();
        TotalsSwap(o, Join(parts), rows);
        TotalsChain(o, Join(spillStorage.partitions), Join(parts) + rows, rows + Join(parts));
        TotalsChain(o, Join(spillStorage.partitions), rows + Join(parts), consumed);
        assert groups.rows + Join(spillStorage.partitions) == Join(spillStorage.partitions);
      }
    }

    /** consume(key, value). */
    method Consume(key: K, value: V)
      requires Valid()
      modifies this`spillStorage, this`consumed, groups`rows, groups`next, groups`nrEntries, groups.dir
      ensures Valid() && consumed == old(consumed) + [Row(o.hash(key), key, value)]
      ensures spillStorage.shift == old(spillStorage.shift)
    {
      hide SameTotals, Placed, Commutes, Sum, Join, Hashmapx.Threaded;
      var group := groups.FindOne(key, o.hash(key));
      if group == NONE {
        assert !Has(groups.rows, key);
        MakeRoom();
        assert !Has(groups.rows, key);
        ghost var rows := groups.rows;
        group := groups.Create(key, o.hash(key), o.init);
        groups.SetValue(group, o.update(groups.rows[group].v, value));
        assert groups.rows == Absorb(o, rows, NONE, key, value);
        Account(rows, NONE, key, value);
      } else {
        ghost var rows := groups.rows;
        groups.SetValue(group, o.update(groups.rows[group].v, value));
        assert groups.rows == Absorb(o, rows, group, key, value);
        Account(rows, group, key, value);
      }
      consumed := consumed + [Row(o.hash(key), key, value)];
    }

    lemma Account(rows: seq<Row<K, V>>, e: int, key: K, value: V)
      requires Commutes(o) && Groups(o, rows) && NONE <= e < |rows|
      requires e != NONE ==> rows[e].k == key
      requires e == NONE ==> !Has(rows, key)
      requires SameTotals(o, rows + Join(spillStorage.partitions), consumed)
      ensures Groups(o, Absorb(o, rows, e, key, value))
      ensures SameTotals(o, Absorb(o, rows, e, key, value) + Join(spillStorage.partitions),
                         consumed + [Row(o.hash(key), key, value)])
    {
      hide SameTotals, Commutes, Sum, Join, Absorb, Groups, Has;
      var spilled, x := Join(spillStorage.partitions), [Row(o.hash(key), key, value)];
      var out := Absorb(o, rows, e, key, value);
      AbsorbCounts(o, rows, e, key, value);
      TotalsMore(o, out, rows + x, spilled);
      TotalsMiddle(o, rows, x, spilled);
      TotalsChain(o, out + spilled, rows + x + spilled, rows + spilled + x);
      TotalsMore(o, rows + spilled, consumed, x);
      TotalsChain(o, out + spilled, rows + spilled + x, consumed + x);
    }
  }

  lemma TotalsMiddle<K(!new), V(!new)>(o: Ops<K, V>, a: seq<Row<K, V>>, b: seq<Row<K, V>>, c: seq<Row<K, V>>)
    requires Commutes(o)
    ensures SameTotals(o, a + b + c, a + c + b)
  {
    forall k
      ensures Sum(o, a + b + c, k) == Sum(o, a + c + b, k)
      ensures Has(a + b + c, k) <==> Has(a + c + b, k) {
      SumConcat(o, a + b, c, k);
      SumConcat(o, a, b, k);
      SumConcat(o, a + c, b, k);
      SumConcat(o, a, c, k);
      Swap(o, Sum(o, a, k), Sum(o, b, k), Sum(o, c, k));
      HasConcat(a + b, c, k);
      HasConcat(a, b, k);
      HasConcat(a + c, b, k);
      HasConcat(a, c, k);
    }
  }

  lemma NothingSpilled<K(!new), V>(o: Ops<K, V>, nrPartitions: nat)
    requires 0 < nrPartitions < WORD_SIZE
    ensures Placed(o, PostConstruct(nrPartitions)) && Join<Row<K, V>>(PostConstruct(nrPartitions).partitions) == []
  {
    JoinEmpty<Row<K, V>>(PostConstruct(nrPartitions).partitions);
  }

  lemma {:induction false} JoinEmpty<T>(parts: seq<seq<T>>)
    requires forall p :: 0 <= p < |parts| ==> parts[p] == []
    ensures Join(parts) == []
  {
    if parts != [] { JoinEmpty(parts[..|parts| - 1]); }
  }

  // ------------------------------------------------------- second phase

  /** All deques have the same partitions. */
  ghost predicate AllPlaced<K, V>(o: Ops<K, V>, deques: seq<Deque<K, V>>, shift: nat) {
    forall i :: 0 <= i < |deques| ==> Placed(o, deques[i]) && deques[i].shift == shift
  }

  /** Everything in the deques. */
  ghost function DequeRows<K, V>(deques: seq<Deque<K, V>>): seq<Row<K, V>> {
    if deques == [] then [] else DequeRows(deques[..|deques| - 1]) + Join(deques[|deques| - 1].partitions)
  }

  /** Everything in partition p of the deques. */
  ghost function Column<K, V>(o: Ops<K, V>, deques: seq<Deque<K, V>>, shift: nat, p: nat): seq<Row<K, V>>
    requires AllPlaced(o, deques, shift) && shift <= 64 && p < Pow2(64 - shift)
  {
    if deques == [] then []
    else
      var n := |deques| - 1;
      assert Placed(o, deques[n]);
      Column(o, deques[..n], shift, p) + deques[n].partitions[p]
  }

  /** The partition of a key. */
  ghost function PartitionFor<K, V>(o: Ops<K, V>, shift: nat, k: K): (p: nat)
    requires shift <= 64
    ensures p < Pow2(64 - shift)
  {
    UpperBits(o.hash(k), shift);
    ShiftRight(o.hash(k), shift)
  }

  lemma OnlyInItsPartition<K, V>(o: Ops<K, V>, d: Deque<K, V>, k: K, q: nat)
    requires Placed(o, d) && q < |d.partitions| && Has(d.partitions[q], k)
    ensures q == PartitionFor(o, d.shift, k)
  {
    assert InPartition(o, d, q, d.partitions[q]);
  }

  /** The partition of a key holds all that the deques hold for it. */
  lemma {:induction false} ColumnHoldsKey<K(!new), V(!new)>(o: Ops<K, V>, deques: seq<Deque<K, V>>, shift: nat, k: K)
    requires Commutes(o) && AllPlaced(o, deques, shift) && shift <= 64
    ensures var c := Column(o, deques, shift, PartitionFor(o, shift, k));
      Sum(o, DequeRows(deques), k) == Sum(o, c, k) && (Has(DequeRows(deques), k) <==> Has(c, k))
  {
    hide Sum, Has, Commutes, Placed;
    if deques != [] {
      var n, p := |deques| - 1, PartitionFor(o, shift, k);
      var d := deques[n];
      ColumnHoldsKey(o, deques[..n], shift, k);
      assert Placed(o, d);
      PlacedValid(o, d);
      DequeHoldsKey(o, d, k);
      SumConcat(o, DequeRows(deques[..n]), Join(d.partitions), k);
      SumConcat(o, Column(o, deques[..n], shift, p), d.partitions[p], k);
      HasConcat(DequeRows(deques[..n]), Join(d.partitions), k);
      HasConcat(Column(o, deques[..n], shift, p), d.partitions[p], k);
    }
  }

  lemma DequeHoldsKey<K(!new), V(!new)>(o: Ops<K, V>, d: Deque<K, V>, k: K)
    requires Commutes(o) && Placed(o, d)
    ensures var p := PartitionFor(o, d.shift, k);
      && p < |d.partitions|
      && Sum(o, Join(d.partitions), k) == Sum(o, d.partitions[p], k)
      && (Has(Join(d.partitions), k) <==> Has(d.partitions[p], k))
  {
    var p := PartitionFor(o, d.shift, k);
    forall q: nat | q < |d.partitions| && Has(d.partitions[q], k) ensures q == p {
      OnlyInItsPartition(o, d, k, q);
    }
    SumJoinOnly(o, d.partitions, p, k);
    HasJoin(d.partitions, k);
  }

  lemma {:induction false} ColumnInPartition<K, V>(o: Ops<K, V>, deques: seq<Deque<K, V>>, shift: nat, p: nat)
    requires AllPlaced(o, deques, shift) && shift <= 64 && p < Pow2(64 - shift)
    ensures forall k :: Has(Column(o, deques, shift, p), k) ==> PartitionFor(o, shift, k) == p
  {
    if deques != [] {
      var n := |deques| - 1;
      ColumnInPartition(o, deques[..n], shift, p);
      assert Placed(o, deques[n]);
      forall k | Has(Column(o, deques, shift, p), k) ensures PartitionFor(o, shift, k) == p {
        HasConcat(Column(o, deques[..n], shift, p), deques[n].partitions[p], k);
        if Has(deques[n].partitions[p], k) { OnlyInItsPartition(o, deques[n], k, p); }
      }
    }
  }

  /** findOrCreate with the callback that grows the table, and update. */
  method Merge<K(==, !new), V(!new)>(o: Ops<K, V>, ht: Hashmapx<K, V>, r: Row<K, V>, fill: nat) returns (maxFill: nat)
    requires ht.Valid() && Groups(o, ht.rows) && Commutes(o) && r.hash == o.hash(r.k)
    requires fill > 0 && |ht.rows| <= fill < ht.capacity
    modifies ht, ht.dir
    ensures ht.Valid() && Groups(o, ht.rows) && (ht.dir == old(ht.dir) || fresh(ht.dir))
    ensures SameTotals(o, ht.rows, old(ht.rows) + [r])
    ensures maxFill > 0 && |ht.rows| <= maxFill < ht.capacity
  {
    hide SameTotals, Commutes, Sum, Hashmapx.Threaded;
    maxFill := fill;
    ghost var rows := ht.rows;
    var group := ht.FindOne(r.k, r.hash);
    if group == NONE {
      assert !Has(rows, r.k);
      if ht.nrEntries >= maxFill {
        maxFill := ht.Grow();
      }
      group := ht.Create(r.k, r.hash, o.init);
      ht.SetValue(group, o.update(ht.rows[group].v, r.v));
      assert ht.rows == Absorb(o, rows, NONE, r.k, r.v);
      AbsorbCounts(o, rows, NONE, r.k, r.v);
    } else {
      ht.SetValue(group, o.update(ht.rows[group].v, r.v));
      assert ht.rows == Absorb(o, rows, group, r.k, r.v);
      AbsorbCounts(o, rows, group, r.k, r.v);
    }
    assert r == Row(o.hash(r.k), r.k, r.v);
  }

  /** The values one deque holds for a partition. */
  method MergeAll<K(==, !new), V(!new)>(o: Ops<K, V>, ht: Hashmapx<K, V>, values: seq<Row<K, V>>, fill: nat)
    returns (maxFill: nat)
    requires ht.Valid() && Groups(o, ht.rows) && Commutes(o) && Hashed(o, values)
    requires fill > 0 && |ht.rows| <= fill < ht.capacity
    modifies ht, ht.dir
    ensures ht.Valid() && Groups(o, ht.rows) && (ht.dir == old(ht.dir) || fresh(ht.dir))
    ensures SameTotals(o, ht.rows, old(ht.rows) + values)
    ensures maxFill > 0 && |ht.rows| <= maxFill < ht.capacity
  {
    hide SameTotals, Commutes, Sum, Hashmapx.Threaded, Hashmapx.Sized, Groups;
    maxFill := fill;
    ghost var before := ht.rows;
    assert before + values[..0] == before;
    TotalsSame(o, before);
    var i := 0;
    while i < |values|
      invariant i <= |values| && maxFill > 0
      invariant ht.Valid() && Groups(o, ht.rows) && (ht.dir == old(ht.dir) || fresh(ht.dir))
      invariant SameTotals(o, ht.rows, before + values[..i])
      invariant |ht.rows| <= maxFill < ht.capacity
    {
      ghost var was := ht.rows;
      maxFill := Merge(o, ht, values[i], maxFill);
      TotalsMore(o, was, before + values[..i], [values[i]]);
      assert before + values[..i] + [values[i]] == before + values[..i + 1];
      TotalsChain(o, ht.rows, was + [values[i]], before + values[..i + 1]);
      i := i + 1;
    }
    assert values[..i] == values;
  }

  /** One partition, in the table of whichever thread runs it, whatever that table held before. */
  method AggregatePartition<K(==, !new), V(!new)>(o: Ops<K, V>, ht: Hashmapx<K, V>, deques: seq<Deque<K, V>>,
                                                  shift: nat, p: nat)
    requires ht.Sized() && ht.capacity > 1 && Commutes(o) && AllPlaced(o, deques, shift)
    requires shift <= 64 && p < Pow2(64 - shift)
    modifies ht, ht.dir
    ensures ht.Valid() && Groups(o, ht.rows) && (ht.dir == old(ht.dir) || fresh(ht.dir))
    ensures SameTotals(o, ht.rows, Column(o, deques, shift, p)) && |ht.rows| < ht.capacity && ht.capacity > 1
  {
    hide SameTotals, Commutes, Sum, Hashmapx.Threaded;
    var maxFill := ht.capacity * 7 / 10;
    ht.Clear();
    TotalsSame<K, V>(o, []);
    assert Column(o, deques[..0], shift, p) == [];
    var i := 0;
    while i < |deques|
      invariant i <= |deques| && maxFill > 0
      invariant ht.Valid() && Groups(o, ht.rows) && (ht.dir == old(ht.dir) || fresh(ht.dir))
      invariant SameTotals(o, ht.rows, Column(o, deques[..i], shift, p)) && |ht.rows| <= maxFill < ht.capacity
    {
      ghost var was, before := ht.rows, Column(o, deques[..i], shift, p);
      assert Placed(o, deques[i]);
      assert InPartition(o, deques[i], p, deques[i].partitions[p]);
      maxFill := MergeAll(o, ht, deques[i].partitions[p], maxFill);
      TotalsMore(o, was, before, deques[i].partitions[p]);
      TotalsChain(o, ht.rows, was + deques[i].partitions[p], before + deques[i].partitions[p]);
      assert deques[..i + 1][..i] == deques[..i];
      i := i + 1;
    }
    assert deques[..i] == deques;
  }

  /** spillAll: every thread's remaining groups, into the deque of whichever thread does it. */
  method SpillAll<K(!new), V(!new)>(ghost o: Ops<K, V>, entries: seq<seq<Row<K, V>>>, deques: seq<Deque<K, V>>,
                                    ghost shift: nat, runner: seq<nat>) returns (out: seq<Deque<K, V>>)
    requires Commutes(o) && AllPlaced(o, deques, shift)
    requires |runner| == |entries| && forall i :: 0 <= i < |runner| ==> runner[i] < |deques|
    requires forall i :: 0 <= i < |entries| ==> Hashed(o, entries[i])
    ensures AllPlaced(o, out, shift) && |out| == |deques|
    ensures SameTotals(o, DequeRows(out), DequeRows(deques) + Join(entries))
  {
    hide SameTotals, Commutes, Sum, Placed, DequeRows;
    out := deques;
    ghost var before := DequeRows(deques);
    TotalsSame(o, before);
    assert before + Join(entries[..0]) == before;
    var i := 0;
    while i < |entries|
      invariant i <= |entries| && |out| == |deques| && AllPlaced(o, out, shift)
      invariant SameTotals(o, DequeRows(out), before + Join(entries[..i]))
    {
      ghost var was := out;
      var d := Spill(o, entries[i], out[runner[i]]);
      out := out[runner[i] := d];
      DequeRowsUpdate(o, was, runner[i], d, entries[i]);
      TotalsMore(o, DequeRows(was), before + Join(entries[..i]), entries[i]);
      assert entries[..i + 1][..i] == entries[..i];
      assert before + Join(entries[..i]) + entries[i] == before + Join(entries[..i + 1]);
      TotalsChain(o, DequeRows(out), DequeRows(was) + entries[i], before + Join(entries[..i + 1]));
      i := i + 1;
    }
    assert entries[..i] == entries;
  }

  lemma {:induction false} DequeRowsUpdate<K(!new), V(!new)>(o: Ops<K, V>, deques: seq<Deque<K, V>>, i: nat,
                                                            d: Deque<K, V>, rows: seq<Row<K, V>>)
    requires Commutes(o) && i < |deques|
    requires SameTotals(o, Join(d.partitions), Join(deques[i].partitions) + rows)
    ensures SameTotals(o, DequeRows(deques[i := d]), DequeRows(deques) + rows)
  {
    hide SameTotals, Commutes, Sum, Join;
    var n := |deques| - 1;
    var deques' := deques[i := d];
    var a, last := DequeRows(deques[..n]), Join(deques[n].partitions);
    if i == n {
      assert deques'[..n] == deques[..n];
      TotalsAfter(o, a, Join(d.partitions), last + rows);
      assert a + (last + rows) == a + last + rows;
    } else {
      assert deques'[..n] == deques[..n][i := d];
      DequeRowsUpdate(o, deques[..n], i, d, rows);
      TotalsMore(o, DequeRows(deques'[..n]), a + rows, last);
      TotalsMiddle(o, a, rows, last);
      TotalsChain(o, DequeRows(deques'), a + rows + last, a + last + rows);
    }
  }

  lemma TotalsAfter<K(!new), V(!new)>(o: Ops<K, V>, a: seq<Row<K, V>>, b: seq<Row<K, V>>, c: seq<Row<K, V>>)
    requires Commutes(o) && SameTotals(o, b, c)
    ensures SameTotals(o, a + b, a + c)
  {
    forall k
      ensures Sum(o, a + b, k) == Sum(o, a + c, k)
      ensures Has(a + b, k) <==> Has(a + c, k) {
      SumConcat(o, a, b, k);
      SumConcat(o, a, c, k);
      HasConcat(a, b, k);
      HasConcat(a, c, k);
    }
  }

  /** What the tasks of forallGroups have handed out: for each partition its groups. */
  ghost predicate HandedOut<K(!new), V>(o: Ops<K, V>, deques: seq<Deque<K, V>>, shift: nat, outs: seq<seq<Row<K, V>>>)
    requires AllPlaced(o, deques, shift) && shift <= 64 && |outs| <= Pow2(64 - shift)
  {
    forall p :: 0 <= p < |outs| ==> Groups(o, outs[p]) && SameTotals(o, outs[p], Column(o, deques, shift, p))
  }

  /** Groups of different partitions have different keys; all partitions together have every key,
      with the fold of all that was spilled for it. */
  lemma PartitionsComplete<K(!new), V(!new)>(o: Ops<K, V>, deques: seq<Deque<K, V>>, shift: nat,
                                             outs: seq<seq<Row<K, V>>>)
    requires Commutes(o) && AllPlaced(o, deques, shift) && shift <= 64 && |outs| == Pow2(64 - shift)
    requires HandedOut(o, deques, shift, outs)
    ensures SameTotals(o, Join(outs), DequeRows(deques))
    ensures Distinct(Join(outs))
  {
    hide Sum, Commutes, Column, DequeRows, Join, PartitionFor;
    forall p: nat, k | p < |outs| && Has(outs[p], k) ensures p == PartitionFor(o, shift, k) {
      ColumnInPartition(o, deques, shift, p);
    }
    forall k
      ensures Sum(o, Join(outs), k) == Sum(o, DequeRows(deques), k)
      ensures Has(Join(outs), k) <==> Has(DequeRows(deques), k) {
      var p := PartitionFor(o, shift, k);
      ColumnHoldsKey(o, deques, shift, k);
      SumJoinOnly(o, outs, p, k);
      HasJoin(outs, k);
    }
    forall p: nat | p < |outs| ensures Distinct(outs[p]) { }
    forall p: nat, q: nat, k | p < |outs| && q < |outs| && Has(outs[p], k) && Has(outs[q], k) ensures p == q {
      assert p == PartitionFor(o, shift, k) && q == PartitionFor(o, shift, k);
    }
    JoinDistinct(outs);
  }

  lemma {:induction false} JoinDistinct<K(!new), V>(outs: seq<seq<Row<K, V>>>)
    requires forall p :: 0 <= p < |outs| ==> Distinct(outs[p])
    requires forall p, q, k :: 0 <= p < |outs| && 0 <= q < |outs| && Has(outs[p], k) && Has(outs[q], k) ==> p == q
    ensures Distinct(Join(outs))
  {
    if outs != [] {
      var n := |outs| - 1;
      forall p, q, k | 0 <= p < n && 0 <= q < n && Has(outs[..n][p], k) && Has(outs[..n][q], k) ensures p == q {
        assert Has(outs[p], k) && Has(outs[q], k);
      }
      JoinDistinct(outs[..n]);
      var a, b := Join(outs[..n]), outs[n];
      forall i: nat, j: nat | i < |a| && j < |b| ensures a[i].k != b[j].k {
        assert Has(a, a[i].k) && Has(b, b[j].k);
        NotInLast(outs, a[i].k);
      }
    }
  }

  lemma NotInLast<K(!new), V>(outs: seq<seq<Row<K, V>>>, k: K)
    requires outs != []
    requires forall p, q, k' :: 0 <= p < |outs| && 0 <= q < |outs| && Has(outs[p], k') && Has(outs[q], k') ==> p == q
    ensures !(Has(Join(outs[..|outs| - 1]), k) && Has(outs[|outs| - 1], k))
  {
    var n := |outs| - 1;
    HasJoin(outs[..n], k);
    assert forall p :: 0 <= p < n ==> outs[..n][p] == outs[p];
  }

  lemma NothingHanded<K(!new), V>(o: Ops<K, V>, deques: seq<Deque<K, V>>, shift: nat)
    requires AllPlaced(o, deques, shift) && shift <= 64
    ensures HandedOut(o, deques, shift, []) && Join<Row<K, V>>([]) == [] && Hashed(o, [])
  {
  }

  /** forallGroups after spillAll: each partition is one task, run in the table of some thread. */
  method ForallGroups<K(==, !new), V(!new)>(o: Ops<K, V>, tables: seq<Hashmapx<K, V>>, deques: seq<Deque<K, V>>,
                                            shift: nat, runner: seq<nat>)
    returns (result: seq<Row<K, V>>)
    requires Commutes(o) && AllPlaced(o, deques, shift) && shift <= 64 && |runner| == Pow2(64 - shift)
    requires forall p :: 0 <= p < |runner| ==> runner[p] < |tables|
    requires forall t :: 0 <= t < |tables| ==> tables[t].Sized() && tables[t].capacity > 1
    modifies set t | t in tables, set t | t in tables :: t.dir
    ensures SameTotals(o, result, DequeRows(deques)) && Distinct(result) && Hashed(o, result)
  {
    hide SameTotals, Commutes, Groups, Placed, Distinct, Hashmapx.Threaded, Column, DequeRows, HandedOut, Hashed, Join;
    result := [];
    ghost var outs: seq<seq<Row<K, V>>> := [];
    NothingHanded(o, deques, shift);
    var p := 0;
    while p < |runner|
      invariant p <= |runner| && p == |outs| && HandedOut(o, deques, shift, outs)
      invariant result == Join(outs) && Hashed(o, result)
      invariant forall t :: 0 <= t < |tables| ==> tables[t].Sized() && tables[t].capacity > 1
      invariant forall t :: 0 <= t < |tables| ==> tables[t].dir == old(tables[t].dir) || fresh(tables[t].dir)
    {
      var ht := tables[runner[p]];
      AggregatePartition(o, ht, deques, shift, p);
      HandMore(o, deques, shift, outs, ht.rows);
      result := result + ht.rows;
      outs := outs + [ht.rows];
      p := p + 1;
    }
    PartitionsComplete(o, deques, shift, outs);
  }

  lemma HandMore<K(!new), V>(o: Ops<K, V>, deques: seq<Deque<K, V>>, shift: nat, outs: seq<seq<Row<K, V>>>,
                             more: seq<Row<K, V>>)
    requires AllPlaced(o, deques, shift) && shift <= 64 && |outs| < Pow2(64 - shift)
    requires HandedOut(o, deques, shift, outs) && Groups(o, more)
    requires SameTotals(o, more, Column(o, deques, shift, |outs|))
    ensures HandedOut(o, deques, shift, outs + [more])
    ensures Join(outs + [more]) == Join(outs) + more
    ensures Hashed(o, Join(outs)) ==> Hashed(o, Join(outs) + more)
  {
    hide Column, SameTotals, Sum;
    assert (outs + [more])[..|outs|] == outs;
  }

  // ------------------------------------------------------------- whole run

  /** The tuples of one thread, with their hashes. */
  function RowsOf<K, V>(o: Ops<K, V>, input: seq<(K, V)>): (rows: seq<Row<K, V>>)
    ensures |rows| == |input|
    ensures forall i :: 0 <= i < |input| ==> rows[i] == Row(o.hash(input[i].0), input[i].0, input[i].1)
  {
    seq(|input|, i requires 0 <= i < |input| => Row(o.hash(input[i].0), input[i].0, input[i].1))
  }

  function AllRows<K, V>(o: Ops<K, V>, inputs: seq<seq<(K, V)>>): seq<Row<K, V>> {
    if inputs == [] then [] else AllRows(o, inputs[..|inputs| - 1]) + RowsOf(o, inputs[|inputs| - 1])
  }

  // ------------------------------------------- what is in all these rows

  /** The tuples of the threads before w. */
  function Before<T>(inputs: seq<seq<T>>, w: nat): nat
    requires w <= |inputs|
  {
    if w == 0 then 0 else Before(inputs, w - 1) + |inputs[w - 1]|
  }

  lemma {:induction false} BeforePrefix<T>(inputs: seq<seq<T>>, n: nat, w: nat)
    requires w <= n <= |inputs|
    ensures Before(inputs[..n], w) == Before(inputs, w)
  {
    if w > 0 { BeforePrefix(inputs, n, w - 1); }
  }

  lemma {:induction false} RowsNumber<K, V>(o: Ops<K, V>, inputs: seq<seq<(K, V)>>)
    ensures |AllRows(o, inputs)| == Before(inputs, |inputs|)
  {
    if inputs != [] {
      var n := |inputs| - 1;
      RowsNumber(o, inputs[..n]);
      BeforePrefix(inputs, n, n);
    }
  }

  /** Every tuple of every thread is there once, one thread after the other. */
  lemma {:induction false} TuplesInOrder<K, V>(o: Ops<K, V>, inputs: seq<seq<(K, V)>>, w: nat, i: nat)
    requires w < |inputs| && i < |inputs[w]|
    ensures |AllRows(o, inputs)| == Before(inputs, |inputs|)
    ensures Before(inputs, w) + i < |AllRows(o, inputs)|
    ensures var (k, v) := inputs[w][i]; AllRows(o, inputs)[Before(inputs, w) + i] == Row(o.hash(k), k, v)
  {
    var n := |inputs| - 1;
    RowsNumber(o, inputs);
    RowsNumber(o, inputs[..n]);
    BeforePrefix(inputs, n, n);
    if w < n {
      TuplesInOrder(o, inputs[..n], w, i);
      BeforePrefix(inputs, n, w);
    }
  }

  /** Some thread has a tuple with this key. */
  ghost predicate Given<K, V>(inputs: seq<seq<(K, V)>>, k: K) {
    exists w, i :: 0 <= w < |inputs| && 0 <= i < |inputs[w]| && inputs[w][i].0 == k
  }

  lemma {:induction false} KeysGiven<K, V>(o: Ops<K, V>, inputs: seq<seq<(K, V)>>, k: K)
    ensures Has(AllRows(o, inputs), k) <==> Given(inputs, k)
  {
    if Given(inputs, k) {
      var w: nat, i: nat :| w < |inputs| && i < |inputs[w]| && inputs[w][i].0 == k;
      TuplesInOrder(o, inputs, w, i);
    }
    if inputs != [] && Has(AllRows(o, inputs), k) {
      var n := |inputs| - 1;
      HasConcat(AllRows(o, inputs[..n]), RowsOf(o, inputs[n]), k);
      if Has(RowsOf(o, inputs[n]), k) {
        var i :| 0 <= i < |inputs[n]| && RowsOf(o, inputs[n])[i].k == k;
        assert inputs[n][i].0 == k;
      } else {
        KeysGiven(o, inputs[..n], k);
        var w, i :| 0 <= w < n && 0 <= i < |inputs[..n][w]| && inputs[..n][w][i].0 == k;
        assert inputs[w][i].0 == k;
      }
    }
  }

  lemma {:induction false} RowsAround<K, V>(o: Ops<K, V>, inputs: seq<seq<(K, V)>>, w: nat)
    requires w < |inputs|
    ensures AllRows(o, inputs) ==
            AllRows(o, inputs[..w]) + RowsOf(o, inputs[w]) + AllRows(o, inputs[w + 1..])
  {
    var n := |inputs| - 1;
    if w == n {
      assert inputs[w + 1..] == [];
    } else {
      RowsAround(o, inputs[..n], w);
      assert inputs[..n][..w] == inputs[..w] && inputs[..n][w + 1..] == inputs[w + 1..][..n - w - 1];
      assert inputs[w + 1..][n - w - 1] == inputs[n];
    }
  }

  /** One tuple more, anywhere in the input of any thread: the fold of its key takes it in, and no other
      changes. Without tuples every fold is the initial value. */
  lemma TupleCounts<K, V(!new)>(o: Ops<K, V>, inputs: seq<seq<(K, V)>>, w: nat, i: nat, key: K, value: V, k: K)
    requires Commutes(o) && w < |inputs| && i <= |inputs[w]|
    ensures Sum(o, AllRows(o, inputs[w := inputs[w][..i] + [(key, value)] + inputs[w][i..]]), k) ==
            if k == key then o.update(Sum(o, AllRows(o, inputs), k), value) else Sum(o, AllRows(o, inputs), k)
    ensures (forall t :: 0 <= t < |inputs| ==> inputs[t] == []) ==> Sum(o, AllRows(o, inputs), k) == o.init
  {
    hide Sum, RowsOf, AllRows, Commutes;
    var more := inputs[w := inputs[w][..i] + [(key, value)] + inputs[w][i..]];
    var a, b := AllRows(o, inputs[..w]), AllRows(o, inputs[w + 1..]);
    var x, r, y := RowsOf(o, inputs[w][..i]), Row(o.hash(key), key, value), RowsOf(o, inputs[w][i..]);
    RowsAround(o, inputs, w);
    RowsAround(o, more, w);
    assert more[..w] == inputs[..w] && more[w + 1..] == inputs[w + 1..];
    RowsPieces(o, inputs[w], i, (key, value));
    assert AllRows(o, inputs) == (a + x) + (y + b);
    assert AllRows(o, more) == (a + x) + [r] + (y + b);
    SumInsert(o, a + x, r, y + b, k);
    NoRows(o, inputs, k);
  }

  lemma RowsPieces<K, V>(o: Ops<K, V>, input: seq<(K, V)>, i: nat, t: (K, V))
    requires i <= |input|
    ensures RowsOf(o, input) == RowsOf(o, input[..i]) + RowsOf(o, input[i..])
    ensures RowsOf(o, input[..i] + [t] + input[i..]) ==
            RowsOf(o, input[..i]) + [Row(o.hash(t.0), t.0, t.1)] + RowsOf(o, input[i..])
  {
  }

  lemma SumInsert<K, V(!new)>(o: Ops<K, V>, a: seq<Row<K, V>>, r: Row<K, V>, b: seq<Row<K, V>>, k: K)
    requires Commutes(o)
    ensures Sum(o, a + [r] + b, k) == if r.k == k then o.update(Sum(o, a + b, k), r.v) else Sum(o, a + b, k)
  {
    SumConcat(o, a + [r], b, k);
    SumConcat(o, a, [r], k);
    SumConcat(o, a, b, k);
    SumOne(o, r, k);
    hide Sum;
    var p, q := Sum(o, a, k), Sum(o, b, k);
    assert o.update(p, o.init) == o.update(o.init, p);
    assert o.update(o.update(p, r.v), q) == o.update(p, o.update(r.v, q)) == o.update(p, o.update(q, r.v));
    assert o.update(o.update(p, q), r.v) == o.update(p, o.update(q, r.v));
    assert o.update(o.init, r.v) == r.v;
  }

  lemma {:induction false} NoRows<K, V>(o: Ops<K, V>, inputs: seq<seq<(K, V)>>, k: K)
    ensures (forall t :: 0 <= t < |inputs| ==> inputs[t] == []) ==> Sum(o, AllRows(o, inputs), k) == o.init
  {
    if inputs != [] && forall t :: 0 <= t < |inputs| ==> inputs[t] == [] {
      var n := |inputs| - 1;
      NoRows(o, inputs[..n], k);
      assert RowsOf(o, inputs[n]) == [];
      assert AllRows(o, inputs) == AllRows(o, inputs[..n]);
    }
  }

  /** One thread of the first phase. */
  method PreAggregate<K(==, !new), V(!new)>(o: Ops<K, V>, input: seq<(K, V)>, nrThreads: nat, tableSize: nat,
                                            maxFill: nat)
    returns (l: Locals<K, V>)
    requires Commutes(o) && tableSize > 0 && 0 < nrThreads * 4 < WORD_SIZE
    ensures fresh(l) && fresh(l.groups) && fresh(l.groups.dir) && l.Valid() && l.o == o
    ensures l.consumed == RowsOf(o, input) && l.groups.capacity > 1
    ensures l.spillStorage.shift == PostConstruct<Row<K, V>>(nrThreads * 4).shift
  {
    l := new Locals(o, nrThreads, tableSize, maxFill);
    var i := 0;
    while i < |input|
      invariant i <= |input| && l.Valid() && fresh(l.groups.dir) && l.groups.capacity > 1
      invariant l.consumed == RowsOf(o, input[..i])
      invariant l.spillStorage.shift == PostConstruct<Row<K, V>>(nrThreads * 4).shift
    {
      l.Consume(input[i].0, input[i].1);
      assert RowsOf(o, input[..i + 1]) == RowsOf(o, input[..i]) + [Row(o.hash(input[i].0), input[i].0, input[i].1)];
      i := i + 1;
    }
    assert input[..i] == input;
  }

  /** The first phase adds up: what the threads' tables and deques hold are the folds of what all
      threads consumed. */
  lemma ThreadMore<K(!new), V(!new)>(o: Ops<K, V>, entries: seq<seq<Row<K, V>>>, deques: seq<Deque<K, V>>,
                                    all: seq<Row<K, V>>, rows: seq<Row<K, V>>, d: Deque<K, V>, consumed: seq<Row<K, V>>)
    requires Commutes(o)
    requires SameTotals(o, DequeRows(deques) + Join(entries), all)
    requires SameTotals(o, rows + Join(d.partitions), consumed)
    ensures SameTotals(o, DequeRows(deques + [d]) + Join(entries + [rows]), all + consumed)
  {
    hide SameTotals, Commutes, Sum;
    assert (deques + [d])[..|deques|] == deques && (entries + [rows])[..|entries|] == entries;
    var a, b, x := DequeRows(deques), Join(entries), Join(d.partitions);
    assert DequeRows(deques + [d]) + Join(entries + [rows]) == a + x + (b + rows) by {
      assert DequeRows(deques + [d]) == a + x;
      assert Join(entries + [rows]) == b + rows;
    }
    hide DequeRows, Join;
    Interleave(o, a, x, b, rows);
    TotalsMore(o, a + b, all, rows + x);
    TotalsAfter(o, all, rows + x, consumed);
    TotalsChain(o, a + x + (b + rows), a + b + (rows + x), all + (rows + x));
    TotalsChain(o, a + x + (b + rows), all + (rows + x), all + consumed);
  }

  lemma Interleave<K(!new), V(!new)>(o: Ops<K, V>, a: seq<Row<K, V>>, b: seq<Row<K, V>>, c: seq<Row<K, V>>,
                                     d: seq<Row<K, V>>)
    requires Commutes(o)
    ensures SameTotals(o, a + b + (c + d), a + c + (d + b))
  {
    hide SameTotals, Commutes, Sum;
    assert a + b + (c + d) == a + b + c + d && a + c + (d + b) == a + c + d + b;
    assert a + c + b + d == a + c + b + d;
    TotalsMiddle(o, a, b, c);
    TotalsMore(o, a + b + c, a + c + b, d);
    TotalsMiddle(o, a + c, b, d);
    TotalsChain(o, a + b + c + d, a + c + b + d, a + c + d + b);
  }

  /** Two-phase aggregation is group-by. The input is split over the threads in any way, and a thread may
      get none of it, as those that first appear in the second phase; tables spill at any fill; in the
      second phase any thread may spill any thread's remaining groups (`spiller`), and run any partition
      (`runner`). The result has every key that occurs once, with the fold of all its values. */
  method GroupBy<K(==, !new), V(!new)>(o: Ops<K, V>, nrThreads: nat, inputs: seq<seq<(K, V)>>, tableSize: nat,
                                       maxFill: seq<nat>, spiller: seq<nat>, runner: nat -> nat)
    returns (result: seq<Row<K, V>>)
    requires Commutes(o) && tableSize > 0 && inputs != [] && 0 < nrThreads * 4 < WORD_SIZE
    requires |maxFill| == |spiller| == |inputs|
    requires forall i :: 0 <= i < |spiller| ==> spiller[i] < |inputs|
    requires forall p :: runner(p) < |inputs|
    ensures SameTotals(o, result, AllRows(o, inputs))
    ensures Distinct(result) && forall k :: Has(result, k) <==> Given(inputs, k)
    ensures forall i :: 0 <= i < |result| ==> result[i].v == Sum(o, AllRows(o, inputs), result[i].k)
  {
    hide SameTotals, Given, AllRows, RowsOf, Commutes, Sum, Placed, DequeRows, Join, Distinct, Hashmapx.Threaded,
      Groups;
    var tables: seq<Hashmapx<K, V>>, entries: seq<seq<Row<K, V>>>, deques: seq<Deque<K, V>> := [], [], [];
    var shift := PostConstruct<Row<K, V>>(nrThreads * 4).shift;
    NothingYet(o);
    var w := 0;
    while w < |inputs|
      invariant w <= |inputs| && |tables| == |entries| == |deques| == w
      invariant forall t :: 0 <= t < w ==> fresh(tables[t]) && fresh(tables[t].dir)
      invariant forall t :: 0 <= t < w ==> tables[t].Sized() && tables[t].capacity > 1
      invariant AllPlaced(o, deques, shift)
      invariant forall i :: 0 <= i < w ==> Hashed(o, entries[i])
      invariant SameTotals(o, DequeRows(deques) + Join(entries), AllRows(o, inputs[..w]))
    {
      var l := PreAggregate(o, inputs[w], nrThreads, tableSize, maxFill[w]);
      ThreadMore(o, entries, deques, AllRows(o, inputs[..w]), l.groups.rows, l.spillStorage, l.consumed);
      AllRowsNext(o, inputs, w);
      GroupsHashed(o, l.groups.rows);
      tables, entries, deques := tables + [l.groups], entries + [l.groups.rows], deques + [l.spillStorage];
      w := w + 1;
    }
    assert inputs[..w] == inputs;
    var spilled := SpillAll(o, entries, deques, shift, spiller);
    var runners := seq(Pow2(64 - shift), p requires p >= 0 => runner(p));
    result := ForallGroups(o, tables, spilled, shift, runners);
    TotalsChain(o, result, DequeRows(spilled), DequeRows(deques) + Join(entries));
    TotalsChain(o, result, DequeRows(deques) + Join(entries), AllRows(o, inputs));
    KeysOfResult(o, inputs, result);
  }

  lemma AllRowsNext<K, V>(o: Ops<K, V>, inputs: seq<seq<(K, V)>>, w: nat)
    requires w < |inputs|
    ensures AllRows(o, inputs[..w + 1]) == AllRows(o, inputs[..w]) + RowsOf(o, inputs[w])
  {
    assert inputs[..w + 1][..w] == inputs[..w];
  }

  lemma KeysOfResult<K(!new), V(!new)>(o: Ops<K, V>, inputs: seq<seq<(K, V)>>, result: seq<Row<K, V>>)
    requires Commutes(o) && Distinct(result) && SameTotals(o, result, AllRows(o, inputs))
    ensures forall k :: Has(result, k) <==> Given(inputs, k)
    ensures forall i :: 0 <= i < |result| ==> result[i].v == Sum(o, AllRows(o, inputs), result[i].k)
  {
    hide Given, Sum, Commutes;
    forall k ensures Has(result, k) <==> Given(inputs, k) { KeysGiven(o, inputs, k); }
    forall i: nat | i < |result| ensures result[i].v == Sum(o, AllRows(o, inputs), result[i].k) {
      DistinctSum(o, result, i);
    }
  }

  lemma NothingYet<K(!new), V>(o: Ops<K, V>)
    ensures SameTotals<K, V>(o, DequeRows([]) + Join([]), AllRows(o, []))
  {
    assert DequeRows<K, V>([]) + Join([]) == [];
  }
}
