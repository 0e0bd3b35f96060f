/** Vectors of tuples as HashGroup sees them, in columns and in the row format of the deques, and what
    aggregating them means. */
module GroupVectors {
  import opened Bits
  import opened Folds
  import opened GroupTables
  import opened Deques
  import opened TwoPhase
  import opened GroupLookups
  import opened GroupCreation
  import opened Tallies
  import opened Partitioning

  // ----------------------------------------------------------------- vectors

  /** A vector of tuples: the columns of its keys, the hashes of the whole keys, and the values. */
  datatype Vector<K, V> = Vector(keys: seq<Input<K>>, hashes: seq<Hash>, values: seq<V>)

  ghost predicate IsVector<K, V>(o: Ops<Key<K>, V>, nrKeys: nat, vecSize: nat, v: Vector<K, V>) {
    && |v.keys| == nrKeys && |v.values| <= vecSize
    && Hashes(v.keys, v.hashes, |v.values|)
    && (forall x: nat :: x < |v.values| ==> v.hashes[x] == o.hash(CompositeKey(v.keys)(x)))
  }

  /** The tuples of a vector. */
  ghost function RowsOfVector<K, V>(o: Ops<Key<K>, V>, v: Vector<K, V>): (rows: seq<Row<Key<K>, V>>)
    ensures |rows| == |v.values|
    ensures forall x: nat :: x < |rows| ==>
      rows[x] == Row(o.hash(CompositeKey(v.keys)(x)), CompositeKey(v.keys)(x), v.values[x])
  {
    seq(|v.values|, x requires 0 <= x < |v.values| =>
      Row(o.hash(CompositeKey(v.keys)(x)), CompositeKey(v.keys)(x), v.values[x]))
  }

  /** All keys of the rows occur in `all`. */
  ghost predicate Known<K(!new), V>(all: seq<Row<K, V>>, rows: seq<Row<K, V>>) {
    forall k :: Has(rows, k) ==> Has(all, k)
  }

  /** No two keys that occur share a hash. */
  ghost predicate CollisionFree<K(!new), V>(o: Ops<K, V>, all: seq<Row<K, V>>) {
    forall k, l :: Has(all, k) && Has(all, l) && o.hash(k) == o.hash(l) ==> k == l
  }

  /** Keys have nrKeys parts. */
  ghost predicate Shaped<K(!new), V>(nrKeys: nat, all: seq<Row<Key<K>, V>>) {
    forall k :: Has(all, k) ==> IsKey(nrKeys, k)
  }

  ghost predicate IsKey<K>(nrKeys: nat, k: Key<K>) {
    |k| == nrKeys && forall i :: 0 <= i < nrKeys ==> k[i].Some?
  }

  ghost function KeySet<K, V>(rows: seq<Row<K, V>>): set<K> {
    set r | r in rows :: r.k
  }

  /** Hashes are of the keys, in the vector as in the table. */
  lemma VectorFits<K(!new), V>(o: Ops<Key<K>, V>, nrKeys: nat, vecSize: nat, v: Vector<K, V>, rows: seq<Row<Key<K>, V>>)
    requires IsVector(o, nrKeys, vecSize, v) && Hashed(o, rows)
    ensures Fitting(v.keys, v.hashes, |v.values|, rows)
  {
    hide CompositeKey;
  }

  /** If no two keys that occur share a hash, no tuple clashes. */
  lemma VectorClashFree<K(!new), V>(o: Ops<Key<K>, V>, all: seq<Row<Key<K>, V>>, nrKeys: nat, vecSize: nat,
                                    v: Vector<K, V>, rows: seq<Row<Key<K>, V>>)
    requires IsVector(o, nrKeys, vecSize, v) && CollisionFree(o, all) && Hashed(o, rows)
    requires Known(all, rows) && Known(all, RowsOfVector(o, v))
    ensures ClashFree(v.keys, v.hashes, rows)
  {
    hide CompositeKey, Older;
    var n := |v.values|;
    forall x: nat | x < n ensures Has(all, CompositeKey(v.keys)(x)) {
      assert RowsOfVector(o, v)[x].k == CompositeKey(v.keys)(x);
    }
    forall i | 0 <= i < |rows| ensures Has(all, rows[i].k) {
      assert Has(rows, rows[i].k);
    }
  }

  lemma {:induction false} KeysOfSize<K>(ds: seq<Input<K>>, n: nat)
    ensures |KeysOf(ds, n)| <= n
  {
    hide CompositeKey;
    if n > 0 {
      KeysOfSize(ds, n - 1);
      assert KeysOf(ds, n) == KeysOf(ds, n - 1) + {CompositeKey(ds)(n - 1)};
    } else {
      assert KeysOf(ds, 0) == {};
    }
  }

  lemma SubsetSize<T>(a: set<T>, b: set<T>)
    requires a <= b
    ensures |a| <= |b|
  {
    assert b == a + (b - a);
  }

  /** A vector has no more keys than tuples, and no more than there are. */
  lemma FewKeys<K(!new), V>(o: Ops<Key<K>, V>, all: seq<Row<Key<K>, V>>, v: Vector<K, V>)
    requires Known(all, RowsOfVector(o, v))
    ensures |KeysOf(v.keys, |v.values|)| <= |v.values|
    ensures |KeysOf(v.keys, |v.values|)| <= |KeySet(all)|
  {
    hide CompositeKey;
    KeysOfSize(v.keys, |v.values|);
    forall k | k in KeysOf(v.keys, |v.values|) ensures k in KeySet(all) {
      var x: nat :| x < |v.values| && CompositeKey(v.keys)(x) == k;
      assert RowsOfVector(o, v)[x].k == k;
      assert Has(all, k);
    }
    SubsetSize(KeysOf(v.keys, |v.values|), KeySet(all));
  }

  // --------------------------------------------------------- one vector

  lemma {:induction false} InitsSum<K, V(!new)>(o: Ops<K, V>, rows: seq<Row<K, V>>, k: K)
    requires Commutes(o) && forall i :: 0 <= i < |rows| ==> rows[i].v == o.init
    ensures Sum(o, rows, k) == o.init
  {
    if rows != [] {
      InitsSum(o, rows[..|rows| - 1], k);
      assert o.update(o.init, o.init) == o.init;
    }
  }

  /** Groups that are new and hold the initial value count as nothing beside the tuples they are
      made for. */
  lemma NewCountNothing<K(!new), V(!new)>(o: Ops<K, V>, rows: seq<Row<K, V>>, more: seq<Row<K, V>>,
                                          tuples: seq<Row<K, V>>)
    requires Commutes(o)
    requires forall i :: 0 <= i < |more| ==> more[i].v == o.init && Has(tuples, more[i].k)
    ensures SameTotals(o, rows + more + tuples, rows + tuples)
  {
    hide Sum, Commutes;
    forall k
      ensures Sum(o, rows + more + tuples, k) == Sum(o, rows + tuples, k)
      ensures Has(rows + more + tuples, k) <==> Has(rows + tuples, k) {
      SumConcat(o, rows + more, tuples, k);
      SumConcat(o, rows, more, k);
      SumConcat(o, rows, tuples, k);
      InitsSum(o, more, k);
      AddInit(o, Sum(o, rows, k));
      HasConcat(rows + more, tuples, k);
      HasConcat(rows, more, k);
      HasConcat(rows, tuples, k);
    }
  }

  lemma AddInit<K, V(!new)>(o: Ops<K, V>, a: V)
    requires Commutes(o)
    ensures o.update(a, o.init) == a
  {
    assert o.update(a, o.init) == o.update(o.init, a);
  }

  /** The same keys and hashes in the same entries. */
  ghost predicate SameKeys<K, V>(a: seq<Row<K, V>>, b: seq<Row<K, V>>) {
    |a| == |b| && forall e :: 0 <= e < |a| ==> a[e].k == b[e].k && a[e].hash == b[e].hash
  }

  /** updateGroups: every tuple updates the group it points to. If that is the group of its key, it counts
      as one more row. */
  method UpdateGroups<K(==, !new), V(!new)>(o: Ops<Key<K>, V>, t: Hashmapx<Key<K>, V>, v: Vector<K, V>,
                                            htMatches: array<nat>)
    requires t.Valid() && Commutes(o) && |v.values| <= htMatches.Length
    requires forall x :: 0 <= x < |v.values| ==> htMatches[x] < |t.rows|
    modifies t`rows
    ensures t.Valid() && SameKeys(old(t.rows), t.rows)
    ensures old(Groups(o, t.rows)) && AllMatch(v.keys, old(t.rows), |v.values|, htMatches[..]) ==>
      Groups(o, t.rows) && SameTotals(o, t.rows, old(t.rows) + RowsOfVector(o, v))
  {
    hide Hashmapx.Threaded, Hashmapx.Sized, SameTotals, Commutes, Sum, Groups, CompositeKey, AllMatch, Matches;
    ghost var before, rows := t.rows, RowsOfVector(o, v);
    ghost var right := Groups(o, before) && AllMatch(v.keys, before, |v.values|, htMatches[..]);
    assert before + rows[..0] == before;
    TotalsSame(o, before);
    var x := 0;
    while x < |v.values|
      invariant x <= |v.values| && t.Valid() && SameKeys(before, t.rows)
      invariant right ==> Groups(o, t.rows) && SameTotals(o, t.rows, before + rows[..x])
    {
      var e := htMatches[x];
      ghost var was, key := t.rows, CompositeKey(v.keys)(x);
      if right { MatchAt(v.keys, before, |v.values|, htMatches[..], x); }
      t.SetValue(e, o.update(t.rows[e].v, v.values[x]));
      if right {
        AbsorbCounts(o, was, e, key, v.values[x]);
        assert t.rows == Absorb(o, was, e, key, v.values[x]);
        TotalsMore(o, was, before + rows[..x], [rows[x]]);
        assert before + rows[..x] + [rows[x]] == before + rows[..x + 1];
        TotalsChain(o, t.rows, was + [rows[x]], before + rows[..x + 1]);
      }
      x := x + 1;
    }
    assert rows[..x] == rows;
  }

  lemma MatchAt<K, V>(ds: seq<Input<K>>, rows: seq<Row<Key<K>, V>>, n: nat, matches: seq<nat>, x: nat)
    requires AllMatch(ds, rows, n, matches) && x < n
    ensures matches[x] < |rows| && rows[matches[x]].k == CompositeKey(ds)(x)
  {
  }

  // ----------------------------------------------------------------- calls

  /** A vector as it meets the groups of a table: which there are, the capacity of the table, and that of the
      small table that partitions what is not found; then the groups there are afterwards, and to which of
      them each tuple points. */
  datatype Call<K, V> = Call(
    v: Vector<K, V>, rows: seq<Row<Key<K>, V>>, capacity: nat, smallCapacity: nat,
    after: seq<Row<Key<K>, V>>, matches: seq<nat>)

  /** findGroups lists the tuples without a group and no others. */
  ghost predicate Right<K, V>(c: Call<K, V>) {
    c.capacity > 0 && ListsRight(c.v.keys, c.v.hashes, c.capacity, c.rows)
  }

  /** What is listed fits into the buffer, and partitioning it is not divided. */
  ghost predicate Runs<K, V>(c: Call<K, V>, room: nat) {
    c.capacity > 0 && c.smallCapacity > 0 &&
    Creatable(c.v.keys, c.v.hashes, c.capacity, c.rows, room, c.smallCapacity)
  }

  ghost predicate AllRight<K, V>(calls: seq<Call<K, V>>) {
    forall i :: 0 <= i < |calls| ==> Right(calls[i])
  }

  /** Every tuple has come to the group of its key, and no key has two. */
  ghost predicate Sound<K, V>(c: Call<K, V>) {
    Distinct(c.after) && AllMatch(c.v.keys, c.after, |c.v.values|, c.matches)
  }

  ghost predicate AllSound<K, V>(calls: seq<Call<K, V>>) {
    forall i :: 0 <= i < |calls| ==> Sound(calls[i])
  }

  ghost predicate AllRun<K, V>(calls: seq<Call<K, V>>, room: nat) {
    forall i :: 0 <= i < |calls| ==> Runs(calls[i], room)
  }

  lemma OneMoreCall<K, V>(calls: seq<Call<K, V>>, c: Call<K, V>, room: nat)
    ensures AllRight(calls + [c]) <==> AllRight(calls) && Right(c)
    ensures AllSound(calls + [c]) <==> AllSound(calls) && Sound(c)
    ensures AllRun(calls + [c], room) <==> AllRun(calls, room) && Runs(c, room)
  {
    hide Right, Sound, Runs;
    var more := calls + [c];
    assert more[|calls|] == c && forall i :: 0 <= i < |calls| ==> calls[i] == more[i];
  }

  lemma NoCalls<K(!new), V>(room: nat)
    ensures AllRight<K, V>([]) && AllSound<K, V>([]) && AllRun<K, V>([], room)
  {
  }

  /** The first calls are for these vectors. */
  ghost predicate OfVectors<K, V>(calls: seq<Call<K, V>>, vectors: seq<Vector<K, V>>) {
    forall i :: 0 <= i < |calls| && i < |vectors| ==> calls[i].v == vectors[i]
  }

  lemma ColumnsKnown<K(!new), V>(nrKeys: nat, all: seq<Row<Key<K>, V>>, rows: seq<Row<Key<K>, V>>, ds: seq<Input<K>>)
    requires Shaped(nrKeys, all) && Known(all, rows) && |ds| == nrKeys
    ensures Columns(ds, rows)
  {
    forall i | 0 <= i < |rows| ensures |rows[i].k| == nrKeys {
      assert Has(rows, rows[i].k);
      assert IsKey(nrKeys, rows[i].k);
    }
  }

  /** Updating values changes neither which keys there are nor who points to which. */
  lemma SameGroups<K, V>(ds: seq<Input<K>>, n: nat, matches: seq<nat>, a: seq<Row<Key<K>, V>>, b: seq<Row<Key<K>, V>>)
    requires SameKeys(a, b)
    ensures Distinct(a) <==> Distinct(b)
    ensures AllMatch(ds, a, n, matches) <==> AllMatch(ds, b, n, matches)
  {
    hide CompositeKey;
  }

  // ------------------------------------------------------------ row format

  ghost predicate AreKeys<K, V>(nrKeys: nat, rows: seq<Row<Key<K>, V>>) {
    && (forall x :: 0 <= x < |rows| ==> |rows[x].k| == nrKeys)
    && (forall x, i :: 0 <= x < |rows| && 0 <= i < nrKeys ==> rows[x].k[i].Some?)
  }

  /** A vector of rows of a deque: keys and hashes are read from the rows themselves. */
  function RowVector<K, V>(nrKeys: nat, rows: seq<Row<Key<K>, V>>): (v: Vector<K, V>)
    requires AreKeys(nrKeys, rows)
  {
    Vector(seq(nrKeys, i requires 0 <= i < nrKeys => RowColumn(nrKeys, rows, i)), HashesOf(rows),
           seq(|rows|, x requires 0 <= x < |rows| => rows[x].v))
  }

  /** One part of the keys, at the same offset in every row. */
  function RowColumn<K, V>(nrKeys: nat, rows: seq<Row<Key<K>, V>>, i: nat): (d: Input<K>)
    requires i < nrKeys && AreKeys(nrKeys, rows)
    ensures d.hashes == HashesOf(rows)
    ensures forall x: nat :: x < |rows| ==> d.Has(x) && KeyOf(d)(x) == rows[x].k[i]
  {
    Input(seq(|rows|, x requires 0 <= x < |rows| => rows[x].k[i].value), HashesOf(rows),
          seq(|rows|, x requires 0 <= x < |rows| => x))
  }

  lemma RowVectorKey<K, V>(nrKeys: nat, rows: seq<Row<Key<K>, V>>, x: nat)
    requires AreKeys(nrKeys, rows) && x < |rows|
    ensures CompositeKey(RowVector(nrKeys, rows).keys)(x) == rows[x].k
  {
    hide CompositeKey, RowColumn, KeyOf;
    var v := RowVector(nrKeys, rows);
    CompositeAt(v.keys, x);
    forall i | 0 <= i < nrKeys ensures CompositeKey(v.keys)(x)[i] == rows[x].k[i] {
      assert v.keys[i] == RowColumn(nrKeys, rows, i);
    }
  }

  /** Reading rows as a vector loses nothing. */
  lemma RowsOfRowVector<K(!new), V>(o: Ops<Key<K>, V>, nrKeys: nat, vecSize: nat, rows: seq<Row<Key<K>, V>>)
    requires AreKeys(nrKeys, rows) && Hashed(o, rows) && |rows| <= vecSize
    ensures var v := RowVector(nrKeys, rows); IsVector(o, nrKeys, vecSize, v) && RowsOfVector(o, v) == rows
  {
    hide CompositeKey, RowColumn;
    var v := RowVector(nrKeys, rows);
    forall x: nat | x < |rows| ensures CompositeKey(v.keys)(x) == rows[x].k {
      RowVectorKey(nrKeys, rows, x);
    }
    forall i | 0 <= i < nrKeys ensures v.keys[i] == RowColumn(nrKeys, rows, i) { }
  }

  ghost function RowsOfVectors<K, V>(o: Ops<Key<K>, V>, vectors: seq<Vector<K, V>>): seq<Row<Key<K>, V>> {
    if vectors == [] then []
    else RowsOfVectors(o, vectors[..|vectors| - 1]) + RowsOfVector(o, vectors[|vectors| - 1])
  }

  lemma RowsOfNoVectors<K, V>(o: Ops<Key<K>, V>, vectors: seq<Vector<K, V>>)
    ensures RowsOfVectors(o, vectors[..0]) == []
  {
  }

  lemma RowsOfMore<K, V>(o: Ops<Key<K>, V>, vectors: seq<Vector<K, V>>, i: nat)
    requires i < |vectors|
    ensures RowsOfVectors(o, vectors[..i + 1]) == RowsOfVectors(o, vectors[..i]) + RowsOfVector(o, vectors[i])
  {
    assert vectors[..i + 1][..i] == vectors[..i];
  }

  /** What createMissingGroups adds are the keys of tuples, with their hashes, and not counting
      anything yet. */
  lemma NewForTuples<K(!new), V(!new)>(o: Ops<Key<K>, V>, nrKeys: nat, vecSize: nat, v: Vector<K, V>,
                                       more: seq<Row<Key<K>, V>>)
    requires IsVector(o, nrKeys, vecSize, v)
    requires forall i :: 0 <= i < |more| ==> NewGroup(v.keys, v.hashes, more[i], |v.values|, o.init)
    ensures forall i :: 0 <= i < |more| ==> more[i].v == o.init && Has(RowsOfVector(o, v), more[i].k)
    ensures Hashed(o, more)
  {
    hide CompositeKey;
    forall i | 0 <= i < |more|
      ensures more[i].v == o.init && Has(RowsOfVector(o, v), more[i].k) && more[i].hash == o.hash(more[i].k) {
      var x: nat :| x < |v.values| && Made(v.keys, v.hashes, more[i], x, o.init);
      assert RowsOfVector(o, v)[x].k == more[i].k;
    }
  }

  lemma MoreGroups<K, V>(o: Ops<K, V>, rows: seq<Row<K, V>>, more: seq<Row<K, V>>)
    requires Hashed(o, rows) && Hashed(o, more) && Distinct(rows + more)
    ensures Groups(o, rows + more)
  {
  }

  lemma KeysKnown<K(!new), V(!new)>(o: Ops<K, V>, all: seq<Row<K, V>>, a: seq<Row<K, V>>, more: seq<Row<K, V>>,
                                     tuples: seq<Row<K, V>>, rows: seq<Row<K, V>>)
    requires Known(all, a) && Known(all, tuples) && SameKeys(a + more, rows) && Hashed(o, a) && Hashed(o, more)
    requires forall i :: 0 <= i < |more| ==> Has(tuples, more[i].k)
    ensures Known(all, rows) && Hashed(o, rows)
  {
    forall k | Has(rows, k) ensures Has(all, k) {
      var i :| 0 <= i < |rows| && rows[i].k == k;
      if i < |a| {
        assert a[i].k == k;
      } else {
        assert more[i - |a|].k == k;
      }
    }
    forall i | 0 <= i < |rows| ensures rows[i].hash == o.hash(rows[i].k) {
      assert rows[i].k == (a + more)[i].k;
    }
  }

  lemma StillKnown<K(!new), V>(o: Ops<K, V>, all: seq<Row<K, V>>, a: seq<Row<K, V>>, b: seq<Row<K, V>>,
                               rows: seq<Row<K, V>>)
    requires Known(all, a) && Known(all, b) && SameTotals(o, rows, a + b)
    ensures Known(all, rows)
  {
    forall k | Has(rows, k) ensures Has(all, k) { HasConcat(a, b, k); }
  }

  lemma SliceKnown<K(!new), V>(o: Ops<K, V>, all: seq<Row<K, V>>, rows: seq<Row<K, V>>, a: nat, b: nat)
    requires Known(all, rows) && Hashed(o, rows) && a <= b <= |rows|
    ensures Known(all, rows[a..b]) && Hashed(o, rows[a..b])
  {
    forall k | Has(rows[a..b], k) ensures Has(all, k) {
      var i :| 0 <= i < b - a && rows[a..b][i].k == k;
      assert rows[a + i].k == k;
    }
  }

  lemma NothingKnown<K(!new), V>(o: Ops<K, V>, all: seq<Row<K, V>>)
    ensures Known(all, []) && Groups(o, [])
  {
  }

  // ------------------------------------------------------------ all vectors

  /** The tuples of all workers. */
  ghost function AllTuples<K, V>(o: Ops<Key<K>, V>, inputs: seq<seq<Vector<K, V>>>): seq<Row<Key<K>, V>> {
    if inputs == [] then [] else AllTuples(o, inputs[..|inputs| - 1]) + RowsOfVectors(o, inputs[|inputs| - 1])
  }

  /** Every worker's child returns vectors of the same kind. */
  ghost predicate AreVectors<K, V>(o: Ops<Key<K>, V>, nrKeys: nat, vecSize: nat, vectors: seq<Vector<K, V>>) {
    forall i :: 0 <= i < |vectors| ==> IsVector(o, nrKeys, vecSize, vectors[i])
  }

  lemma {:induction false} InVectors<K, V>(o: Ops<Key<K>, V>, vectors: seq<Vector<K, V>>, i: nat, k: Key<K>)
    requires i < |vectors| && Has(RowsOfVector(o, vectors[i]), k)
    ensures Has(RowsOfVectors(o, vectors), k)
  {
    var n := |vectors| - 1;
    HasConcat(RowsOfVectors(o, vectors[..n]), RowsOfVector(o, vectors[n]), k);
    if i < n { InVectors(o, vectors[..n], i, k); }
  }

  lemma {:induction false} InTuples<K, V>(o: Ops<Key<K>, V>, inputs: seq<seq<Vector<K, V>>>, w: nat, k: Key<K>)
    requires w < |inputs| && Has(RowsOfVectors(o, inputs[w]), k)
    ensures Has(AllTuples(o, inputs), k)
  {
    var n := |inputs| - 1;
    HasConcat(AllTuples(o, inputs[..n]), RowsOfVectors(o, inputs[n]), k);
    if w < n { InTuples(o, inputs[..n], w, k); }
  }

  /** The vectors of a worker bring nothing that is not among all tuples. */
  lemma VectorsKnown<K(!new), V>(o: Ops<Key<K>, V>, inputs: seq<seq<Vector<K, V>>>, w: nat)
    requires w < |inputs|
    ensures forall i :: 0 <= i < |inputs[w]| ==> Known(AllTuples(o, inputs), RowsOfVector(o, inputs[w][i]))
  {
    hide RowsOfVector, AllTuples, RowsOfVectors;
    forall i: nat, k | i < |inputs[w]| && Has(RowsOfVector(o, inputs[w][i]), k) ensures Has(AllTuples(o, inputs), k) {
      InVectors(o, inputs[w], i, k);
      InTuples(o, inputs, w, k);
    }
  }

  lemma {:induction false} VectorsShaped<K(!new), V>(o: Ops<Key<K>, V>, nrKeys: nat, vecSize: nat,
                                                     vectors: seq<Vector<K, V>>)
    requires AreVectors(o, nrKeys, vecSize, vectors)
    ensures Shaped(nrKeys, RowsOfVectors(o, vectors))
  {
    if vectors != [] {
      var n := |vectors| - 1;
      VectorsShaped(o, nrKeys, vecSize, vectors[..n]);
      assert IsVector(o, nrKeys, vecSize, vectors[n]);
      forall k | Has(RowsOfVectors(o, vectors), k) ensures IsKey(nrKeys, k) {
        HasConcat(RowsOfVectors(o, vectors[..n]), RowsOfVector(o, vectors[n]), k);
        if Has(RowsOfVector(o, vectors[n]), k) { VectorShaped(o, nrKeys, vecSize, vectors[n], k); }
      }
    }
  }

  lemma VectorShaped<K, V>(o: Ops<Key<K>, V>, nrKeys: nat, vecSize: nat, v: Vector<K, V>, k: Key<K>)
    requires IsVector(o, nrKeys, vecSize, v) && Has(RowsOfVector(o, v), k)
    ensures IsKey(nrKeys, k)
  {
    var x: nat :| x < |v.values| && RowsOfVector(o, v)[x].k == k;
    CompositeAt(v.keys, x);
    hide CompositeKey;
    forall i | 0 <= i < nrKeys ensures k[i].Some? {
      assert v.keys[i].Has(x);
      assert k[i] == KeyOf(v.keys[i])(x);
    }
  }

  lemma {:induction false} TuplesShaped<K(!new), V>(o: Ops<Key<K>, V>, nrKeys: nat, vecSize: nat,
                                                    inputs: seq<seq<Vector<K, V>>>)
    requires forall w :: 0 <= w < |inputs| ==> AreVectors(o, nrKeys, vecSize, inputs[w])
    ensures Shaped(nrKeys, AllTuples(o, inputs))
  {
    hide IsKey;
    if inputs != [] {
      var n := |inputs| - 1;
      TuplesShaped(o, nrKeys, vecSize, inputs[..n]);
      VectorsShaped(o, nrKeys, vecSize, inputs[n]);
      forall k | Has(AllTuples(o, inputs), k) ensures IsKey(nrKeys, k) {
        HasConcat(AllTuples(o, inputs[..n]), RowsOfVectors(o, inputs[n]), k);
      }
    }
  }

  lemma TuplesMore<K(!new), V(!new)>(o: Ops<Key<K>, V>, inputs: seq<seq<Vector<K, V>>>, w: nat,
                                    deques: seq<Deque<Key<K>, V>>, d: Deque<Key<K>, V>)
    requires Commutes(o) && w < |inputs| && SameTotals(o, DequeRows(deques), AllTuples(o, inputs[..w]))
    requires SameTotals(o, Join(d.partitions), RowsOfVectors(o, inputs[w]))
    ensures SameTotals(o, DequeRows(deques + [d]), AllTuples(o, inputs[..w + 1]))
  {
    hide SameTotals, Commutes, Sum, RowsOfVectors, Join;
    var a, b, tuples := DequeRows(deques), Join(d.partitions), RowsOfVectors(o, inputs[w]);
    assert (deques + [d])[..|deques|] == deques && inputs[..w + 1][..w] == inputs[..w];
    assert DequeRows(deques + [d]) == a + b && AllTuples(o, inputs[..w + 1]) == AllTuples(o, inputs[..w]) + tuples;
    TotalsMore(o, a, AllTuples(o, inputs[..w]), b);
    TotalsAfter(o, AllTuples(o, inputs[..w]), b, tuples);
    TotalsChain(o, a + b, AllTuples(o, inputs[..w]) + b, AllTuples(o, inputs[..w]) + tuples);
  }

  lemma NoTuples<K(!new), V>(o: Ops<Key<K>, V>)
    ensures SameTotals(o, DequeRows([]), AllTuples(o, []))
  {
  }

  // ---------------------------------------- what is in all these tuples

  lemma {:induction false} VectorsAround<K, V>(o: Ops<Key<K>, V>, vectors: seq<Vector<K, V>>, i: nat)
    requires i <= |vectors|
    ensures RowsOfVectors(o, vectors) == RowsOfVectors(o, vectors[..i]) + RowsOfVectors(o, vectors[i..])
  {
    hide RowsOfVector;
    var n := |vectors| - 1;
    if i == |vectors| {
      assert vectors[..i] == vectors && vectors[i..] == [];
    } else {
      VectorsAround(o, vectors[..n], i);
      assert vectors[..n][..i] == vectors[..i] && vectors[..n][i..] == vectors[i..][..n - i];
      assert vectors[i..][n - i] == vectors[n];
    }
  }

  lemma {:induction false} TuplesAround<K, V>(o: Ops<Key<K>, V>, inputs: seq<seq<Vector<K, V>>>, w: nat)
    requires w < |inputs|
    ensures AllTuples(o, inputs) ==
            AllTuples(o, inputs[..w]) + RowsOfVectors(o, inputs[w]) + AllTuples(o, inputs[w + 1..])
  {
    hide RowsOfVectors;
    var n := |inputs| - 1;
    if w == n {
      assert inputs[w + 1..] == [];
    } else {
      TuplesAround(o, inputs[..n], w);
      assert inputs[..n][..w] == inputs[..w] && inputs[..n][w + 1..] == inputs[w + 1..][..n - w - 1];
      assert inputs[w + 1..][n - w - 1] == inputs[n];
    }
  }

  /** One vector more, anywhere among those of any worker: every fold takes in the fold of its tuples, each of
      which RowsOfVector has once. Without vectors every fold is the initial value. */
  lemma VectorCounts<K, V(!new)>(o: Ops<Key<K>, V>, inputs: seq<seq<Vector<K, V>>>, w: nat, i: nat, v: Vector<K, V>,
                                 k: Key<K>)
    requires Commutes(o) && w < |inputs| && i <= |inputs[w]|
    ensures Sum(o, AllTuples(o, inputs[w := inputs[w][..i] + [v] + inputs[w][i..]]), k) ==
            o.update(Sum(o, AllTuples(o, inputs), k), Sum(o, RowsOfVector(o, v), k))
    ensures (forall t :: 0 <= t < |inputs| ==> inputs[t] == []) ==> Sum(o, AllTuples(o, inputs), k) == o.init
  {
    hide Sum, RowsOfVector, RowsOfVectors, AllTuples, Commutes;
    var more := inputs[w := inputs[w][..i] + [v] + inputs[w][i..]];
    var a, b := AllTuples(o, inputs[..w]), AllTuples(o, inputs[w + 1..]);
    var x, r, y := RowsOfVectors(o, inputs[w][..i]), RowsOfVector(o, v), RowsOfVectors(o, inputs[w][i..]);
    TuplesAround(o, inputs, w);
    TuplesAround(o, more, w);
    assert more[..w] == inputs[..w] && more[w + 1..] == inputs[w + 1..];
    VectorsAround(o, inputs[w], i);
    VectorsAround(o, more[w], i + 1);
    assert more[w][..i + 1][..i] == inputs[w][..i] && more[w][i + 1..] == inputs[w][i..];
    RowsOfMore(o, more[w], i);
    assert more[w][..i] == inputs[w][..i];
    assert AllTuples(o, inputs) == (a + x) + (y + b);
    assert AllTuples(o, more) == (a + x) + r + (y + b);
    SumBetween(o, a + x, r, y + b, k);
    NoVectors(o, inputs, k);
  }

  lemma SumBetween<K, V(!new)>(o: Ops<K, V>, a: seq<Row<K, V>>, r: seq<Row<K, V>>, b: seq<Row<K, V>>, k: K)
    requires Commutes(o)
    ensures Sum(o, a + r + b, k) == o.update(Sum(o, a + b, k), Sum(o, r, k))
  {
    SumConcat(o, a + r, b, k);
    SumConcat(o, a, r, k);
    SumConcat(o, a, b, k);
    hide Sum;
    var p, q, m := Sum(o, a, k), Sum(o, b, k), Sum(o, r, k);
    assert o.update(o.update(p, m), q) == o.update(p, o.update(m, q)) == o.update(p, o.update(q, m));
    assert o.update(o.update(p, q), m) == o.update(p, o.update(q, m));
  }

  lemma {:induction false} NoVectors<K, V>(o: Ops<Key<K>, V>, inputs: seq<seq<Vector<K, V>>>, k: Key<K>)
    ensures (forall t :: 0 <= t < |inputs| ==> inputs[t] == []) ==> Sum(o, AllTuples(o, inputs), k) == o.init
  {
    if inputs != [] && forall t :: 0 <= t < |inputs| ==> inputs[t] == [] {
      var n := |inputs| - 1;
      NoVectors(o, inputs[..n], k);
      assert RowsOfVectors(o, inputs[n]) == [];
      assert AllTuples(o, inputs) == AllTuples(o, inputs[..n]);
    }
  }

  /** Some vector of some worker has a tuple with this key. */
  ghost predicate Occurs<K, V>(inputs: seq<seq<Vector<K, V>>>, k: Key<K>) {
    exists w, i, x: nat :: 0 <= w < |inputs| && 0 <= i < |inputs[w]| && InVector(inputs[w][i], x, k)
  }

  ghost predicate InVector<K, V>(v: Vector<K, V>, x: nat, k: Key<K>) {
    x < |v.values| && |k| == |v.keys| && forall c :: 0 <= c < |k| ==> k[c] == KeyOf(v.keys[c])(x)
  }

  lemma VectorHas<K, V>(o: Ops<Key<K>, V>, v: Vector<K, V>, k: Key<K>)
    ensures Has(RowsOfVector(o, v), k) <==> exists x: nat :: InVector(v, x, k)
  {
    forall x: nat | x < |v.values| ensures InVector(v, x, k) <==> RowsOfVector(o, v)[x].k == k {
      CompositeAt(v.keys, x);
      hide CompositeKey, KeyOf;
      if InVector(v, x, k) { assert k == CompositeKey(v.keys)(x); }
    }
    if Has(RowsOfVector(o, v), k) {
      var x: nat :| x < |v.values| && RowsOfVector(o, v)[x].k == k;
      assert InVector(v, x, k);
    }
  }

  lemma {:induction false} VectorsHave<K, V>(o: Ops<Key<K>, V>, vectors: seq<Vector<K, V>>, k: Key<K>)
    ensures Has(RowsOfVectors(o, vectors), k) <==>
      exists i :: 0 <= i < |vectors| && Has(RowsOfVector(o, vectors[i]), k)
  {
    hide RowsOfVector;
    if i: nat :| i < |vectors| && Has(RowsOfVector(o, vectors[i]), k) { InVectors(o, vectors, i, k); }
    if vectors != [] && Has(RowsOfVectors(o, vectors), k) {
      var n := |vectors| - 1;
      HasConcat(RowsOfVectors(o, vectors[..n]), RowsOfVector(o, vectors[n]), k);
      VectorsHave(o, vectors[..n], k);
      if i: nat :| i < n && Has(RowsOfVector(o, vectors[..n][i]), k) { assert vectors[i] == vectors[..n][i]; }
    }
  }

  lemma {:induction false} TuplesHave<K, V>(o: Ops<Key<K>, V>, inputs: seq<seq<Vector<K, V>>>, k: Key<K>)
    ensures Has(AllTuples(o, inputs), k) <==>
      exists w :: 0 <= w < |inputs| && Has(RowsOfVectors(o, inputs[w]), k)
  {
    hide RowsOfVectors;
    if w: nat :| w < |inputs| && Has(RowsOfVectors(o, inputs[w]), k) { InTuples(o, inputs, w, k); }
    if inputs != [] && Has(AllTuples(o, inputs), k) {
      var n := |inputs| - 1;
      HasConcat(AllTuples(o, inputs[..n]), RowsOfVectors(o, inputs[n]), k);
      TuplesHave(o, inputs[..n], k);
      if w: nat :| w < n && Has(RowsOfVectors(o, inputs[..n][w]), k) { assert inputs[w] == inputs[..n][w]; }
    }
  }

  lemma KeysOccur<K, V>(o: Ops<Key<K>, V>, inputs: seq<seq<Vector<K, V>>>, k: Key<K>)
    ensures Has(AllTuples(o, inputs), k) <==> Occurs(inputs, k)
  {
    hide AllTuples, RowsOfVectors, RowsOfVector, InVector;
    TuplesHave(o, inputs, k);
    if w: nat :| w < |inputs| && Has(RowsOfVectors(o, inputs[w]), k) {
      VectorsHave(o, inputs[w], k);
      var i: nat :| i < |inputs[w]| && Has(RowsOfVector(o, inputs[w][i]), k);
      VectorHas(o, inputs[w][i], k);
      var x: nat :| InVector(inputs[w][i], x, k);
    }
    if w, i, x: nat :| 0 <= w < |inputs| && 0 <= i < |inputs[w]| && InVector(inputs[w][i], x, k) {
      VectorHas(o, inputs[w][i], k);
      VectorsHave(o, inputs[w], k);
    }
  }
}
