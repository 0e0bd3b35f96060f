/** What aggregation means: for every key the fold of its values. */
module Folds {
  import opened Bits

  /** A tuple to aggregate, or a group: key, hash of the key, and a value. */
  datatype Row<K, V> = Row(hash: Hash, k: K, v: V)

  /** HASH, UPDATE and the initial value of a GroupBy. */
  datatype Ops<!K, !V> = Ops(hash: K -> Hash, update: (V, V) -> V, init: V)

  /** The order of updates does not matter, and starting from init adds nothing. */
  ghost predicate Commutes<K, V(!new)>(o: Ops<K, V>) {
    && (forall a: V, b: V :: o.update(a, b) == o.update(b, a))
    && (forall a: V, b: V, c: V :: o.update(o.update(a, b), c) == o.update(a, o.update(b, c)))
    && (forall a: V :: o.update(o.init, a) == a)
  }

  /** All values of a key, folded. */
  function Sum<K(==), V>(o: Ops<K, V>, rows: seq<Row<K, V>>, k: K): V {
    if rows == [] then o.init
    else
      var r := rows[|rows| - 1];
      var rest := Sum(o, rows[..|rows| - 1], k);
      if r.k == k then o.update(rest, r.v) else rest
  }

  ghost predicate Has<K, V>(rows: seq<Row<K, V>>, k: K) {
    exists i :: 0 <= i < |rows| && rows[i].k == k
  }

  ghost predicate Hashed<K, V>(o: Ops<K, V>, rows: seq<Row<K, V>>) {
    forall i :: 0 <= i < |rows| ==> rows[i].hash == o.hash(rows[i].k)
  }

  /** No key twice. */
  ghost predicate Distinct<K, V>(rows: seq<Row<K, V>>) {
    forall i, j :: 0 <= i < j < |rows| ==> rows[i].k != rows[j].k
  }

  /** The same keys, with the same folds. */
  ghost predicate SameTotals<K(!new), V>(o: Ops<K, V>, a: seq<Row<K, V>>, b: seq<Row<K, V>>) {
    forall k :: (Has(a, k) <==> Has(b, k)) && Sum(o, a, k) == Sum(o, b, k)
  }

  function Join<T>(parts: seq<seq<T>>): seq<T> {
    if parts == [] then [] else Join(parts[..|parts| - 1]) + parts[|parts| - 1]
  }

  // --------------------------------------------------------------- algebra

  lemma {:induction false} SumConcat<K, V(!new)>(o: Ops<K, V>, a: seq<Row<K, V>>, b: seq<Row<K, V>>, k: K)
    requires Commutes(o)
    ensures Sum(o, a + b, k) == o.update(Sum(o, a, k), Sum(o, b, k))
  {
    if b == [] {
      assert a + b == a;
      assert o.update(Sum(o, a, k), o.init) == o.update(o.init, Sum(o, a, k));
    } else {
      assert (a + b)[..|a + b| - 1] == a + b[..|b| - 1];
      SumConcat(o, a, b[..|b| - 1], k);
    }
  }

  lemma HasConcat<K, V>(a: seq<Row<K, V>>, b: seq<Row<K, V>>, k: K)
    ensures Has(a + b, k) <==> Has(a, k) || Has(b, k)
  {
    if Has(a, k) {
      var i :| 0 <= i < |a| && a[i].k == k;
      assert (a + b)[i].k == k;
    }
    if Has(b, k) {
      var i :| 0 <= i < |b| && b[i].k == k;
      assert (a + b)[|a| + i].k == k;
    }
  }

  lemma {:induction false} SumNone<K, V>(o: Ops<K, V>, rows: seq<Row<K, V>>, k: K)
    requires !Has(rows, k)
    ensures Sum(o, rows, k) == o.init
  {
    if rows != [] {
      HasConcat(rows[..|rows| - 1], [rows[|rows| - 1]], k);
      assert rows == rows[..|rows| - 1] + [rows[|rows| - 1]];
      assert rows[|rows| - 1].k != k;
      SumNone(o, rows[..|rows| - 1], k);
    }
  }

  /** With no key twice, each row holds the fold of its key. */
  lemma {:induction false} DistinctSum<K, V(!new)>(o: Ops<K, V>, rows: seq<Row<K, V>>, i: nat)
    requires Commutes(o) && Distinct(rows) && i < |rows|
    ensures Sum(o, rows, rows[i].k) == rows[i].v
  {
    var n := |rows| - 1;
    if i < n {
      DistinctSum(o, rows[..n], i);
    } else {
      SumNone(o, rows[..n], rows[i].k);
    }
  }

  lemma SumOne<K, V>(o: Ops<K, V>, r: Row<K, V>, k: K)
    ensures Sum(o, [r], k) == if r.k == k then o.update(o.init, r.v) else o.init
    ensures Has([r], k) <==> r.k == k
  {
    assert [r][..0] == [];
    assert [r][0].k == r.k;
  }

  /** Updating a group in place counts as one more row. */
  lemma UpdateCounts<K, V(!new)>(o: Ops<K, V>, rows: seq<Row<K, V>>, i: nat, v: V, k: K)
    requires Commutes(o) && i < |rows|
    ensures var r := rows[i];
      && Sum(o, rows[i := r.(v := o.update(r.v, v))], k) == o.update(Sum(o, rows, k), Sum(o, [r.(v := v)], k))
      && (Has(rows[i := r.(v := o.update(r.v, v))], k) <==> Has(rows, k))
  {
    var r := rows[i];
    var r' := r.(v := o.update(r.v, v));
    var a, b := rows[..i], rows[i + 1..];
    assert rows == a + [r] + b && rows[i := r'] == a + [r'] + b;
    SumConcat(o, a + [r], b, k);
    SumConcat(o, a + [r'], b, k);
    SumConcat(o, a, [r], k);
    SumConcat(o, a, [r'], k);
    SumOne(o, r, k);
    SumOne(o, r', k);
    SumOne(o, r.(v := v), k);
    HasConcat(a + [r], b, k);
    HasConcat(a + [r'], b, k);
    HasConcat(a, [r], k);
    HasConcat(a, [r'], k);
    if r.k == k {
      Regroup(o, Sum(o, a, k), r.v, v, Sum(o, b, k));
    }
  }

  lemma Regroup<K, V(!new)>(o: Ops<K, V>, a: V, x: V, y: V, b: V)
    requires Commutes(o)
    ensures o.update(o.update(a, o.update(o.init, o.update(x, y))), b)
         == o.update(o.update(o.update(a, o.update(o.init, x)), b), o.update(o.init, y))
  {
    var u := o.update;
    assert u(u(u(a, x), b), y) == u(u(a, x), u(b, y)) == u(u(a, x), u(y, b)) == u(u(u(a, x), y), b);
  }

  lemma {:induction false} HasJoin<K, V>(parts: seq<seq<Row<K, V>>>, k: K)
    ensures Has(Join(parts), k) <==> exists p :: 0 <= p < |parts| && Has(parts[p], k)
  {
    if parts != [] {
      var n := |parts| - 1;
      HasJoin(parts[..n], k);
      HasConcat(Join(parts[..n]), parts[n], k);
      if exists p :: 0 <= p < n && Has(parts[p], k) {
        var p :| 0 <= p < n && Has(parts[p], k);
        assert Has(parts[..n][p], k);
      }
    }
  }

  /** If only part p has the key, all of its values are there. */
  lemma {:induction false} SumJoinOnly<K, V(!new)>(o: Ops<K, V>, parts: seq<seq<Row<K, V>>>, p: nat, k: K)
    requires Commutes(o) && p < |parts|
    requires forall q :: 0 <= q < |parts| && q != p ==> !Has(parts[q], k)
    ensures Sum(o, Join(parts), k) == Sum(o, parts[p], k)
  {
    var n := |parts| - 1;
    SumConcat(o, Join(parts[..n]), parts[n], k);
    if p == n {
      HasJoin(parts[..n], k);
      SumNone(o, Join(parts[..n]), k);
    } else {
      SumJoinOnly(o, parts[..n], p, k);
      SumNone(o, parts[n], k);
      assert o.update(Sum(o, parts[p], k), o.init) == o.update(o.init, Sum(o, parts[p], k));
    }
  }

  /** One more row in one of the parts. */
  lemma {:induction false} SumJoinPush<K, V(!new)>(o: Ops<K, V>, parts: seq<seq<Row<K, V>>>, p: nat, r: Row<K, V>, k: K)
    requires Commutes(o) && p < |parts|
    ensures Sum(o, Join(parts[p := parts[p] + [r]]), k) == o.update(Sum(o, Join(parts), k), Sum(o, [r], k))
  {
    hide Sum, Commutes;
    var n := |parts| - 1;
    var parts' := parts[p := parts[p] + [r]];
    SumConcat(o, Join(parts[..n]), parts[n], k);
    SumConcat(o, Join(parts'[..n]), parts'[n], k);
    if p == n {
      assert parts'[..n] == parts[..n];
      SumConcat(o, parts[n], [r], k);
      Associate(o, Sum(o, Join(parts[..n]), k), Sum(o, parts[n], k), Sum(o, [r], k));
    } else {
      assert parts'[..n] == parts[..n][p := parts[..n][p] + [r]];
      SumJoinPush(o, parts[..n], p, r, k);
      Swap(o, Sum(o, Join(parts[..n]), k), Sum(o, [r], k), Sum(o, parts[n], k));
    }
  }

  lemma Associate<K, V(!new)>(o: Ops<K, V>, a: V, b: V, c: V)
    requires Commutes(o)
    ensures o.update(o.update(a, b), c) == o.update(a, o.update(b, c))
  {
  }

  lemma Swap<K, V(!new)>(o: Ops<K, V>, a: V, b: V, c: V)
    requires Commutes(o)
    ensures o.update(o.update(a, b), c) == o.update(o.update(a, c), b)
  {
    var u := o.update;
    assert u(u(a, b), c) == u(a, u(b, c)) == u(a, u(c, b));
  }
}
