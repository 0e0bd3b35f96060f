/** The second phase of HashGroup as a protocol: partitions are taken from a shared counter, and the
    groups of each are handed out by the worker that took it. */
module Handouts {
  import opened Bits
  import opened Folds
  import opened Deques
  import opened TwoPhase

  /** What has been handed out is final: the folds of everything the source has for these keys. */
  ghost predicate Final<K(!new), V>(o: Ops<K, V>, source: seq<Row<K, V>>, rows: seq<Row<K, V>>) {
    forall i :: 0 <= i < |rows| ==> Has(source, rows[i].k) && rows[i].v == Sum(o, source, rows[i].k)
  }

  /** Groups handed out of one partition. */
  ghost predicate HandedOf<K(!new), V>(o: Ops<K, V>, deques: seq<Deque<K, V>>, shift: nat, p: nat,
                                       handed: seq<Row<K, V>>)
    requires shift <= 64
  {
    && Distinct(handed) && Final(o, DequeRows(deques), handed)
    && (forall k :: Has(handed, k) ==> PartitionFor(o, shift, k) == p)
  }

  lemma HandedPart<K(!new), V(!new)>(o: Ops<K, V>, deques: seq<Deque<K, V>>, shift: nat, p: nat, rows: seq<Row<K, V>>,
                                     handed: seq<Row<K, V>>)
    requires Commutes(o) && AllPlaced(o, deques, shift) && shift <= 64 && p < Pow2(64 - shift)
    requires Groups(o, rows) && SameTotals(o, rows, Column(o, deques, shift, p)) && handed <= rows
    ensures HandedOf(o, deques, shift, p, handed)
  {
    hide Sum, Commutes, Column, DequeRows, PartitionFor, Pow2;
    ColumnInPartition(o, deques, shift, p);
    forall i: nat | i < |handed|
      ensures Has(DequeRows(deques), handed[i].k) && handed[i].v == Sum(o, DequeRows(deques), handed[i].k) {
      var k := rows[i].k;
      assert Has(rows, k);
      DistinctSum(o, rows, i);
      ColumnHoldsKey(o, deques, shift, k);
    }
    forall k | Has(handed, k) ensures PartitionFor(o, shift, k) == p {
      var i :| 0 <= i < |handed| && handed[i].k == k;
      assert rows[i].k == k;
      assert Has(rows, k);
    }
  }

  lemma {:induction false} InDequeRows<K, V>(deques: seq<Deque<K, V>>, i: nat, k: K)
    requires i < |deques| && Has(Join(deques[i].partitions), k)
    ensures Has(DequeRows(deques), k)
  {
    var n := |deques| - 1;
    HasConcat(DequeRows(deques[..n]), Join(deques[n].partitions), k);
    if i < n { InDequeRows(deques[..n], i, k); }
  }

  /** A worker as the others see it: the partition it has taken, and what it has handed out of it. */
  datatype Hold<K, V> = Hold(consumed: bool, partition: nat, handed: seq<Row<K, V>>)

  ghost predicate Complete<K(!new), V>(rows: seq<Row<K, V>>, column: seq<Row<K, V>>) {
    forall k :: Has(column, k) ==> Has(rows, k)
  }

  ghost predicate OwnedBy<K, V>(holds: seq<Hold<K, V>>, w: nat, p: nat)
    requires w < |holds|
  {
    holds[w].consumed && holds[w].partition == p
  }

  /** The second phase. `owner` says who took each partition, `outs` what has been handed out of it:
      nothing before it is taken, all its groups once its owner has taken another. */
  ghost predicate Taken<K(!new), V>(o: Ops<K, V>, deques: seq<Deque<K, V>>, shift: nat, next: nat,
                                    holds: seq<Hold<K, V>>, owner: seq<nat>, outs: seq<seq<Row<K, V>>>)
    requires AllPlaced(o, deques, shift) && shift <= 64
  {
    && |owner| == next && |outs| == Pow2(64 - shift)
    && (forall w: nat :: w < |holds| && holds[w].consumed ==>
          holds[w].partition < next && owner[holds[w].partition] == w)
    && (forall w: nat :: w < |holds| && holds[w].consumed && holds[w].partition < |outs| ==>
          outs[holds[w].partition] == holds[w].handed)
    && (forall p: nat :: p < |outs| && p >= next ==> outs[p] == [])
    && (forall p: nat :: p < |outs| && p < next ==>
          owner[p] < |holds| && (OwnedBy(holds, owner[p], p) || Complete(outs[p], Column(o, deques, shift, p))))
  }

  /** What the parent operators have got. */
  ghost predicate Delivered<K(!new), V>(o: Ops<K, V>, deques: seq<Deque<K, V>>, shift: nat, outs: seq<seq<Row<K, V>>>,
                                        result: seq<Row<K, V>>)
    requires shift <= 64 && |outs| == Pow2(64 - shift)
  {
    && Distinct(result) && Final(o, DequeRows(deques), result)
    && (forall k :: Has(result, k) <==> Has(outs[PartitionFor(o, shift, k)], k))
  }

  /** A worker takes the next partition, having handed out all of the one it had. */
  lemma TakeKeeps<K(!new), V>(o: Ops<K, V>, deques: seq<Deque<K, V>>, shift: nat, next: nat, holds: seq<Hold<K, V>>,
                              owner: seq<nat>, outs: seq<seq<Row<K, V>>>, w: nat)
    requires AllPlaced(o, deques, shift) && shift <= 64 && Taken(o, deques, shift, next, holds, owner, outs)
    requires w < |holds|
    requires holds[w].consumed ==>
      holds[w].partition < |outs| && Complete(holds[w].handed, Column(o, deques, shift, holds[w].partition))
    ensures Taken(o, deques, shift, next + 1, holds[w := Hold(true, next, [])], owner + [w], outs)
  {
    hide Column, Complete, Pow2;
  }

  lemma HandOutKeeps<K(!new), V>(o: Ops<K, V>, deques: seq<Deque<K, V>>, shift: nat, next: nat, holds: seq<Hold<K, V>>,
                                 owner: seq<nat>, outs: seq<seq<Row<K, V>>>, w: nat, handed: seq<Row<K, V>>)
    requires AllPlaced(o, deques, shift) && shift <= 64 && Taken(o, deques, shift, next, holds, owner, outs)
    requires w < |holds|
    requires holds[w].consumed && holds[w].partition < |outs|
    ensures Taken(o, deques, shift, next, holds[w := holds[w].(handed := handed)], owner,
                  outs[holds[w].partition := handed])
  {
    hide Column, Complete, Pow2;
  }

  lemma DeliverMore<K(!new), V>(o: Ops<K, V>, deques: seq<Deque<K, V>>, shift: nat, outs: seq<seq<Row<K, V>>>,
                                result: seq<Row<K, V>>, p: nat, batch: seq<Row<K, V>>)
    requires shift <= 64 && |outs| == Pow2(64 - shift) && Delivered(o, deques, shift, outs, result) && p < |outs|
    requires HandedOf(o, deques, shift, p, outs[p] + batch)
    ensures Delivered(o, deques, shift, outs[p := outs[p] + batch], result + batch)
  {
    hide Sum, DequeRows, PartitionFor, Pow2;
    var handed := outs[p] + batch;
    forall k | Has(batch, k) ensures PartitionFor(o, shift, k) == p {
      HasConcat(outs[p], batch, k);
    }
    forall k ensures Has(result + batch, k) <==> Has(outs[p := handed][PartitionFor(o, shift, k)], k) {
      HasConcat(result, batch, k);
      HasConcat(outs[p], batch, k);
    }
    forall i: nat, j: nat | i < |result| && j < |batch| ensures result[i].k != batch[j].k {
      NotTwice(outs[p], batch, j);
      assert Has(batch, batch[j].k);
      assert Has(result, result[i].k);
    }
    forall i: nat | i < |batch|
      ensures Has(DequeRows(deques), batch[i].k) && batch[i].v == Sum(o, DequeRows(deques), batch[i].k) {
      assert handed[|outs[p]| + i] == batch[i];
    }
    DistinctPart(outs[p], batch);
  }

  lemma NotTwice<K, V>(a: seq<Row<K, V>>, b: seq<Row<K, V>>, j: nat)
    requires Distinct(a + b) && j < |b|
    ensures !Has(a, b[j].k)
  {
    assert (a + b)[|a| + j] == b[j];
    assert forall i :: 0 <= i < |a| ==> (a + b)[i] == a[i];
  }

  lemma DistinctPart<K, V>(a: seq<Row<K, V>>, b: seq<Row<K, V>>)
    requires Distinct(a + b)
    ensures Distinct(b)
  {
    forall i, j | 0 <= i < j < |b| ensures b[i].k != b[j].k {
      assert (a + b)[|a| + i] == b[i] && (a + b)[|a| + j] == b[j];
    }
  }

  /** When no worker holds a partition any more, every key has been delivered. */
  lemma AllDelivered<K(!new), V(!new)>(o: Ops<K, V>, deques: seq<Deque<K, V>>, shift: nat, next: nat,
                                       holds: seq<Hold<K, V>>,
                                       owner: seq<nat>, outs: seq<seq<Row<K, V>>>, result: seq<Row<K, V>>)
    requires Commutes(o) && AllPlaced(o, deques, shift) && shift <= 64
    requires Taken(o, deques, shift, next, holds, owner, outs) && Delivered(o, deques, shift, outs, result)
    requires holds != [] && forall w :: 0 <= w < |holds| ==> holds[w].consumed && holds[w].partition >= |outs|
    ensures SameTotals(o, result, DequeRows(deques))
  {
    hide Sum, Commutes, DequeRows, Column, PartitionFor, Pow2;
    forall k | Has(DequeRows(deques), k) ensures Has(result, k) {
      ColumnHoldsKey(o, deques, shift, k);
      OutComplete(o, deques, shift, next, holds, owner, outs, PartitionFor(o, shift, k));
    }
    FinalTotals(o, DequeRows(deques), result);
  }

  lemma OutComplete<K(!new), V>(o: Ops<K, V>, deques: seq<Deque<K, V>>, shift: nat, next: nat, holds: seq<Hold<K, V>>,
                                owner: seq<nat>, outs: seq<seq<Row<K, V>>>, p: nat)
    requires AllPlaced(o, deques, shift) && shift <= 64 && Taken(o, deques, shift, next, holds, owner, outs)
    requires p < |outs|
    requires holds != [] && forall w :: 0 <= w < |holds| ==> holds[w].consumed && holds[w].partition >= |outs|
    ensures Complete(outs[p], Column(o, deques, shift, p))
  {
    hide Column, Complete, Pow2;
    assert holds[0].partition < next;
  }

  /** Every key once, with its final value, is every key with its fold. */
  lemma FinalTotals<K(!new), V(!new)>(o: Ops<K, V>, source: seq<Row<K, V>>, rows: seq<Row<K, V>>)
    requires Commutes(o) && Distinct(rows) && Final(o, source, rows) && Complete(rows, source)
    ensures SameTotals(o, rows, source)
  {
    hide Sum, Commutes;
    forall k
      ensures Has(rows, k) <==> Has(source, k)
      ensures Sum(o, rows, k) == Sum(o, source, k) {
      if Has(rows, k) {
        var i :| 0 <= i < |rows| && rows[i].k == k;
        DistinctSum(o, rows, i);
      } else {
        SumNone(o, rows, k);
        SumNone(o, source, k);
      }
    }
  }

  lemma HoldBounds<K(!new), V>(o: Ops<K, V>, deques: seq<Deque<K, V>>, shift: nat, next: nat, holds: seq<Hold<K, V>>,
                               owner: seq<nat>, outs: seq<seq<Row<K, V>>>, w: nat)
    requires AllPlaced(o, deques, shift) && shift <= 64 && Taken(o, deques, shift, next, holds, owner, outs)
    requires w < |holds|
    ensures holds[w].consumed ==> holds[w].partition < next
    ensures holds[w].consumed && holds[w].partition < |outs| ==> outs[holds[w].partition] == holds[w].handed
  {
  }

  lemma TotalsComplete<K(!new), V>(o: Ops<K, V>, rows: seq<Row<K, V>>, column: seq<Row<K, V>>)
    requires SameTotals(o, rows, column)
    ensures Complete(rows, column)
  {
  }

  /** The second phase begins: nothing is taken, and nothing delivered. */
  lemma NothingTaken<K(!new), V>(o: Ops<K, V>, deques: seq<Deque<K, V>>, shift: nat, holds: seq<Hold<K, V>>,
                                 outs: seq<seq<Row<K, V>>>)
    requires AllPlaced(o, deques, shift) && shift <= 64 && |outs| == Pow2(64 - shift)
    requires forall p :: 0 <= p < |outs| ==> outs[p] == []
    requires forall w :: 0 <= w < |holds| ==> !holds[w].consumed
    ensures Taken(o, deques, shift, 0, holds, [], outs) && Delivered(o, deques, shift, outs, [])
  {
    hide PartitionFor, Column, DequeRows;
  }

  lemma DeliveredFacts<K(!new), V>(o: Ops<K, V>, deques: seq<Deque<K, V>>, shift: nat, outs: seq<seq<Row<K, V>>>,
                                   result: seq<Row<K, V>>)
    requires shift <= 64 && |outs| == Pow2(64 - shift) && Delivered(o, deques, shift, outs, result)
    ensures Distinct(result) && Final(o, DequeRows(deques), result)
  {
  }

  lemma FinalSame<K(!new), V>(o: Ops<K, V>, a: seq<Row<K, V>>, b: seq<Row<K, V>>, rows: seq<Row<K, V>>)
    requires SameTotals(o, a, b) && Final(o, a, rows)
    ensures Final(o, b, rows)
  {
  }
}
