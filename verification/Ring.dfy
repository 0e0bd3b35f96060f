/** The ring buffer of unfinished chains: two parallel arrays of V + 1 slots, a read
    position and a write position. */
module Ring {
  import opened Hashmap
  import opened ProbeQueue

  function Wrap(k: nat, size: nat): nat {
    if k < size then k else k - size
  }

  lemma WrapIsRemainder(k: nat, size: nat)
    requires 0 < size && k <= size
    ensures k % size == Wrap(k, size)
  {
  }

  /** nrFollowups: the number of slots in use. */
  function Filled(read: nat, write: nat, size: nat): nat
    requires read < size && write < size
  {
    if read <= write then write - read else size - (read - write)
  }

  /** The chains in the ring, in the order in which they will be read. */
  function Contents(ids: seq<nat>, entries: seq<Word>, read: nat, write: nat): (q: seq<Probe>)
    requires |ids| == |entries| && read < |ids| && write < |ids|
    ensures |q| == Filled(read, write, |ids|)
  {
    var size := |ids|;
    seq(Filled(read, write, size), j requires 0 <= j < Filled(read, write, size) =>
      Probe(ids[Wrap(read + j, size)], entries[Wrap(read + j, size)]))
  }

  /** Reading takes the front of the queue. */
  lemma Pop(ids: seq<nat>, entries: seq<Word>, read: nat, write: nat)
    requires |ids| == |entries| && read < |ids| && write < |ids| && read != write
    ensures var q := Contents(ids, entries, read, write);
            && q == [Probe(ids[read], entries[read])] + q[1..]
            && Contents(ids, entries, Wrap(read + 1, |ids|), write) == q[1..]
  {
    var size := |ids|;
    var q := Contents(ids, entries, read, write);
    var q' := Contents(ids, entries, Wrap(read + 1, size), write);
    assert |q'| == |q| - 1;
    forall j | 0 <= j < |q'| ensures q'[j] == q[j + 1] {
      assert Wrap(Wrap(read + 1, size) + j, size) == Wrap(read + (j + 1), size);
    }
    assert q' == q[1..];
    assert q[0] == Probe(ids[Wrap(read + 0, size)], entries[Wrap(read + 0, size)]);
    assert q == [q[0]] + q[1..];
  }

  /** Writing adds to the back, as long as one slot stays free. */
  lemma Push(ids: seq<nat>, entries: seq<Word>, read: nat, write: nat, x: Probe)
    requires |ids| == |entries| && read < |ids| && write < |ids|
    requires Filled(read, write, |ids|) + 1 < |ids|
    ensures Contents(ids[write := x.id], entries[write := x.entry], read, Wrap(write + 1, |ids|))
            == Contents(ids, entries, read, write) + [x]
  {
    var size := |ids|;
    var q := Contents(ids, entries, read, write);
    var q' := Contents(ids[write := x.id], entries[write := x.entry], read, Wrap(write + 1, size));
    assert |q'| == |q| + 1;
    assert Wrap(read + |q|, size) == write;
    forall j | 0 <= j < |q| ensures q'[j] == q[j] {
      assert Wrap(read + j, size) != write;
    }
  }
}
