/** runtime::PartitionedDeque: queues of chunks of equal size, one for each value of the upper bits
    of the hash. */
module Deques {
  import opened Bits
  import opened Chunks

  /** One partition. `chunks` is the chain from `first` to `last`; `current` is the distance of the
      write position from the start of the last chunk. */
  class Partition<T(0)> {
    const chunkSize: nat
    var chunks: seq<array<T>>
    var current: nat

    ghost function Repr(): set<object>
      reads this`chunks
    {
      set c | c in chunks
    }

    ghost predicate Valid()
      reads this
    {
      && chunkSize > 0 && current <= chunkSize
      && (forall c :: 0 <= c < |chunks| ==> chunks[c].Length == chunkSize)
      && (forall c, d :: 0 <= c < d < |chunks| ==> chunks[c] != chunks[d])
    }

    ghost function Contents(): seq<T>
      reads this, Repr()
      requires Valid()
    {
      if chunks == [] then [] else All(chunks[..|chunks| - 1]) + chunks[|chunks| - 1][..current]
    }

    constructor (chunkSize: nat)
      requires chunkSize > 0
      ensures Valid() && Contents() == [] && this.chunkSize == chunkSize
    {
      this.chunkSize, chunks, current := chunkSize, [], 0;
    }

    method AddChunk()
      requires Valid() && (chunks == [] || current == chunkSize)
      modifies this
      ensures Valid() && Contents() == old(Contents()) && chunks != [] && current == 0
      ensures fresh(Repr() - old(Repr())) && old(Repr()) <= Repr()
    {
      hide All, Partition.Contents;
      ghost var was := chunks;
      FullContents();
      var created := new T[chunkSize];
      chunks := chunks + [created];
      current := 0;
      assert chunks[..|was|] == was;
      EmptyLast();
    }

    lemma FullContents()
      requires Valid() && (chunks == [] || current == chunkSize)
      ensures Contents() == All(chunks)
    {
      AllOfNone<T>();
      if chunks != [] {
        AllFull(chunks, |chunks| - 1);
        assert chunks[..|chunks| - 1 + 1] == chunks;
      }
    }

    lemma EmptyLast()
      requires Valid() && chunks != [] && current == 0
      ensures Contents() == All(chunks[..|chunks| - 1])
    {
      hide All;
      assert chunks[|chunks| - 1][..0] == [];
    }

    method PushBack(element: T)
      requires Valid()
      modifies this, Repr()
      ensures Valid() && Contents() == old(Contents()) + [element]
      ensures fresh(Repr() - old(Repr())) && old(Repr()) <= Repr()
    {
      if |chunks| == 0 {
        AddChunk();
      }
      if current == chunkSize {
        AddChunk();
      }
      Store(element);
    }

    method Store(element: T)
      requires Valid() && chunks != [] && current < chunkSize
      modifies this`current, Repr()
      ensures Valid() && Contents() == old(Contents()) + [element]
    {
      var last := chunks[|chunks| - 1];
      ghost var before := chunks[..|chunks| - 1];
      assert forall c :: c in before ==> c != last;
      last[current] := element;
      current := current + 1;
      assert last[..current] == old(last[..current]) + [element];
    }

    /** Elements in use in a chunk. */
    method Size(chunk: nat) returns (n: nat)
      requires Valid() && chunk < |chunks|
      ensures n == if chunk == |chunks| - 1 then current else chunkSize
    {
      n := if chunk == |chunks| - 1 then current else chunkSize;
    }

    /** Reading the partition chunk by chunk gives every element once, in order. */
    method Iterate() returns (s: seq<T>)
      requires Valid()
      ensures s == Contents()
    {
      hide All;
      s := [];
      var chunk := 0;
      AllOfNone<T>();
      assert chunks[..0] == [];
      while chunk < |chunks|
        invariant chunk <= |chunks|
        invariant s == if chunk < |chunks| || chunks == [] then All(chunks[..chunk]) else Contents()
      {
        AllFull(chunks, chunk);
        var n := Size(chunk);
        s := s + chunks[chunk][..n];
        chunk := chunk + 1;
      }
    }
  }

  /** hash >> shift. */
  function ShiftRight(hash: Hash, shift: nat): nat {
    Quotient(hash, Pow2(shift))
  }

  function Quotient(a: nat, b: nat): nat
    requires b > 0
  {
    a / b
  }

  /** All partitions, by what they hold. */
  datatype PartitionedDeque<T> = PartitionedDeque(shift: nat, partitions: seq<seq<T>>) {
    ghost predicate Valid() {
      shift <= 64 && |partitions| == Pow2(64 - shift)
    }

    /** Where an element of this hash goes: there is always such a partition. */
    function PartitionOf(hash: Hash): (p: nat)
      requires Valid()
      ensures p < |partitions|
    {
      UpperBits(hash, shift);
      ShiftRight(hash, shift)
    }

    function PushBack(element: T, hash: Hash): PartitionedDeque<T>
      requires Valid()
    {
      var p := PartitionOf(hash);
      this.(partitions := partitions[p := partitions[p] + [element]])
    }
  }

  /** postConstruct: the number of partitions is the power of two above nrPartitions, and the shift
      is the number of leading zeros of nrPartitions. */
  function PostConstruct<T>(nrPartitions: nat): (d: PartitionedDeque<T>)
    requires 0 < nrPartitions < WORD_SIZE
    ensures d.Valid() && nrPartitions < |d.partitions| <= 2 * nrPartitions
    ensures forall p :: 0 <= p < |d.partitions| ==> d.partitions[p] == []
  {
    var exp := BitLength(nrPartitions);
    BitLengthFits(nrPartitions);
    PartitionedDeque(64 - exp, seq(Pow2(exp), i => []))
  }

  lemma WordPower()
    ensures Pow2(64) == WORD_SIZE
  {
    hide Pow2;
    Pow2Values();
    Pow2Add(48, 16);
  }

  lemma BitLengthFits(n: nat)
    requires 0 < n < WORD_SIZE
    ensures BitLength(n) <= 64
  {
    WordPower();
    if BitLength(n) > 64 { PowerUp(64, BitLength(n) - 1); }
  }

  lemma {:induction false} PowerUp(a: nat, b: nat)
    requires a <= b
    ensures Pow2(a) <= Pow2(b)
  {
    if a < b { PowerUp(a, b - 1); }
  }

  lemma UpperBits(hash: Hash, shift: nat)
    requires shift <= 64
    ensures ShiftRight(hash, shift) < Pow2(64 - shift)
  {
    WordPower();
    Pow2Add(64 - shift, shift);
    QuotientBound(hash, Pow2(64 - shift), Pow2(shift));
  }

  lemma Grows(y: nat, x: nat, q: nat)
    requires x <= q
    ensures y * x <= y * q
  {
  }

  lemma QuotientBound(a: nat, x: nat, y: nat)
    requires y > 0 && a < x * y
    ensures Quotient(a, y) < x
  {
    var q := a / y;
    assert y * q <= a < y * x;
    if q >= x { Grows(y, x, q); }
  }
}
