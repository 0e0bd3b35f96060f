/** runtime::Stack: a stack in chunks, each twice as large as the one before; clear keeps the
    chunks. */
module Stacks {
  import opened Bits
  import opened Chunks

  const INITIAL_SIZE: nat := 1024

  class Stack<T(0)> {
    /** The chain of chunks from `first` on; `last` is the number of the chunk in use. */
    var chunks: seq<array<T>>
    var last: nat
    var chunkSize: nat
    var fill: nat
    var nrElements: nat

    ghost function Repr(): set<object>
      reads this`chunks
    {
      set c | c in chunks
    }

    ghost predicate Shaped()
      reads this
    {
      && last < |chunks|
      && (forall c :: 0 <= c < |chunks| ==> chunks[c].Length == INITIAL_SIZE * Pow2(c))
      && (forall c, d :: 0 <= c < d < |chunks| ==> chunks[c] != chunks[d])
      && chunkSize == INITIAL_SIZE * Pow2(last) && fill <= chunkSize
    }

    /** Every chunk before the last one is full. */
    ghost function Contents(): seq<T>
      reads this, Repr()
      requires Shaped()
    {
      All(chunks[..last]) + chunks[last][..fill]
    }

    ghost predicate Valid()
      reads this, Repr()
    {
      Shaped() && |Contents()| == nrElements + fill
    }

    constructor ()
      ensures Valid() && Contents() == [] && fresh(Repr())
    {
      var first := new T[INITIAL_SIZE];
      chunks, last, chunkSize, fill, nrElements := [first], 0, INITIAL_SIZE, 0, 0;
    }

    /** A new chunk, or the next one of the chain if there is one from before a clear. */
    method NewChunk()
      requires Valid() && fill == chunkSize
      modifies this
      ensures Valid() && Contents() == old(Contents()) && fill == 0 < chunkSize
      ensures fresh(Repr() - old(Repr())) && old(Repr()) <= Repr()
    {
      hide Pow2, All;
      Pow2Next(last);
      ghost var was, n := chunks, last;
      AllFull(was, n);
      chunkSize := chunkSize * 2;
      if last + 1 < |chunks| {
        last := last + 1;
      } else {
        var alloc := new T[chunkSize];
        chunks := chunks + [alloc];
        last := last + 1;
      }
      nrElements := nrElements + fill;
      fill := 0;
      assert chunks[..n + 1] == was[..n + 1];
    }

    method EmplaceBack(x: T)
      requires Valid()
      modifies this, Repr()
      ensures Valid() && Contents() == old(Contents()) + [x]
      ensures fresh(Repr() - old(Repr())) && old(Repr()) <= Repr()
    {
      if fill == chunkSize {
        NewChunk();
      }
      PutBack(x);
    }

    method PutBack(x: T)
      requires Valid() && fill < chunkSize
      modifies this`fill, Repr()
      ensures Valid() && Contents() == old(Contents()) + [x]
    {
      var chunk := chunks[last];
      assert forall c :: c in chunks[..last] ==> c != chunk;
      chunk[fill] := x;
      fill := fill + 1;
      assert chunk[..fill] == old(chunk[..fill]) + [x];
    }

    /** The element put there last. */
    method Back() returns (x: T)
      requires Valid() && fill > 0
      ensures Contents() != [] && x == Contents()[|Contents()| - 1]
    {
      x := chunks[last][fill - 1];
    }

    method Clear()
      requires Valid()
      modifies this
      ensures Valid() && Contents() == [] && chunks == old(chunks)
    {
      last := 0;
      chunkSize := INITIAL_SIZE;
      fill := 0;
      nrElements := 0;
    }

    /** The test the code makes, and what it finds out. */
    method IsEmpty() returns (b: bool)
      requires Valid()
      ensures b <==> Contents() == []
    {
      b := last == 0 && fill == 0;
      if last > 0 {
        assert chunks[..last][last - 1].Length > 0;
      }
    }

    method Size() returns (n: nat)
      requires Valid()
      ensures n == |Contents()|
    {
      n := nrElements + fill;
    }

    /** Visiting the blocks in turn visits every element once, in order: the iterator takes
        all of a chunk, as large as it has doubled its size to, except of the last one. */
    method Iterate() returns (s: seq<T>)
      requires Valid()
      ensures s == Contents()
    {
      hide All;
      s := [];
      var current, size := 0, INITIAL_SIZE;
      AllOfNone<T>();
      assert chunks[..0] == [];
      while current != last + 1
        invariant current <= last + 1
        invariant current <= last ==> size == INITIAL_SIZE * Pow2(current)
        invariant s == if current <= last then All(chunks[..current]) else Contents()
      {
        if current < last {
          AllFull(chunks, current);
        }
        s := s + if current == last then chunks[current][..fill] else chunks[current][..size];
        current := current + 1;
        size := size * 2;
      }
    }
  }
}
