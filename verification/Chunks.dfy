/** Elements kept in a chain of chunks. */
module Chunks {

  /** All elements of full chunks. */
  ghost function All<T>(chunks: seq<array<T>>): seq<T>
    reads set c | c in chunks
  {
    if chunks == [] then [] else All(chunks[..|chunks| - 1]) + chunks[|chunks| - 1][..]
  }

  lemma AllOfNone<T>()
    ensures All<T>([]) == []
  {
  }

  lemma AllFull<T>(chunks: seq<array<T>>, n: nat)
    requires n < |chunks|
    ensures All(chunks[..n + 1]) == All(chunks[..n]) + chunks[n][..chunks[n].Length]
  {
    assert chunks[..n + 1][..n] == chunks[..n];
  }
}
