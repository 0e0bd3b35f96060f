/** Chains of a hash table whose entries are numbered in the order in which they were put on top of
    their chains: the chain of a slot runs from its last entry to its first. */
module SlotChains {
  import opened Bits

  /** The slot of a hash: hash & mask, for a capacity that is a power of two. */
  function Slot(hash: Hash, cap: nat): (s: nat)
    requires cap > 0
    ensures s < cap
  {
    hash % cap
  }

  lemma MaskIsSlot(hash: Hash, exp: nat, cap: nat)
    requires cap == Pow2(exp)
    ensures And(hash, cap - 1) == Slot(hash, cap)
  {
    MaskIsRemainder(hash, exp, cap);
  }

  const NONE: int := -1

  /** The last of the first n entries whose hash falls into slot d of a directory of cap slots. */
  function LastIn(hashes: seq<Hash>, cap: nat, n: nat, d: nat): int
    requires n <= |hashes| && cap > 0
  {
    if n == 0 then NONE
    else if Slot(hashes[n - 1], cap) == d then n - 1
    else LastIn(hashes, cap, n - 1, d)
  }

  lemma {:induction false} LastInGap(hashes: seq<Hash>, cap: nat, n: nat, d: nat)
    requires n <= |hashes| && cap > 0
    ensures var r := LastIn(hashes, cap, n, d);
      && NONE <= r < n
      && (r != NONE ==> Slot(hashes[r], cap) == d)
      && (forall j :: 0 <= j < n && r < j ==> Slot(hashes[j], cap) != d)
  {
    if n > 0 && Slot(hashes[n - 1], cap) != d {
      LastInGap(hashes, cap, n - 1, d);
    }
  }

  lemma {:induction false} LastInPrefix(hashes: seq<Hash>, more: seq<Hash>, cap: nat, n: nat, d: nat)
    requires n <= |hashes| <= |more| && cap > 0
    requires forall j :: 0 <= j < n ==> hashes[j] == more[j]
    ensures LastIn(hashes, cap, n, d) == LastIn(more, cap, n, d)
  {
    if n > 0 { LastInPrefix(hashes, more, cap, n - 1, d); }
  }

  /** A smaller power of two is at most half of a larger one. */
  lemma {:induction false} NextPower(a: nat, b: nat)
    requires Pow2(a) < Pow2(b)
    ensures a < b && 2 * Pow2(a) <= Pow2(b)
  {
    if a > 0 && b > 0 { NextPower(a - 1, b - 1); }
  }
}
