/** The chained hash table of include/common/runtime/Hashmap.hpp: a directory of
    tagged words, and entries linked through their headers. A word carries a
    48-bit address and, in its upper 16 bits, a small filter over the hashes of
    the chain it heads. */
module Hashmap {
  import opened Bits

  /** A tagged pointer as stored in the directory, or a plain address. */
  type Word = nat

  /** The null pointer, Hashmap::end(). */
  const END: Word := 0
  const MASK_POINTER: Word := 0x0000_FFFF_FFFF_FFFF
  const MASK_TAG: Word := 0xFFFF_0000_0000_0000

  datatype EntryHeader = EntryHeader(next: Word, hash: Hash)

  /** `capacity` is `1 << exp`; `heap` maps the address of an entry to its header. */
  datatype Table = Table(exp: nat, dir: seq<Word>, heap: map<Word, EntryHeader>) {

    ghost predicate HasDirectory() {
      |dir| == Pow2(exp)
    }

    /** Directory position of a hash: `hash & mask` with mask = capacity - 1. */
    function Slot(hash: Hash): (s: nat)
      requires HasDirectory()
      ensures s == hash % |dir| && s < |dir|
    {
      MaskIsRemainder(hash, exp, |dir|);
      And(hash, |dir| - 1)
    }

    /** Every entry of `work` can be stored: it has an untagged address and a header. */
    ghost predicate Stores(work: set<Word>) {
      forall e :: e in work ==> e in heap && e != END && e <= MASK_POINTER
    }

    /** The table holds exactly the entries of `work`: each directory slot heads an
        acyclic chain of the entries that hash to it, each once, and its filter
        bits are the union of the tags of that chain. */
    ghost predicate Holds(work: set<Word>) {
      && HasDirectory()
      && Stores(work)
      && forall s :: 0 <= s < |dir| ==> SlotHolds(s, work)
    }

    ghost predicate SlotHolds(s: nat, work: set<Word>)
      requires s < |dir| && HasDirectory() && Stores(work)
    {
      var p := Ptr(dir[s]);
      && Finite(heap, p)
      && NoDuplicates(Chain(heap, p))
      && (forall e :: e in Chain(heap, p) <==> e in work && Slot(heap[e].hash) == s)
      && (forall g: Hash :: Tagged(dir[s], g) <==> Witnessed(work, s, g))
    }

    /** Some entry of `work` that hashes to slot `s` has the tag of `g`. */
    ghost predicate Witnessed(work: set<Word>, s: nat, g: Hash)
      requires HasDirectory() && Stores(work)
    {
      exists e :: e in work && Slot(heap[e].hash) == s && Tag(heap[e].hash) == Tag(g)
    }

    /** Hashmap::find_chain_tagged. */
    function FindChainTagged(hash: Hash): Word
      requires HasDirectory()
    {
      var candidate := dir[Slot(hash)];
      if Tagged(candidate, hash) then Ptr(candidate) else END
    }

    ghost predicate Empty() {
      HasDirectory() && forall s :: 0 <= s < |dir| ==> dir[s] == END
    }
  }

  // ---------------------------------------------------------------- words

  /** The upper four bits of the hash select one of the filter bits. */
  function TagPos(hash: Hash): (pos: nat)
    ensures pos < 16
  {
    hash / 0x1000_0000_0000_0000
  }

  function Tag(hash: Hash): Word {
    Pow2(TagPos(hash) + 48)
  }

  function Ptr(word: Word): Word {
    And(word, MASK_POINTER)
  }

  predicate Tagged(word: Word, hash: Hash) {
    And(word, Tag(hash)) != 0
  }

  /** Hashmap::update. */
  function Update(loc: Word, p: Word, hash: Hash): Word {
    Or(Or(p, And(loc, MASK_TAG)), Tag(hash))
  }

  lemma MaskBits(i: nat)
    ensures Bit(MASK_POINTER, i) <==> i < 48
    ensures Bit(MASK_TAG, i) <==> 48 <= i < 64
  {
    Pow2Values();
    assert MASK_TAG == (Pow2(16) - 1) * Pow2(48);
    LowMaskBit(48, i);
    ShiftedBit(Pow2(16) - 1, 48, i);
    if i >= 48 { LowMaskBit(16, i - 48); }
  }

  lemma AddressBit(p: Word, i: nat)
    requires p <= MASK_POINTER && i >= 48
    ensures !Bit(p, i)
  {
    Pow2Values();
    HighBit(p, 48, i);
  }

  lemma UpdateBit(loc: Word, p: Word, h: Hash, i: nat)
    ensures Bit(Update(loc, p, h), i)
            <==> Bit(p, i) || (48 <= i < 64 && Bit(loc, i)) || i == TagPos(h) + 48
  {
    OrBit(Or(p, And(loc, MASK_TAG)), Tag(h), i);
    OrBit(p, And(loc, MASK_TAG), i);
    AndBit(loc, MASK_TAG, i);
    MaskBits(i);
    PowerBit(TagPos(h) + 48, i);
  }

  /** A hash passes the filter of a word when its bit is set there. */
  lemma TaggedBit(word: Word, g: Hash)
    ensures Tagged(word, g) <==> Bit(word, TagPos(g) + 48)
  {
    var k := TagPos(g) + 48;
    AndBit(word, Tag(g), k);
    PowerBit(k, k);
    if Tagged(word, g) {
      var i := NonZeroBit(And(word, Tag(g)));
      AndBit(word, Tag(g), i);
      PowerBit(k, i);
    } else {
      ZeroBit(k);
    }
  }

  lemma SameTag(h: Hash, g: Hash)
    ensures Tag(h) == Tag(g) <==> TagPos(h) == TagPos(g)
  {
    PowerBit(TagPos(h) + 48, TagPos(g) + 48);
    PowerBit(TagPos(g) + 48, TagPos(g) + 48);
  }

  /** Adding an entry makes the word point to that entry. */
  lemma UpdatePoints(loc: Word, p: Word, h: Hash)
    requires p <= MASK_POINTER
    ensures Ptr(Update(loc, p, h)) == p
  {
    var w := Update(loc, p, h);
    forall i: nat ensures Bit(Ptr(w), i) <==> Bit(p, i) {
      AndBit(w, MASK_POINTER, i);
      MaskBits(i);
      UpdateBit(loc, p, h, i);
      if i >= 48 { AddressBit(p, i); }
    }
    SameBits(Ptr(w), p);
  }

  /** Adding an entry adds exactly the tag of its hash to the filter, for every hash the
      filter can be asked about. */
  lemma UpdateTags(loc: Word, p: Word, h: Hash, g: Hash)
    requires p <= MASK_POINTER
    ensures Tagged(Update(loc, p, h), g) <==> Tagged(loc, g) || Tag(h) == Tag(g)
  {
    hide Tag, Update;
    TaggedBit(Update(loc, p, h), g);
    TaggedBit(loc, g);
    UpdateBit(loc, p, h, TagPos(g) + 48);
    AddressBit(p, TagPos(g) + 48);
    SameTag(h, g);
  }

  lemma EmptyWord(g: Hash)
    ensures Ptr(END) == END && !Tagged(END, g)
  {
  }

  // --------------------------------------------------------------- chains

  /** Following `next` from `p` visits exactly the entries of `c`, in order, and ends. */
  ghost predicate IsChain(heap: map<Word, EntryHeader>, p: Word, c: seq<Word>)
    decreases |c|
  {
    if c == [] then p == END
    else p != END && p == c[0] && p in heap && IsChain(heap, heap[p].next, c[1..])
  }

  ghost predicate Finite(heap: map<Word, EntryHeader>, p: Word) {
    exists c :: IsChain(heap, p, c)
  }

  ghost function Chain(heap: map<Word, EntryHeader>, p: Word): (c: seq<Word>)
    requires Finite(heap, p)
    ensures IsChain(heap, p, c)
  {
    var c :| IsChain(heap, p, c);
    c
  }

  ghost predicate NoDuplicates<T>(c: seq<T>) {
    forall i, j :: 0 <= i < j < |c| ==> c[i] != c[j]
  }

  lemma {:induction false} ChainUnique(heap: map<Word, EntryHeader>, p: Word, c: seq<Word>, d: seq<Word>)
    requires IsChain(heap, p, c) && IsChain(heap, p, d)
    ensures c == d
    decreases |c|
  {
    if c != [] {
      ChainUnique(heap, heap[p].next, c[1..], d[1..]);
      assert c == [p] + c[1..] && d == [p] + d[1..];
    }
  }

  /** A chain is its head followed by the chain of its successor. */
  lemma ChainStep(heap: map<Word, EntryHeader>, p: Word)
    requires Finite(heap, p)
    ensures p == END ==> Chain(heap, p) == []
    ensures p != END ==> p in heap && Finite(heap, heap[p].next)
                         && Chain(heap, p) == [p] + Chain(heap, heap[p].next)
  {
    var c := Chain(heap, p);
    if p != END {
      assert IsChain(heap, heap[p].next, c[1..]);
      ChainUnique(heap, heap[p].next, c[1..], Chain(heap, heap[p].next));
      assert c == [p] + c[1..];
    }
  }

  /** Rewriting the header of an entry outside a chain leaves the chain alone. */
  lemma {:induction false} ChainFrame(heap: map<Word, EntryHeader>, e: Word, header: EntryHeader,
                                      p: Word, c: seq<Word>)
    requires IsChain(heap, p, c) && e !in c
    ensures IsChain(heap[e := header], p, c)
    decreases |c|
  {
    if c != [] {
      assert c == [p] + c[1..];
      ChainFrame(heap, e, header, heap[p].next, c[1..]);
    }
  }

  /** The filter never hides an entry, and what it leads to is in the table: the chain
      found for a hash contains every entry with that hash, each once. */
  lemma FindIsComplete(t: Table, work: set<Word>, hash: Hash)
    requires t.Holds(work)
    ensures t.HasDirectory()
    ensures Finite(t.heap, t.FindChainTagged(hash))
    ensures var c := Chain(t.heap, t.FindChainTagged(hash));
            && NoDuplicates(c)
            && (forall e :: e in c ==> e in work)
            && (forall e :: e in work && t.heap[e].hash == hash ==> e in c)
    ensures Tagged(t.dir[t.Slot(hash)], hash) <==> t.FindChainTagged(hash) != END
  {
    var s := t.Slot(hash);
    var p := Ptr(t.dir[s]);
    assert t.SlotHolds(s, work);
    assert IsChain(t.heap, END, []);
    ChainStep(t.heap, END);
    ChainStep(t.heap, p);
    if Tagged(t.dir[s], hash) {
      assert t.Witnessed(work, s, hash);
      var e :| e in work && t.Slot(t.heap[e].hash) == s && Tag(t.heap[e].hash) == Tag(hash);
      assert e in Chain(t.heap, p);
      assert t.FindChainTagged(hash) == p;
    } else {
      assert !t.Witnessed(work, s, hash);
      assert t.FindChainTagged(hash) == END;
    }
  }

  // ---------------------------------------------------------------- sizing

  /** Hashmap::setSize: the capacity it chooses for n entries and the fill it returns. The
      load factor is exactly 7/10; `((size_t)1 << exp) < nrEntries / loadFactor` is then
      `7 * 2^exp < 10 * nrEntries`. */
  method SetSize(nrEntries: nat) returns (exp: nat, capacity: nat, maxFill: nat)
    requires nrEntries > 0
    ensures capacity == Pow2(exp)
    ensures 10 * nrEntries <= 7 * capacity < 20 * nrEntries
    ensures nrEntries <= maxFill < capacity && maxFill == capacity * 7 / 10
  {
    exp := CapacityExponent(nrEntries);
    capacity := Pow2(exp);
    maxFill := capacity * 7 / 10;
  }
}
