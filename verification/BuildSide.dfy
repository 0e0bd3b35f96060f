/** The build side of a join by a single worker: entries for the keys, hashed and inserted into a table
    that is sized for them; and the lookup of a Hashset on it. */
module BuildSide {
  import opened Bits
  import opened Hashmap
  import opened ConcurrentInsert

  /** Addresses an allocator may hand out for entries. */
  ghost predicate Addresses(alloc: seq<Word>) {
    && NoDuplicates(alloc)
    && forall i :: 0 <= i < |alloc| ==> alloc[i] != END && alloc[i] <= MASK_POINTER
  }

  ghost function AsSet(s: seq<Word>): set<Word> {
    set e | e in s
  }

  /** Linking an entry in front of its slot's chain and storing the new word adds just this entry. */
  lemma InsertKeeps(t: Table, linked: Table, t': Table, e: Word, hash: Hash, done: set<Word>)
    requires t.Holds(done) && e !in done && e != END && e <= MASK_POINTER && e in t.heap && t.heap[e].hash == hash
    requires linked == t.(heap := t.heap[e := EntryHeader(Ptr(t.dir[t.Slot(hash)]), hash)])
    requires t' == linked.(dir := t.dir[t.Slot(hash) := Update(t.dir[t.Slot(hash)], e, hash)])
    ensures t'.Holds(done + {e})
  {
    hide Update, Ptr, Tagged;
    forall slot | 0 <= slot < |t.dir| ensures linked.Stores(done) && linked.SlotHolds(slot, done) {
      LinkKeepsSlot(t, linked, e, slot, done);
    }
    SwapKeepsTable(linked, t', e, t.dir[t.Slot(hash)], done);
  }

  /** insert_tagged, when nobody interferes. */
  method InsertTagged(t: Table, e: Word, hash: Hash, ghost done: set<Word>) returns (t': Table)
    requires t.Holds(done) && e !in done && e != END && e <= MASK_POINTER && e in t.heap && t.heap[e].hash == hash
    ensures t'.Holds(done + {e}) && t'.heap.Keys == t.heap.Keys
    ensures forall x :: x in t.heap ==> t'.heap[x].hash == t.heap[x].hash
  {
    hide Table.SlotHolds, Table.Stores;
    var pos := t.Slot(hash);
    var loc := t.dir[pos];
    var linked := t.(heap := t.heap[e := EntryHeader(Ptr(loc), hash)]);
    t' := linked.(dir := linked.dir[pos := Update(loc, e, hash)]);
    InsertKeeps(t, linked, t', e, hash, done);
  }

  /** A table of size for n entries, with nothing in it. */
  method NewTable(n: nat, heap: map<Word, EntryHeader>) returns (t: Table)
    requires n > 0
    ensures t.Holds({}) && t.heap == heap
  {
    var exp, capacity, maxFill := SetSize(n);
    t := Table(exp, seq(capacity, _ => END), heap);
    forall slot | 0 <= slot < |t.dir| ensures t.SlotHolds(slot, {}) {
      EmptyWord(END);
      assert IsChain(t.heap, END, []);
      ChainStep(t.heap, END);
      forall g: Hash ensures !Tagged(END, g) { EmptyWord(g); }
    }
  }

  /** Materialises an entry for each key. */
  method Materialize<K>(keys: seq<K>, alloc: seq<Word>, hashOf: K -> Hash)
    returns (heap: map<Word, EntryHeader>, buildKeys: map<Word, K>)
    requires |keys| <= |alloc| && Addresses(alloc)
    ensures buildKeys.Keys == heap.Keys == AsSet(alloc[..|keys|])
    ensures forall i :: 0 <= i < |keys| ==> alloc[i] in buildKeys && buildKeys[alloc[i]] == keys[i]
    ensures forall e :: e in heap ==> heap[e].hash == hashOf(buildKeys[e])
  {
    buildKeys, heap := map[], map[];
    for i := 0 to |keys|
      invariant buildKeys.Keys == heap.Keys == AsSet(alloc[..i])
      invariant forall j :: 0 <= j < i ==> alloc[j] in buildKeys && buildKeys[alloc[j]] == keys[j]
      invariant forall e :: e in heap ==> heap[e].hash == hashOf(buildKeys[e])
    {
      buildKeys := buildKeys[alloc[i] := keys[i]];
      heap := heap[alloc[i] := EntryHeader(END, hashOf(keys[i]))];
      assert alloc[..i + 1] == alloc[..i] + [alloc[i]];
    }
  }

  /** insertAll_tagged of n entries into a new table. */
  method InsertAll(n: nat, alloc: seq<Word>, heap: map<Word, EntryHeader>) returns (t: Table)
    requires 0 < n <= |alloc| && Addresses(alloc) && AsSet(alloc[..n]) <= heap.Keys
    ensures t.Holds(AsSet(alloc[..n])) && t.heap.Keys == heap.Keys
    ensures forall e :: e in heap ==> t.heap[e].hash == heap[e].hash
  {
    hide Table.Holds;
    t := NewTable(n, heap);
    assert AsSet(alloc[..0]) == {};
    for i := 0 to n
      invariant t.Holds(AsSet(alloc[..i])) && t.heap.Keys == heap.Keys
      invariant forall e :: e in heap ==> t.heap[e].hash == heap[e].hash
    {
      assert alloc[i] in alloc[..n];
      Another(alloc, i);
      t := InsertTagged(t, alloc[i], heap[alloc[i]].hash, AsSet(alloc[..i]));
    }
  }

  lemma Another(alloc: seq<Word>, i: nat)
    requires Addresses(alloc) && i < |alloc|
    ensures alloc[i] !in AsSet(alloc[..i]) && AsSet(alloc[..i + 1]) == AsSet(alloc[..i]) + {alloc[i]}
  {
    assert alloc[..i + 1] == alloc[..i] + [alloc[i]];
    forall j | 0 <= j < i ensures alloc[..i][j] != alloc[i] { }
  }

  /** The build side: an entry for each key, and a table that holds them all. */
  method Build<K>(keys: seq<K>, alloc: seq<Word>, hashOf: K -> Hash)
    returns (t: Table, ghost work: set<Word>, buildKeys: map<Word, K>)
    requires 0 < |keys| <= |alloc| && Addresses(alloc)
    ensures t.Holds(work) && work == AsSet(alloc[..|keys|]) == buildKeys.Keys
    ensures forall i :: 0 <= i < |keys| ==> alloc[i] in buildKeys && buildKeys[alloc[i]] == keys[i]
    ensures forall e :: e in work ==> e in t.heap && t.heap[e].hash == hashOf(buildKeys[e])
  {
    hide Table.Holds, Addresses;
    var heap;
    heap, buildKeys := Materialize(keys, alloc, hashOf);
    work := AsSet(alloc[..|keys|]);
    t := InsertAll(|keys|, alloc, heap);
  }

  /** Hashset::contains. */
  method Contains<K(==)>(t: Table, ghost work: set<Word>, keys: map<Word, K>, hashOf: K -> Hash, key: K)
    returns (found: bool)
    requires t.Holds(work) && work == keys.Keys
    requires forall e :: e in work ==> e in t.heap && t.heap[e].hash == hashOf(keys[e])
    ensures found <==> exists e :: e in work && keys[e] == key
  {
    hide Table.Holds, Table.FindChainTagged, Table.HasDirectory, Finite, NoDuplicates;
    var h := hashOf(key);
    FindIsComplete(t, work, h);
    var entry := t.FindChainTagged(h);
    while entry != END
      invariant Finite(t.heap, entry)
      invariant forall e :: e in Chain(t.heap, entry) ==> e in work
      invariant forall e :: e in work && keys[e] == key ==> e in Chain(t.heap, entry)
      decreases |Chain(t.heap, entry)|
    {
      ChainStep(t.heap, entry);
      assert entry in Chain(t.heap, entry);
      if t.heap[entry].hash == h && keys[entry] == key { return true; }
      entry := t.heap[entry].next;
    }
    ChainStep(t.heap, entry);
    found := false;
  }
}
