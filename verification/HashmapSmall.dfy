/** runtime::HashmapSmall: a chained hash table over one array of entries. An entry's chain runs
    through entries stored before it, so that growing the directory in the middle of a pass only
    has to thread the entries again in storage order. */
module SmallTable {
  import opened Bits
  import opened SlotChains

  /** `empty`: the largest pos_t. */
  const EMPTY: nat := 0xFFFF_FFFF

  const START_CAPACITY: nat := 256

  datatype Entry = Entry(next: nat, hash: Hash, key: nat, value: nat)

  /** A position, or `empty`. */
  function Ref(i: int): nat {
    if i < 0 then EMPTY else i
  }

  class HashmapSmall {
    /** Room in the storage, and slots in the directory when it is largest. */
    const size: nat
    const maxCapacity: nat
    const entries: array<nat>
    const storage: array<Entry>
    var storageUsed: nat
    var capacity: nat
    var capLimit: nat
    var mask: nat

    /** The capacities' exponents, and what is stored, in storage order. */
    ghost const maxExp: nat
    ghost var exp: nat
    ghost var keys: seq<nat>
    ghost var hashes: seq<Hash>
    ghost var values: seq<nat>

    constructor (size: nat)
      requires 0 < size < EMPTY
      ensures Valid() && Empty() && this.size == size && fresh(entries) && fresh(storage)
      ensures capacity == (if maxCapacity < START_CAPACITY then maxCapacity else START_CAPACITY)
      ensures 7 * maxCapacity < 20 * size
    {
      var e := CapacityExponent(size);
      var max := Pow2(e);
      this.size, maxCapacity, maxExp := size, max, e;
      assert Pow2(8) == 256;
      var cap := if max < START_CAPACITY then max else START_CAPACITY;
      exp := if max < START_CAPACITY then e else 8;
      capacity, capLimit, mask := cap, cap * 7 / 10, cap - 1;
      entries := new nat[max](i => EMPTY);
      storage := new Entry[size](i => Entry(EMPTY, 0, 0, 0));
      storageUsed, keys, hashes, values := 0, [], [], [];
    }

    ghost predicate Sized()
      reads this
    {
      && entries.Length == maxCapacity && storage.Length == size && 0 < size < EMPTY
      && maxCapacity == Pow2(maxExp) && 10 * size <= 7 * maxCapacity
      && capacity == Pow2(exp) && capacity <= maxCapacity
      && capLimit == capacity * 7 / 10 && mask == capacity - 1
      && storageUsed == |keys| == |hashes| == |values| && storageUsed <= size
    }

    ghost predicate Stored()
      reads this, storage
      requires Sized()
    {
      forall i :: 0 <= i < storageUsed ==>
        storage[i].key == keys[i] && storage[i].hash == hashes[i] && storage[i].value == values[i]
    }

    /** The first `n` entries are threaded into the directory. */
    ghost predicate Threaded(n: nat)
      reads this, storage, entries
      requires Sized() && n <= storageUsed
    {
      && (forall d :: 0 <= d < capacity ==> entries[d] == Ref(LastIn(hashes, capacity, n, d)))
      && (forall i :: 0 <= i < n ==> storage[i].next == Ref(LastIn(hashes, capacity, i, Slot(hashes[i], capacity))))
    }

    ghost predicate Valid()
      reads this, storage, entries
    {
      Sized() && Stored() && Threaded(storageUsed)
    }

    /** Ready for the next use: nothing stored, and no slot of the directory in use. */
    ghost predicate Empty()
      reads this, entries
    {
      Sized() && storageUsed == 0 && forall d :: 0 <= d < capacity ==> entries[d] == EMPTY
    }

    /** Entries that would be looked at for a hash: those in its slot. */
    ghost predicate InSlot(i: nat, hash: Hash)
      reads this
      requires Sized() && i < storageUsed
    {
      Slot(hashes[i], capacity) == Slot(hash, capacity)
    }

    /** The newest entry in the slot of the hash whose key passes the comparison; EMPTY stands
        for the null pointer. */
    method FindFirst(hash: Hash, comp: nat -> bool) returns (cand: nat)
      requires Valid()
      ensures cand != EMPTY ==> cand < storageUsed && InSlot(cand, hash) && comp(keys[cand])
      ensures forall i: nat :: i < storageUsed && InSlot(i, hash) && comp(keys[i]) ==> cand != EMPTY && i <= cand
    {
      hide Slot, LastIn, Pow2, And;
      MaskIsSlot(hash, exp, capacity);
      ghost var d := Slot(hash, capacity);
      LastInGap(hashes, capacity, storageUsed, d);
      cand := entries[And(hash, mask)];
      while cand != EMPTY
        invariant cand != EMPTY ==> cand < storageUsed && Slot(hashes[cand], capacity) == d
        invariant forall i :: 0 <= i < storageUsed && (cand == EMPTY || cand < i) && Slot(hashes[i], capacity) == d ==>
          !comp(keys[i])
        decreases if cand == EMPTY then 0 else cand + 1
      {
        if comp(storage[cand].key) { return; }
        LastInGap(hashes, capacity, cand, d);
        cand := storage[cand].next;
      }
    }

    /** Through the pointer findFirst returned. */
    method SetValue(i: nat, value: nat)
      requires Valid() && i < storageUsed
      modifies this`values, storage
      ensures Valid() && values == old(values)[i := value]
    {
      storage[i] := storage[i].(value := value);
      values := values[i := value];
    }

    /** Puts an entry on top of its chain. */
    method Thread(i: nat)
      requires Sized() && i < storageUsed && Threaded(i) && storage[i].hash == hashes[i]
      modifies entries, storage
      ensures Threaded(i + 1)
      ensures forall j :: 0 <= j < storage.Length ==>
        storage[j] == old(storage[j]).(next := storage[j].next)
    {
      hide Slot, Pow2, And;
      var hash := storage[i].hash;
      MaskIsSlot(hash, exp, capacity);
      var dir := And(hash, mask);
      storage[i] := storage[i].(next := entries[dir]);
      entries[dir] := i;
    }

    method ClearByMemset()
      requires Sized()
      modifies entries
      ensures forall d :: 0 <= d < capacity ==> entries[d] == EMPTY
      ensures Threaded(0)
    {
      var d := 0;
      while d < capacity
        invariant d <= capacity
        invariant forall k :: 0 <= k < d ==> entries[k] == EMPTY
      {
        entries[d] := EMPTY;
        d := d + 1;
      }
    }

    /** Doubling the directory in the middle of a pass; it never outgrows its array. */
    method Grow()
      requires Sized() && Stored() && storageUsed > capLimit
      modifies this`capacity, this`capLimit, this`mask, this`exp, entries, storage
      ensures Valid() && capacity == 2 * old(capacity)
    {
      hide Slot, LastIn, And;
      NextPower(exp, maxExp);
      capacity := capacity * 2;
      exp := exp + 1;
      capLimit := capacity * 7 / 10;
      mask := capacity - 1;
      ClearByMemset();
      var i := 0;
      while i < storageUsed
        invariant i <= storageUsed
        invariant Sized() && Stored() && Threaded(i) && capacity == 2 * old(capacity)
      {
        Thread(i);
        i := i + 1;
      }
    }

    /** What growth needs is that the table is used for at most `size` elements. */
    method Insert(key: nat, hash: Hash, value: nat)
      requires Valid() && storageUsed < size
      modifies this, entries, storage
      ensures Valid()
      ensures keys == old(keys) + [key] && hashes == old(hashes) + [hash] && values == old(values) + [value]
      ensures capacity == old(if storageUsed + 1 > capLimit then 2 * capacity else capacity)
    {
      hide LastIn, Slot, Pow2, And;
      var entryPos := storageUsed;
      storageUsed := storageUsed + 1;
      ghost var before := hashes;
      keys, hashes, values := keys + [key], hashes + [hash], values + [value];
      storage[entryPos] := Entry(storage[entryPos].next, hash, key, value);
      StillThreaded(before, entryPos);
      Thread(entryPos);
      if storageUsed > capLimit {
        Grow();
      }
    }

    lemma StillThreaded(before: seq<Hash>, n: nat)
      requires Sized() && n == |before| < storageUsed && before == hashes[..n]
      requires forall d :: 0 <= d < capacity ==> entries[d] == Ref(LastIn(before, capacity, n, d))
      requires forall i :: 0 <= i < n ==> storage[i].next == Ref(LastIn(before, capacity, i, Slot(hashes[i], capacity)))
      ensures Threaded(n)
    {
      forall d | 0 <= d < capacity ensures entries[d] == Ref(LastIn(hashes, capacity, n, d)) {
        LastInPrefix(before, hashes, capacity, n, d);
      }
      forall i | 0 <= i < n ensures storage[i].next == Ref(LastIn(hashes, capacity, i, Slot(hashes[i], capacity))) {
        LastInPrefix(before, hashes, capacity, i, Slot(hashes[i], capacity));
      }
    }

    /** clear(hash): the slot of one hash. */
    method ClearSlot(hash: Hash)
      requires Sized()
      modifies entries
      ensures forall d :: 0 <= d < capacity ==>
        entries[d] == if d == Slot(hash, capacity) then EMPTY else old(entries[d])
    {
      hide Slot, Pow2, And;
      MaskIsSlot(hash, exp, capacity);
      entries[And(hash, mask)] := EMPTY;
    }

    /** The slots of these hashes are all the slots in use. */
    ghost predicate Covers(used: seq<Hash>)
      reads this
      requires Sized()
    {
      forall i: nat :: i < storageUsed ==> CoversEntry(used, i)
    }

    ghost predicate CoversEntry(used: seq<Hash>, i: nat)
      reads this
      requires Sized() && i < storageUsed
    {
      exists j :: 0 <= j < |used| && Slot(used[j], capacity) == Slot(hashes[i], capacity)
    }

    /** clear(clearElements): `used` are the hashes whose slots the caller would clear one by one,
        which it does while the table is less than 3/10 full. They must cover what was stored. */
    method Clear(used: seq<Hash>)
      requires Valid()
      requires Covers(used)
      modifies this, entries
      ensures Valid() && Empty() && capacity == old(capacity)
    {
      if 10 * storageUsed < 3 * capacity {
        ClearSlots(used);
      } else {
        ClearByMemset();
      }
      storageUsed := 0;
      keys, hashes, values := [], [], [];
    }

    method ClearSlots(used: seq<Hash>)
      requires Valid()
      requires Covers(used)
      modifies entries
      ensures forall d :: 0 <= d < capacity ==> entries[d] == EMPTY
    {
      hide Slot, LastIn, Pow2;
      var j := 0;
      while j < |used|
        invariant j <= |used|
        invariant forall d :: 0 <= d < capacity ==> entries[d] == EMPTY || entries[d] == old(entries[d])
        invariant forall k :: 0 <= k < j ==> entries[Slot(used[k], capacity)] == EMPTY
      {
        ClearSlot(used[j]);
        j := j + 1;
      }
      forall d | 0 <= d < capacity ensures entries[d] == EMPTY {
        LastInGap(hashes, capacity, storageUsed, d);
        var i := LastIn(hashes, capacity, storageUsed, d);
        assert i != NONE ==> CoversEntry(used, i);
      }
    }
  }
}
