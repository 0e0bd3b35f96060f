/** runtime::Hashmapx without tags, together with the stack its entries live in: the table of one
    thread of a GroupBy. */
module GroupTables {
  import opened Bits
  import opened SlotChains
  import opened Folds

  function HashesOf<K, V>(rows: seq<Row<K, V>>): (h: seq<Hash>)
    ensures |h| == |rows| && forall i :: 0 <= i < |rows| ==> h[i] == rows[i].hash
  {
    seq(|rows|, i requires 0 <= i < |rows| => rows[i].hash)
  }

  /** How many entries between two others are in this slot. */
  function SlotsBetween(hashes: seq<Hash>, cap: nat, d: nat, low: int, high: nat): nat
    requires cap > 0 && NONE <= low < high <= |hashes|
    decreases high
  {
    if high == low + 1 then 0
    else SlotsBetween(hashes, cap, d, low, high - 1) + if Slot(hashes[high - 1], cap) == d then 1 else 0
  }

  lemma {:induction false} PassedNone(hashes: seq<Hash>, cap: nat, d: nat, low: int, high: nat)
    requires cap > 0 && NONE <= low < high <= |hashes|
    requires forall j :: 0 <= j < high && low < j ==> Slot(hashes[j], cap) != d
    ensures SlotsBetween(hashes, cap, d, low, high) == 0
    decreases high
  {
    if high > low + 1 { PassedNone(hashes, cap, d, low, high - 1); }
  }

  lemma {:induction false} PassedOne(hashes: seq<Hash>, cap: nat, d: nat, low: int, mid: nat, high: nat)
    requires cap > 0 && NONE <= low < mid < high <= |hashes| && Slot(hashes[mid], cap) == d
    requires forall j :: 0 <= j < mid && low < j ==> Slot(hashes[j], cap) != d
    ensures SlotsBetween(hashes, cap, d, low, high) == SlotsBetween(hashes, cap, d, mid, high) + 1
    decreases high
  {
    if high == mid + 1 {
      PassedNone(hashes, cap, d, low, mid);
    } else {
      PassedOne(hashes, cap, d, low, mid, high - 1);
    }
  }

  class Hashmapx<K(==), V> {
    /** The directory; entries are known by their place in the stack. */
    var dir: array<int>
    var capacity: nat
    var mask: nat
    var nrEntries: nat

    /** The stack of entries: what they hold, and the next pointers of their headers. */
    var rows: seq<Row<K, V>>
    var next: seq<int>

    ghost var exp: nat

    /** setSize(n) of a new table. */
    constructor (n: nat)
      requires n > 0
      ensures Valid() && rows == [] && fresh(dir) && capacity > 1
    {
      var e := CapacityExponent(n);
      var cap := Pow2(e);
      exp, capacity, mask, nrEntries, rows, next := e, cap, cap - 1, 0, [], [];
      dir := new int[cap](i => NONE);
    }

    ghost predicate Sized()
      reads this
    {
      && capacity == Pow2(exp) == dir.Length && mask == capacity - 1
      && |next| == |rows|
    }

    /** The first n entries are chained. */
    ghost predicate Threaded(n: nat)
      reads this, dir
      requires Sized() && n <= |rows|
    {
      && (forall d :: 0 <= d < capacity ==> dir[d] == LastIn(HashesOf(rows), capacity, n, d))
      && (forall i :: 0 <= i < n ==> next[i] == LastIn(HashesOf(rows), capacity, i, Slot(rows[i].hash, capacity)))
    }

    ghost predicate Valid()
      reads this, dir
    {
      Sized() && nrEntries == |rows| && Threaded(|rows|)
    }

    /** findOne: complete and correct, because a key's entry is in the chain of its slot. */
    method FindOne(key: K, hash: Hash) returns (e: int)
      requires Valid()
      ensures NONE <= e < |rows|
      ensures e != NONE ==> rows[e].hash == hash && rows[e].k == key
      ensures e == NONE ==> forall i :: 0 <= i < |rows| && rows[i].hash == hash ==> rows[i].k != key
    {
      hide Slot, LastIn, Pow2, And;
      MaskIsSlot(hash, exp, capacity);
      ghost var d := Slot(hash, capacity);
      LastInGap(HashesOf(rows), capacity, |rows|, d);
      e := dir[And(hash, mask)];
      while e != NONE
        invariant NONE <= e < |rows|
        invariant e != NONE ==> Slot(rows[e].hash, capacity) == d
        invariant forall i :: 0 <= i < |rows| && e < i && Slot(rows[i].hash, capacity) == d ==>
          !(rows[i].hash == hash && rows[i].k == key)
        decreases e + 1
      {
        if rows[e].hash == hash && rows[e].k == key { return; }
        LastInGap(HashesOf(rows), capacity, e, d);
        e := next[e];
      }
    }

    /** The lookup of a whole vector walks the chain for the hash alone. */
    method FindHash(hash: Hash) returns (e: int)
      requires Valid()
      ensures NONE <= e < |rows|
      ensures e != NONE ==> rows[e].hash == hash
      ensures forall i :: 0 <= i < |rows| && e < i ==> rows[i].hash != hash
    {
      hide Slot, LastIn, Pow2, And;
      MaskIsSlot(hash, exp, capacity);
      ghost var d := Slot(hash, capacity);
      LastInGap(HashesOf(rows), capacity, |rows|, d);
      e := dir[And(hash, mask)];
      while e != NONE
        invariant NONE <= e < |rows|
        invariant e != NONE ==> Slot(rows[e].hash, capacity) == d
        invariant forall i :: 0 <= i < |rows| && e < i && Slot(rows[i].hash, capacity) == d ==> rows[i].hash != hash
        decreases e + 1
      {
        if rows[e].hash == hash { return; }
        LastInGap(HashesOf(rows), capacity, e, d);
        e := next[e];
      }
    }

    /** Behind an entry, the next older one with this hash, and how many entries are passed over. */
    method FindOlder(e: nat, hash: Hash) returns (older: int, passed: nat)
      requires Valid() && e < |rows| && rows[e].hash == hash
      ensures NONE <= older < e && (older != NONE ==> rows[older].hash == hash)
      ensures forall i :: 0 <= i < e && older < i ==> rows[i].hash != hash
      ensures passed == SlotsBetween(HashesOf(rows), capacity, Slot(hash, capacity), older, e)
    {
      hide Slot, LastIn;
      ghost var d := Slot(hash, capacity);
      LastInGap(HashesOf(rows), capacity, e, d);
      older, passed := next[e], 0;
      PassedNone(HashesOf(rows), capacity, d, older, e);
      while older != NONE
        invariant NONE <= older < e && (older != NONE ==> Slot(rows[older].hash, capacity) == d)
        invariant forall i :: 0 <= i < e && older < i ==> rows[i].hash != hash
        invariant passed == SlotsBetween(HashesOf(rows), capacity, d, older, e)
        decreases older + 1
      {
        if rows[older].hash == hash { return; }
        LastInGap(HashesOf(rows), capacity, older, d);
        PassedOne(HashesOf(rows), capacity, d, next[older], older, e);
        older, passed := next[older], passed + 1;
      }
    }

    /** New entries in the stack that are not in the table yet. */
    method Append(more: seq<Row<K, V>>)
      requires Valid()
      modifies this`rows, this`next
      ensures Sized() && rows == old(rows) + more && Threaded(|old(rows)|)
    {
      hide Slot, LastIn, Pow2;
      ghost var before := rows;
      rows, next := rows + more, next + seq(|more|, _ => NONE);
      StillThreaded(before);
    }

    /** insertAll of the entries from `first` on. */
    method InsertBlock(first: nat)
      requires Sized() && first <= |rows| && Threaded(first) && nrEntries == first
      modifies this`next, this`nrEntries, dir
      ensures Valid()
    {
      hide Slot, LastIn, Pow2;
      var i := first;
      while i < |rows|
        invariant first <= i <= |rows| && Sized() && Threaded(i) && nrEntries == first
      {
        Thread(i);
        i := i + 1;
      }
      nrEntries := |rows|;
    }

    /** Puts entry i on top of its chain. */
    method Thread(i: nat)
      requires Sized() && i < |rows| && Threaded(i)
      modifies this`next, dir
      ensures Sized() && Threaded(i + 1)
    {
      hide Slot, Pow2, And;
      var hash := rows[i].hash;
      MaskIsSlot(hash, exp, capacity);
      var pos := And(hash, mask);
      next := next[i := dir[pos]];
      dir[pos] := i;
    }

    lemma StillThreaded(before: seq<Row<K, V>>)
      requires Sized() && |before| <= |rows|
      requires forall i :: 0 <= i < |before| ==> rows[i].hash == before[i].hash
      requires forall d :: 0 <= d < capacity ==> dir[d] == LastIn(HashesOf(before), capacity, |before|, d)
      requires forall i :: 0 <= i < |before| ==>
        next[i] == LastIn(HashesOf(before), capacity, i, Slot(before[i].hash, capacity))
      ensures Threaded(|before|)
    {
      var n := |before|;
      forall d | 0 <= d < capacity ensures dir[d] == LastIn(HashesOf(rows), capacity, n, d) {
        LastInPrefix(HashesOf(before), HashesOf(rows), capacity, n, d);
      }
      forall i | 0 <= i < n ensures next[i] == LastIn(HashesOf(rows), capacity, i, Slot(rows[i].hash, capacity)) {
        LastInPrefix(HashesOf(before), HashesOf(rows), capacity, i, Slot(rows[i].hash, capacity));
      }
    }

    /** emplace_back, then insert. */
    method Create(key: K, hash: Hash, v: V) returns (e: nat)
      requires Valid()
      modifies this`rows, this`next, this`nrEntries, dir
      ensures Valid() && rows == old(rows) + [Row(hash, key, v)] && e == |rows| - 1
    {
      hide Slot, LastIn, Pow2;
      ghost var before := rows;
      e := |rows|;
      rows, next := rows + [Row(hash, key, v)], next + [NONE];
      StillThreaded(before);
      Thread(e);
      nrEntries := nrEntries + 1;
    }

    /** Through the pointer to a group's value. */
    method SetValue(e: nat, v: V)
      requires Valid() && e < |rows|
      modifies this`rows
      ensures Valid() && rows == old(rows)[e := old(rows)[e].(v := v)]
    {
      hide Slot, LastIn, Pow2;
      ghost var before := rows;
      rows := rows[e := rows[e].(v := v)];
      StillThreaded(before);
    }

    /** clear of the table, and of the stack. */
    method Clear()
      requires Sized()
      modifies this`rows, this`next, this`nrEntries, dir
      ensures Valid() && rows == []
    {
      nrEntries, rows, next := 0, [], [];
      var i := 0;
      while i < capacity
        invariant i <= capacity && rows == [] && next == [] && nrEntries == 0
        invariant forall d :: 0 <= d < i ==> dir[d] == NONE
      {
        dir[i] := NONE;
        i := i + 1;
      }
    }

    /** A new, empty directory; the entries stay in their stack. */
    method SetSize(n: nat) returns (maxFill: nat)
      requires n > 0 && Sized()
      modifies this`dir, this`capacity, this`mask, this`exp, this`nrEntries
      ensures Sized() && Threaded(0) && fresh(dir) && nrEntries == 0
      ensures n <= maxFill < capacity && 10 * n <= 7 * capacity < 20 * n
    {
      var e := CapacityExponent(n);
      nrEntries, exp := 0, e;
      capacity := Pow2(e);
      mask := capacity - 1;
      dir := new int[capacity](i => NONE);
      maxFill := capacity * 7 / 10;
    }

    /** insertAll: every entry of the stack, in its order. */
    method InsertAll()
      requires Sized() && Threaded(0) && nrEntries == 0
      modifies this`next, this`nrEntries, dir
      ensures Valid()
    {
      hide Slot, LastIn, Pow2;
      var i := 0;
      while i < |rows|
        invariant i <= |rows| && Sized() && Threaded(i) && nrEntries == 0
      {
        Thread(i);
        i := i + 1;
      }
      nrEntries := nrEntries + |rows|;
    }

    /** GroupBy::grow: nothing is lost, and nothing changes but the directory. */
    method Grow() returns (newCapacity: nat)
      requires Valid() && nrEntries > 0
      modifies this`dir, this`capacity, this`mask, this`exp, this`nrEntries, this`next
      ensures Valid() && fresh(dir) && nrEntries == old(nrEntries) < newCapacity < capacity
    {
      newCapacity := SetSize(nrEntries * 2);
      InsertAll();
    }
  }
}
