/** What one call of each join algorithm delivers, in terms of the queue of unfinished
    chains, and what a vector of probe tuples owes in total. */
module JoinSpec {
  import opened Bits
  import opened Hashmap
  import opened ProbeQueue

  /** A vector of probe tuples: their hashes, the rows they select, and the key column of
      the chunk they come from. Without a selection vector, `sel` is the identity. */
  datatype Vector<K> = Vector(hashes: seq<Hash>, sel: seq<nat>, keys: seq<K>)

  // ------------------------------------------------------------ fresh probes

  ghost function Head(t: Table, hash: Hash, id: nat): seq<Probe>
    requires t.HasDirectory()
  {
    var entry := t.FindChainTagged(hash);
    if entry == END then [] else [Probe(id, entry)]
  }

  /** The chains a fresh call starts with: one for each tuple whose hash passes the filter. */
  ghost function Heads(t: Table, hashes: seq<Hash>): (q: seq<Probe>)
    requires t.HasDirectory()
    ensures |q| <= |hashes|
    ensures forall i :: 0 <= i < |q| ==> q[i].id < |hashes|
    ensures forall i :: 0 <= i < |q| ==> q[i].entry != END && q[i].entry == t.FindChainTagged(hashes[q[i].id])
  {
    if hashes == [] then []
    else
      var n := |hashes| - 1;
      Heads(t, hashes[..n]) + Head(t, hashes[n], n)
  }

  lemma HeadsWalkable(t: Table, work: set<Word>, hashes: seq<Hash>)
    requires t.Holds(work)
    ensures Walkable(t.heap, Heads(t, hashes))
  {
    var q := Heads(t, hashes);
    forall i | 0 <= i < |q| ensures Starts(t.heap, q[i]) {
      FindIsComplete(t, work, hashes[q[i].id]);
    }
  }

  /** The test of joinAllParallel and joinAllSIMD: entry->hash == hash. */
  function SameHash(heap: Heap, hashes: seq<Hash>): Probe -> bool {
    (x: Probe) => x.id < |hashes| && x.entry in heap && heap[x.entry].hash == hashes[x.id]
  }

  /** joinBoncz reports every entry of a chain and leaves the test to keys_equal. */
  function Always(): Probe -> bool {
    (x: Probe) => true
  }

  /** Fresh probes owe each entry with the hash of a tuple exactly once to that tuple, and
      nothing else but entries of the table. */
  lemma {:induction false} HeadsOwe(t: Table, work: set<Word>, hashes: seq<Hash>, y: Probe)
    requires t.Holds(work)
    ensures Walkable(t.heap, Heads(t, hashes))
    ensures Owed(t.heap, Heads(t, hashes), y) <= 1
    ensures Owed(t.heap, Heads(t, hashes), y) == 1 ==> y.id < |hashes| && y.entry in work
    ensures y.id < |hashes| && y.entry in work && t.heap[y.entry].hash == hashes[y.id]
            ==> Owed(t.heap, Heads(t, hashes), y) == 1
  {
    HeadsWalkable(t, work, hashes);
    if hashes != [] {
      var n := |hashes| - 1;
      HeadsOwe(t, work, hashes[..n], y);
      HeadOwes(t, work, hashes[n], n, y);
      OwedConcat(t.heap, Heads(t, hashes[..n]), Head(t, hashes[n], n), y);
    }
  }

  lemma HeadOwes(t: Table, work: set<Word>, hash: Hash, n: nat, y: Probe)
    requires t.Holds(work)
    ensures Walkable(t.heap, Head(t, hash, n))
    ensures y.id != n ==> Owed(t.heap, Head(t, hash, n), y) == 0
    ensures Owed(t.heap, Head(t, hash, n), y) <= 1
    ensures Owed(t.heap, Head(t, hash, n), y) == 1 ==> y.entry in work
    ensures y.id == n && y.entry in work && t.heap[y.entry].hash == hash
            ==> Owed(t.heap, Head(t, hash, n), y) == 1
  {
    FindIsComplete(t, work, hash);
    var q := Head(t, hash, n);
    var c := Chain(t.heap, t.FindChainTagged(hash));
    ChainStep(t.heap, t.FindChainTagged(hash));
    TimesNoDuplicates(c, y.entry);
    if q != [] {
      assert q[1..] == [];
      assert Owed(t.heap, q, y) == Leads(t.heap, q[0], y);
    }
  }

  lemma {:induction false} TimesNoDuplicates<T>(s: seq<T>, y: T)
    requires NoDuplicates(s)
    ensures Times(s, y) == if y in s then 1 else 0
  {
    if s != [] {
      TimesNoDuplicates(s[1..], y);
      assert s == [s[0]] + s[1..];
    }
  }

  // ------------------------------------------------------------ joinBoncz

  /** One call of joinBoncz: whole passes over the queue, until it is empty or the next pass
      might not fit. */
  ghost function Passes(heap: Heap, q: seq<Probe>, space: nat): (r: (seq<Probe>, seq<Probe>))
    requires Walkable(heap, q) && |q| <= space
    ensures Walkable(heap, r.1)
    ensures |r.0| <= space && |r.1| <= |q|
    decreases Length(heap, q)
  {
    if q == [] then ([], [])
    else
      ParksShorten(heap, q);
      var q1 := Parks(heap, q);
      if q1 == [] || |q| + |q1| >= space then (q, q1)
      else
        var (o2, q2) := Passes(heap, q1, space - |q|);
        (q + o2, q2)
  }

  lemma {:induction false} ReportsAll(q: seq<Probe>)
    ensures Reports(Always(), q) == q
  {
    if q != [] {
      ReportsAll(q[..|q| - 1]);
    }
  }

  /** A joinBoncz call hands over exactly what it takes off the debt, and makes progress. */
  lemma {:induction false} PassesConserve(heap: Heap, q: seq<Probe>, space: nat, y: Probe)
    requires Walkable(heap, q) && |q| <= space
    ensures var (o, q') := Passes(heap, q, space);
            && Times(o, y) + Owed(heap, q', y) == Owed(heap, q, y)
            && Length(heap, q') <= Length(heap, q)
            && (q != [] ==> Length(heap, q') < Length(heap, q))
    decreases Length(heap, q)
  {
    hide Finite, Walkable, Owed, Length, Parks, Reports;
    if q != [] {
      ParksShorten(heap, q);
      ReportsAll(q);
      VisitsConserve(heap, Always(), q, y);
      var q1 := Parks(heap, q);
      if !(q1 == [] || |q| + |q1| >= space) {
        PassesConserve(heap, q1, space - |q|, y);
        TimesConcat(q, Passes(heap, q1, space - |q|).0, y);
      }
    }
  }

  // ------------------------------------------------------------ identifiers

  ghost predicate Within(q: seq<Probe>, n: nat) {
    forall i :: 0 <= i < |q| ==> q[i].id < n
  }

  lemma {:induction false} ParksWithin(heap: Heap, q: seq<Probe>, n: nat)
    requires Walkable(heap, q) && Within(q, n)
    ensures Within(Parks(heap, q), n)
  {
    if q != [] {
      ParksWithin(heap, q[..|q| - 1], n);
      Parkable(heap, q[|q| - 1]);
    }
  }

  lemma {:induction false} ReportsWithin(emit: Probe -> bool, q: seq<Probe>, n: nat)
    requires Within(q, n)
    ensures Within(Reports(emit, q), n)
  {
    if q != [] {
      ReportsWithin(emit, q[..|q| - 1], n);
    }
  }

  lemma WithinConcat(q: seq<Probe>, r: seq<Probe>, n: nat)
    ensures Within(q + r, n) <==> Within(q, n) && Within(r, n)
  {
    if Within(q + r, n) {
      forall i | 0 <= i < |q| ensures q[i].id < n { assert (q + r)[i] == q[i]; }
      forall i | 0 <= i < |r| ensures r[i].id < n { assert (q + r)[|q| + i] == r[i]; }
    }
  }

  lemma {:induction false} DrainWithin(heap: Heap, emit: Probe -> bool, q: seq<Probe>, space: nat, n: nat)
    requires Walkable(heap, q) && Within(q, n)
    ensures Within(Drain(heap, emit, q, space).0, n)
    ensures Within(Drain(heap, emit, q, space).1, n)
    decreases Length(heap, q)
  {
    hide Finite, Length, Parks, Reports;
    if q == [] {
    } else if |q| > space {
      ParksWithin(heap, q[..space], n);
      ReportsWithin(emit, q[..space], n);
      WithinConcat(q[space..], Parks(heap, q[..space]), n);
    } else {
      ParksWithin(heap, q, n);
      ReportsWithin(emit, q, n);
      ParksShorten(heap, q);
      var o := Reports(emit, q);
      DrainWithin(heap, emit, Parks(heap, q), space - |o|, n);
      WithinConcat(o, Drain(heap, emit, Parks(heap, q), space - |o|).0, n);
    }
  }

  lemma {:induction false} PassesWithin(heap: Heap, q: seq<Probe>, space: nat, n: nat)
    requires Walkable(heap, q) && |q| <= space && Within(q, n)
    ensures Within(Passes(heap, q, space).0, n)
    ensures Within(Passes(heap, q, space).1, n)
    decreases Length(heap, q)
  {
    hide Finite, Walkable, Length, Parks;
    if q != [] {
      ParksWithin(heap, q, n);
      ParksShorten(heap, q);
      var q1 := Parks(heap, q);
      if !(q1 == [] || |q| + |q1| >= space) {
        PassesWithin(heap, q1, space - |q|, n);
        WithinConcat(q, Passes(heap, q1, space - |q|).0, n);
      }
    }
  }
}
