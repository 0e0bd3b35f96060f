/** Hashjoin::joinAll: the probe that follows one chain after the other and parks only the last. It
    does not always deliver every match once; this module says exactly when it does. */
module ChainJoin {
  import opened Bits
  import opened Hashmap
  import opened ProbeQueue

  // ------------------------------------------------------------ all matches

  /** The matches a chain holds for probe tuple `id`, in its order. */
  ghost function Matches(heap: Heap, p: Word, hash: Hash, id: nat): (m: seq<Probe>)
    requires Finite(heap, p)
    ensures forall j :: 0 <= j < |m| ==> m[j].id == id && m[j].entry in heap
    decreases |Chain(heap, p)|
  {
    ChainStep(heap, p);
    if p == END then []
    else (if heap[p].hash == hash then [Probe(id, p)] else []) + Matches(heap, heap[p].next, hash, id)
  }

  ghost predicate Searchable(t: Table, hashes: seq<Hash>) {
    t.HasDirectory() && forall i :: 0 <= i < |hashes| ==> Finite(t.heap, t.FindChainTagged(hashes[i]))
  }

  /** The matches of all tuples from `i` on. */
  ghost function From(t: Table, hashes: seq<Hash>, i: nat): (m: seq<Probe>)
    requires Searchable(t, hashes) && i <= |hashes|
    ensures forall j :: 0 <= j < |m| ==> i <= m[j].id < |hashes| && m[j].entry in t.heap
    decreases |hashes| - i
  {
    if i == |hashes| then []
    else Matches(t.heap, t.FindChainTagged(hashes[i]), hashes[i], i) + From(t, hashes, i + 1)
  }

  lemma {:induction false} MatchesTimes(heap: Heap, p: Word, hash: Hash, id: nat, y: Probe)
    requires Finite(heap, p) && NoDuplicates(Chain(heap, p))
    ensures Times(Matches(heap, p, hash, id), y) ==
      if y.id == id && y.entry in Chain(heap, p) && y.entry in heap && heap[y.entry].hash == hash then 1 else 0
    decreases |Chain(heap, p)|
  {
    ChainStep(heap, p);
    if p != END {
      var c, d := Chain(heap, p), Chain(heap, heap[p].next);
      assert forall i :: 0 <= i < |d| ==> d[i] == c[i + 1];
      assert p !in d;
      MatchesTimes(heap, heap[p].next, hash, id, y);
      var one := if heap[p].hash == hash then [Probe(id, p)] else [];
      TimesConcat(one, Matches(heap, heap[p].next, hash, id), y);
      assert one != [] ==> one[1..] == [];
    }
  }

  /** The matches of all tuples are the join: every entry with the hash of a tuple, once. */
  lemma {:induction false} FromIsJoin(t: Table, work: set<Word>, hashes: seq<Hash>, i: nat, y: Probe)
    requires t.Holds(work) && Searchable(t, hashes) && i <= |hashes|
    ensures Times(From(t, hashes, i), y) ==
      if i <= y.id < |hashes| && y.entry in work && t.heap[y.entry].hash == hashes[y.id] then 1 else 0
    decreases |hashes| - i
  {
    hide Table.Holds, Table.FindChainTagged, Table.HasDirectory, Matches, Finite, NoDuplicates;
    if i < |hashes| {
      FromIsJoin(t, work, hashes, i + 1, y);
      FindIsComplete(t, work, hashes[i]);
      var m := Matches(t.heap, t.FindChainTagged(hashes[i]), hashes[i], i);
      MatchesTimes(t.heap, t.FindChainTagged(hashes[i]), hashes[i], i, y);
      TimesConcat(m, From(t, hashes, i + 1), y);
      StoredInHeap(t, work);
    }
  }

  lemma StoredInHeap(t: Table, work: set<Word>)
    requires t.Holds(work)
    ensures forall e :: e in work ==> e in t.heap
  {
  }

  lemma AllSearchable(t: Table, work: set<Word>, hashes: seq<Hash>)
    requires t.Holds(work)
    ensures Searchable(t, hashes)
  {
    forall i | 0 <= i < |hashes| ensures Finite(t.heap, t.FindChainTagged(hashes[i])) {
      FindIsComplete(t, work, hashes[i]);
    }
  }

  // ------------------------------------------------------------ when it works

  /** A batch that ends with match x ends with the last entry of x's chain, although tuples are left
      or the chain was resumed for tuple `probe` when the batch was begun. */
  ghost predicate StopsAt(t: Table, numProbes: nat, x: Probe, resumed: bool, probe: nat) {
    && x.entry in t.heap && t.heap[x.entry].next == END
    && (x.id + 1 < numProbes || (resumed && x.id == probe))
  }

  /** The match before position `at` is not the last entry of its chain. */
  ghost predicate Parted(t: Table, all: seq<Probe>, at: nat)
    requires at <= |all|
  {
    at > 0 && all[at - 1].entry in t.heap && t.heap[all[at - 1].entry].next != END
  }

  /** Cutting all matches into batches, from position `at` on, never cuts at the end of a chain. */
  ghost predicate Clear(t: Table, numProbes: nat, all: seq<Probe>, batchSize: nat, at: nat)
    requires at <= |all| && batchSize > 0
    decreases |all| - at
  {
    at + batchSize <= |all| ==>
      && !StopsAt(t, numProbes, all[at + batchSize - 1], Parted(t, all, at), if at > 0 then all[at - 1].id else 0)
      && Clear(t, numProbes, all, batchSize, at + batchSize)
  }

  /** The smallest case in which it does: one entry, two tuples with its hash, batches of one. */
  function StallTable(): Table {
    Table(0, [Update(END, 16, 0)], map[16 := EntryHeader(END, 0)])
  }

  lemma StallExample()
    ensures Searchable(StallTable(), [0, 0])
    ensures From(StallTable(), [0, 0], 0) == [Probe(0, 16), Probe(1, 16)]
    ensures !Clear(StallTable(), 2, From(StallTable(), [0, 0], 0), 1, 0)
  {
    var t, hashes: seq<Hash> := StallTable(), [0, 0];
    hide Update, Ptr, Tagged;
    UpdatePoints(END, 16, 0);
    UpdateTags(END, 16, 0, 0);
    assert t.Slot(0) == 0;
    assert t.FindChainTagged(0) == 16;
    assert IsChain(t.heap, END, []);
    assert IsChain(t.heap, 16, [16]);
    ChainStep(t.heap, END);
    ChainStep(t.heap, 16);
    assert Matches(t.heap, 16, 0, 0) == [Probe(0, 16)];
    assert Matches(t.heap, 16, 0, 1) == [Probe(1, 16)];
    assert From(t, hashes, 2) == [];
    assert From(t, hashes, 1) == [Probe(1, 16)];
  }

  /** Following a chain stays in it. */
  lemma {:induction false} NextInChain(heap: Heap, p: Word, e: Word)
    requires Finite(heap, p) && e in Chain(heap, p)
    ensures e in heap && e != END && Finite(heap, e) && Finite(heap, heap[e].next)
    ensures heap[e].next == END || heap[e].next in Chain(heap, p)
    decreases |Chain(heap, p)|
  {
    ChainStep(heap, p);
    var next := heap[p].next;
    ChainStep(heap, next);
    if e != p {
      assert e in Chain(heap, next);
      NextInChain(heap, next, e);
    }
  }

  lemma {:induction false} MatchesHas(heap: Heap, p: Word, hash: Hash, id: nat, e: Word)
    requires Finite(heap, p) && e in Chain(heap, p) && e in heap && heap[e].hash == hash
    ensures Matches(heap, p, hash, id) != []
    decreases |Chain(heap, p)|
  {
    ChainStep(heap, p);
    if e != p {
      assert e in Chain(heap, heap[p].next);
      MatchesHas(heap, heap[p].next, hash, id, e);
    }
  }

  // ------------------------------------------------------------ the operator

  class Hashjoin {
    const ht: Table
    const probeHashes: seq<Hash>
    const batchSize: nat
    const buildMatches: array<Word>
    const probeMatches: array<nat>

    /** cont: the rest of a chain, and the tuple it is followed for. */
    var buildMatch: Word
    var probeHash: Hash
    var nextProbe: nat

    constructor (ht: Table, probeHashes: seq<Hash>, batchSize: nat)
      requires batchSize > 0 && Searchable(ht, probeHashes)
      ensures Valid() && buildMatch == END && nextProbe == 0
      ensures this.ht == ht && this.probeHashes == probeHashes && this.batchSize == batchSize
      ensures fresh(buildMatches) && fresh(probeMatches)
    {
      this.ht, this.probeHashes, this.batchSize := ht, probeHashes, batchSize;
      buildMatches, probeMatches := new Word[batchSize], new nat[batchSize];
      buildMatch, probeHash, nextProbe := END, 0, 0;
    }

    ghost predicate Static() {
      && batchSize > 0 && buildMatches.Length == probeMatches.Length == batchSize && buildMatches != probeMatches
      && Searchable(ht, probeHashes)
    }

    ghost predicate Valid()
      reads this
    {
      && Static() && nextProbe <= |probeHashes|
      && (buildMatch != END ==>
            nextProbe < |probeHashes| && probeHash == probeHashes[nextProbe] && InChain(nextProbe, buildMatch))
    }

    ghost predicate InChain(i: nat, p: Word)
      requires Static() && i < |probeHashes|
    {
      p in Chain(ht.heap, ht.FindChainTagged(probeHashes[i]))
    }

    /** What is left to deliver, judging by cont. */
    ghost function Ahead(): seq<Probe>
      requires Valid()
      reads this
    {
      if buildMatch == END then From(ht, probeHashes, nextProbe)
      else
        NextInChain(ht.heap, ht.FindChainTagged(probeHashes[nextProbe]), buildMatch);
        Matches(ht.heap, buildMatch, probeHash, nextProbe) + From(ht, probeHashes, nextProbe + 1)
    }

    /** The batch fills up with the last entry of a chain, where the rest of the chain to park is
        the null pointer. Only at the end of the last chain, if it was begun in the same call, the
        code looks whether anything is left. */
    ghost predicate Stalls()
      requires Valid()
      reads this
    {
      var r := Ahead();
      |r| >= batchSize && StopsAt(ht, |probeHashes|, r[batchSize - 1], buildMatch != END, nextProbe)
    }

    ghost predicate Wrote(out: seq<Probe>)
      reads buildMatches, probeMatches
    {
      && |out| <= buildMatches.Length && |out| <= probeMatches.Length
      && forall j :: 0 <= j < |out| ==> buildMatches[j] == out[j].entry && probeMatches[j] == out[j].id
    }

    method Emit(found: nat, x: Probe, ghost out: seq<Probe>)
      requires Static() && Wrote(out) && found == |out| < batchSize
      modifies buildMatches, probeMatches
      ensures Wrote(out + [x])
    {
      buildMatches[found] := x.entry;
      probeMatches[found] := x.id;
    }

    /** The matches of tuple i from p on, which is in its chain, or its end. */
    ghost function MatchesOf(i: nat, p: Word): (m: seq<Probe>)
      requires Static() && i < |probeHashes| && (p == END || InChain(i, p))
    {
      if p == END then []
      else
        NextInChain(ht.heap, ht.FindChainTagged(probeHashes[i]), p);
        Matches(ht.heap, p, probeHashes[i], i)
    }

    /** Entries of a chain from p on. */
    ghost function Steps(i: nat, p: Word): nat
      requires Static() && i < |probeHashes| && (p == END || InChain(i, p))
    {
      if p == END then 0
      else
        NextInChain(ht.heap, ht.FindChainTagged(probeHashes[i]), p);
        |Chain(ht.heap, p)|
    }

    lemma StepChain(i: nat, p: Word)
      requires Static() && i < |probeHashes| && p != END && InChain(i, p)
      ensures p in ht.heap
      ensures var next := ht.heap[p].next;
        && (next == END || InChain(i, next)) && Steps(i, next) < Steps(i, p)
        && MatchesOf(i, p) == (if ht.heap[p].hash == probeHashes[i] then [Probe(i, p)] else []) + MatchesOf(i, next)
    {
      var next := NextOf(i, p);
      ChainStep(ht.heap, p);
      ChainStep(ht.heap, next);
      var m := Matches(ht.heap, next, probeHashes[i], i);
      assert next == END ==> m == [];
      assert m == MatchesOf(i, next);
    }

    lemma NextOf(i: nat, p: Word) returns (next: Word)
      requires Static() && i < |probeHashes| && p != END && InChain(i, p)
      ensures p in ht.heap && next == ht.heap[p].next && (next == END || InChain(i, next))
      ensures Finite(ht.heap, p) && Finite(ht.heap, next)
    {
      NextInChain(ht.heap, ht.FindChainTagged(probeHashes[i]), p);
      next := ht.heap[p].next;
    }

    /** What is left to deliver when the chain of tuple i has been followed up to p. */
    ghost function Rest(i: nat, p: Word): seq<Probe>
      requires Static() && i < |probeHashes| && (p == END || InChain(i, p))
    {
      MatchesOf(i, p) + From(ht, probeHashes, i + 1)
    }

    lemma StartChain(i: nat)
      requires Static() && i < |probeHashes|
      ensures var p := ht.FindChainTagged(probeHashes[i]);
        (p == END || InChain(i, p)) && From(ht, probeHashes, i) == Rest(i, p)
    {
      var p := ht.FindChainTagged(probeHashes[i]);
      ChainStep(ht.heap, p);
      if p != END {
        assert Chain(ht.heap, p)[0] == p;
      } else {
        assert Matches(ht.heap, p, probeHashes[i], i) == [];
      }
    }

    /** One entry further. */
    lemma StepRest(out: seq<Probe>, i: nat, p: Word)
      requires Static() && i < |probeHashes| && p != END && InChain(i, p)
      ensures p in ht.heap
      ensures var next := ht.heap[p].next;
        && (next == END || InChain(i, next)) && Steps(i, next) < Steps(i, p)
        && out + Rest(i, p) == (if ht.heap[p].hash == probeHashes[i] then out + [Probe(i, p)] else out) + Rest(i, next)
    {
      StepChain(i, p);
      hide MatchesOf, From, InChain, Steps, Table.FindChainTagged;
      var next := ht.heap[p].next;
      var one := if ht.heap[p].hash == probeHashes[i] then [Probe(i, p)] else [];
      Associate(one, MatchesOf(i, next), From(ht, probeHashes, i + 1));
      Associate(out, one, Rest(i, next));
    }

    lemma EndRest(i: nat)
      requires Static() && i < |probeHashes|
      ensures Rest(i, END) == From(ht, probeHashes, i + 1)
    {
    }

    lemma AheadFresh()
      requires Valid() && buildMatch == END
      ensures Ahead() == From(ht, probeHashes, nextProbe)
    {
    }

    lemma AheadRest()
      requires Valid() && buildMatch != END
      ensures Ahead() == Rest(nextProbe, buildMatch)
    {
    }

    /** A chain with a match is not passed by without delivering anything. */
    lemma NotEmpty(i: nat, p: Word)
      requires Static() && i < |probeHashes| && InChain(i, p) && p in ht.heap && ht.heap[p].hash == probeHashes[i]
      ensures |From(ht, probeHashes, i)| > |From(ht, probeHashes, i + 1)|
    {
      MatchesHas(ht.heap, ht.FindChainTagged(probeHashes[i]), probeHashes[i], i, p);
    }

    /** What a call leaves ahead: after a stall only what comes behind the chain at hand. */
    ghost function Left(stalled: bool): seq<Probe>
      requires Valid() && (stalled ==> nextProbe < |probeHashes|)
      reads this
    {
      if stalled then From(ht, probeHashes, nextProbe + 1) else Ahead()
    }

    /** The last match of a full batch, found in the chain of tuple i, which goes on at `rest`. */
    ghost predicate FullAt(out: seq<Probe>, i: nat, rest: Word)
      requires Static() && i < |probeHashes|
    {
      && |out| == batchSize && out[batchSize - 1].id == i
      && var e := out[batchSize - 1].entry;
         InChain(i, e) && e in ht.heap && ht.heap[e].hash == probeHashes[i] && ht.heap[e].next == rest
    }

    /** The first loop: the chain that was parked. */
    method Resume() returns (found: nat, rest: Word, ghost out: seq<Probe>)
      requires Valid() && buildMatch != END
      modifies buildMatches, probeMatches
      ensures Wrote(out) && found == |out| <= batchSize && (rest == END || InChain(nextProbe, rest))
      ensures Ahead() == out + Rest(nextProbe, rest)
      ensures found == batchSize ==> FullAt(out, nextProbe, rest)
      ensures found < batchSize ==> rest == END
    {
      hide Table.HasDirectory, Table.FindChainTagged, Matches, From, InChain, Rest, Ahead;
      found, out, rest := 0, [], buildMatch;
      AheadRest();
      assert out + Rest(nextProbe, rest) == Rest(nextProbe, rest);
      while rest != END
        invariant Wrote(out) && found == |out| < batchSize && (rest == END || InChain(nextProbe, rest))
        invariant Ahead() == out + Rest(nextProbe, rest)
        decreases Steps(nextProbe, rest)
      {
        StepRest(out, nextProbe, rest);
        var entry := rest;
        rest := ht.heap[entry].next;
        if ht.heap[entry].hash == probeHash {
          Emit(found, Probe(nextProbe, entry), out);
          found, out := found + 1, out + [Probe(nextProbe, entry)];
          if found == batchSize {
            return;
          }
        }
      }
    }

    /** The inner loop: the chain of one tuple. It is left early if the batch is full and something
        seems to be left. */
    method ProbeChain(i: nat, found0: nat, ghost out0: seq<Probe>)
      returns (found: nat, full: bool, rest: Word, ghost out: seq<Probe>)
      requires Static() && i < |probeHashes| && found0 == |out0| < batchSize && Wrote(out0)
      modifies buildMatches, probeMatches
      ensures Wrote(out) && found == |out| <= batchSize && (rest == END || InChain(i, rest))
      ensures out0 + From(ht, probeHashes, i) == out + Rest(i, rest)
      ensures full ==> FullAt(out, i, rest) && (rest != END || i + 1 < |probeHashes|)
      ensures !full ==> rest == END && (found == batchSize ==> FullAt(out, i, END) && i + 1 == |probeHashes|)
    {
      hide Table.HasDirectory, Table.FindChainTagged, Matches, From, InChain, Rest;
      var hash := probeHashes[i];
      found, full, out := found0, false, out0;
      rest := ht.FindChainTagged(hash);
      StartChain(i);
      while rest != END
        invariant Wrote(out) && found == |out| <= batchSize && (rest == END || InChain(i, rest))
        invariant out0 + From(ht, probeHashes, i) == out + Rest(i, rest)
        invariant found == batchSize ==> rest == END && FullAt(out, i, END) && i + 1 == |probeHashes|
        decreases Steps(i, rest)
      {
        StepRest(out, i, rest);
        var entry := rest;
        rest := ht.heap[entry].next;
        if ht.heap[entry].hash == hash {
          Emit(found, Probe(i, entry), out);
          found, out := found + 1, out + [Probe(i, entry)];
          if found == batchSize && (rest != END || i + 1 < |probeHashes|) {
            full := true;
            return;
          }
        }
      }
    }

    /** Saves the state for the continuation. */
    method Suspend(i: nat, rest: Word, ghost out: seq<Probe>)
      requires Static() && i < |probeHashes| && (rest == END || InChain(i, rest)) && FullAt(out, i, rest)
      modifies this`buildMatch, this`probeHash, this`nextProbe
      ensures Valid() && buildMatch == rest && nextProbe == i && out + Left(rest == END) == out + Rest(i, rest)
      ensures rest == END ==> |Ahead()| > |Left(true)|
    {
      hide Table.HasDirectory, Table.FindChainTagged, Matches, From, InChain;
      buildMatch, probeHash, nextProbe := rest, probeHashes[i], i;
      if rest != END {
        AheadRest();
      } else {
        EndRest(i);
        NotEmpty(i, out[batchSize - 1].entry);
      }
    }

    /** The second loop: the tuples from nextProbe on. */
    method ProbeRest(found0: nat, ghost out0: seq<Probe>)
      returns (found: nat, i: nat, full: bool, rest: Word, ghost out: seq<Probe>)
      requires Static() && nextProbe <= |probeHashes| && found0 == |out0| < batchSize && Wrote(out0)
      modifies buildMatches, probeMatches
      ensures Wrote(out) && found == |out| <= batchSize && nextProbe <= i <= |probeHashes|
      ensures full ==> i < |probeHashes| && (rest == END || InChain(i, rest)) && FullAt(out, i, rest)
      ensures full ==>
        out0 + From(ht, probeHashes, nextProbe) == out + Rest(i, rest) && (rest != END || i + 1 < |probeHashes|)
      ensures !full ==> i == |probeHashes| && out0 + From(ht, probeHashes, nextProbe) == out + From(ht, probeHashes, i)
      ensures !full && found == batchSize ==> nextProbe < i && FullAt(out, i - 1, END)
    {
      hide Table.HasDirectory, Table.FindChainTagged, Matches, From, InChain, Rest;
      found, i, full, rest, out := found0, nextProbe, false, END, out0;
      while i < |probeHashes|
        invariant nextProbe <= i <= |probeHashes| && Wrote(out) && found == |out| <= batchSize
        invariant found == batchSize ==> nextProbe < i == |probeHashes| && FullAt(out, i - 1, END)
        invariant out0 + From(ht, probeHashes, nextProbe) == out + From(ht, probeHashes, i)
      {
        found, full, rest, out := ProbeChain(i, found, out);
        EndRest(i);
        if full {
          return;
        }
        i := i + 1;
      }
    }

    /** Whether a full batch stops at the end of a chain. */
    lemma Stopped(out: seq<Probe>, tail: seq<Probe>, i: nat, rest: Word, resumed: bool, probe: nat)
      requires Static() && i < |probeHashes| && FullAt(out, i, rest)
      ensures (out + tail)[batchSize - 1] == out[batchSize - 1]
      ensures StopsAt(ht, |probeHashes|, out[batchSize - 1], resumed, probe) <==>
        rest == END && (i + 1 < |probeHashes| || (resumed && i == probe))
    {
    }

    /** What a call that began with `ahead` to deliver, resuming the chain of tuple `probe` or not, has
        delivered and left. */
    ghost predicate Did(ahead: seq<Probe>, resumed: bool, probe: nat, out: seq<Probe>)
      requires Valid()
      reads this
    {
      var stalled := |ahead| >= batchSize && StopsAt(ht, |probeHashes|, ahead[batchSize - 1], resumed, probe);
      && (stalled ==> nextProbe < |probeHashes| && |Ahead()| > |Left(true)| && |out| == batchSize)
      && ahead == out + Left(stalled) && |out| <= batchSize
      && (|out| < batchSize ==> nextProbe == |probeHashes|)
      && (|out| == batchSize ==> out[batchSize - 1].entry in ht.heap)
      && buildMatch == (if |out| == batchSize then ht.heap[out[batchSize - 1].entry].next else END)
      && (buildMatch != END ==> nextProbe == out[batchSize - 1].id)
    }

    /** A full batch: the state for the continuation is saved, and the call returns. */
    method Return(i: nat, rest: Word, ghost out: seq<Probe>, ghost resumed: bool, ghost probe: nat)
      requires Static() && i < |probeHashes| && (rest == END || InChain(i, rest)) && FullAt(out, i, rest)
      requires rest == END ==> i + 1 < |probeHashes| || (resumed && i == probe)
      modifies this`buildMatch, this`probeHash, this`nextProbe
      ensures Valid() && Did(out + Rest(i, rest), resumed, probe, out)
    {
      hide Table.HasDirectory, Table.FindChainTagged, Matches, From, InChain, Rest, Left, Ahead, StopsAt, Searchable;
      Stopped(out, Rest(i, rest), i, rest, resumed, probe);
      Suspend(i, rest, out);
    }

    /** joinAll. A call delivers the next batch of what is ahead. If it stalls, the whole chain it has
        just finished is ahead again; otherwise exactly the rest is. */
    method JoinAll() returns (found: nat, ghost out: seq<Probe>)
      requires Valid()
      modifies this`buildMatch, this`probeHash, this`nextProbe, buildMatches, probeMatches
      ensures Valid() && Wrote(out) && found == |out| && Did(old(Ahead()), old(buildMatch != END), old(nextProbe), out)
    {
      hide Table.HasDirectory, Table.FindChainTagged, Matches, From, InChain, Rest, Left, Ahead, StopsAt, Searchable,
        Did, Wrote;
      ghost var resumed, probe := buildMatch != END, nextProbe;
      found, out := 0, [];
      NothingWritten();
      if buildMatch != END {
        var rest;
        found, rest, out := Resume();
        EndRest(nextProbe);
        if found == batchSize {
          Return(nextProbe, rest, out, resumed, probe);
          return;
        }
        nextProbe := nextProbe + 1;
      } else {
        AheadFresh();
      }
      assert old(Ahead()) == out + From(ht, probeHashes, nextProbe);
      var i, full, rest;
      found, i, full, rest, out := ProbeRest(found, out);
      if full {
        Return(i, rest, out, resumed, probe);
        return;
      }
      buildMatch := END;
      nextProbe := i;
      NothingLeft(resumed, probe, out);
    }

    lemma NothingWritten()
      requires Static()
      ensures Wrote([])
    {
    }

    lemma NothingLeft(resumed: bool, probe: nat, out: seq<Probe>)
      requires Valid() && buildMatch == END && nextProbe == |probeHashes| && |out| <= batchSize
      requires |out| == batchSize ==>
        0 < nextProbe && FullAt(out, nextProbe - 1, END) && (resumed ==> nextProbe > probe + 1)
      ensures Did(out + From(ht, probeHashes, nextProbe), resumed, probe, out)
    {
      NothingAhead();
      assert out + [] == out;
    }

    lemma NothingAhead()
      requires Valid() && buildMatch == END && nextProbe == |probeHashes|
      ensures Left(false) == [] == From(ht, probeHashes, nextProbe)
    {
    }

    /** The first rows of the output buffers. */
    method Batch(found: nat) returns (rows: seq<Probe>)
      requires Static() && found <= batchSize
      ensures |rows| == found && forall j :: 0 <= j < found ==> rows[j] == Probe(probeMatches[j], buildMatches[j])
    {
      rows := [];
      for j := 0 to found
        invariant |rows| == j && forall k :: 0 <= k < j ==> rows[k] == Probe(probeMatches[k], buildMatches[k])
      {
        rows := rows + [Probe(probeMatches[j], buildMatches[j])];
      }
    }

    ghost function All(): seq<Probe>
      requires Static()
    {
      From(ht, probeHashes, 0)
    }

    ghost predicate ClearFrom(at: nat)
      requires Static() && at <= |All()|
    {
      Clear(ht, |probeHashes|, All(), batchSize, at)
    }

    /** While no call has stalled: what has been delivered, and where cont stands. */
    ghost predicate OnCourse(log: seq<Probe>)
      requires Valid()
      reads this
    {
      && All() == log + Ahead()
      && (nextProbe < |probeHashes| ==> (buildMatch != END <==> Parted(ht, All(), |log|)))
      && (buildMatch != END ==> log != [] && log[|log| - 1].id == nextProbe)
      && (ClearFrom(0) <==> ClearFrom(|log|))
    }

    /** ... and once one has: more has been delivered, or is ahead, than there is. */
    ghost predicate OffCourse(log: seq<Probe>)
      requires Valid()
      reads this
    {
      !ClearFrom(0) && |log| + |Ahead()| > |All()|
    }

    /** One call, and what it adds to the output. */
    method Call(log0: seq<Probe>, ghost clean0: bool) returns (log: seq<Probe>, ghost clean: bool)
      requires Valid() && nextProbe < |probeHashes| && (if clean0 then OnCourse(log0) else OffCourse(log0))
      modifies this`buildMatch, this`probeHash, this`nextProbe, buildMatches, probeMatches
      ensures Valid() && if clean then OnCourse(log) else OffCourse(log)
      ensures nextProbe < |probeHashes| ==> |log| > |log0|
    {
      hide From, Searchable, InChain, Left, Ahead, Clear;
      ghost var ahead, resumed, probe := Ahead(), buildMatch != END, nextProbe;
      ghost var stalls := Stalls();
      var found;
      ghost var out;
      found, out := JoinAll();
      if |out| < batchSize { NothingAhead(); }
      if clean0 {
        CourseStep(log0, ahead, out, Left(stalls), stalls, resumed, probe);
      }
      clean := clean0 && !stalls;
      if !stalls { LeftIsAhead(); }
      var rows := Batch(found);
      assert rows == out;
      log := log0 + rows;
    }

    /** The calls for one vector, up to a number of them: once there are more calls than matches, the
        tuples are finished with every match delivered once, in order, exactly if no cut into
        batches falls on the end of a chain. Else the run delivers too much, or never ends. */
    method Run(calls: nat) returns (finished: bool, log: seq<Probe>)
      requires Valid() && buildMatch == END && nextProbe == 0
      modifies this`buildMatch, this`probeHash, this`nextProbe, buildMatches, probeMatches
      ensures finished ==> if ClearFrom(0) then log == All() else |log| > |All()|
      ensures calls > |All()| && ClearFrom(0) ==> finished
      ensures finished <==> nextProbe >= |probeHashes|
    {
      hide From, Searchable, InChain, Ahead, Clear;
      log := [];
      var k := 0;
      ghost var clean := true;
      AheadFresh();
      assert log + Ahead() == Ahead();
      while k < calls && nextProbe < |probeHashes|
        invariant k <= calls && Valid() && if clean then OnCourse(log) else OffCourse(log)
        invariant nextProbe < |probeHashes| ==> |log| >= k
      {
        log, clean := Call(log, clean);
        k := k + 1;
      }
      finished := nextProbe >= |probeHashes|;
      if finished {
        NothingAhead();
        LeftIsAhead();
        if clean { ClearAtEnd(log); }
      }
    }

    lemma LeftIsAhead()
      requires Valid()
      ensures Left(false) == Ahead()
    {
    }

    lemma ClearAtEnd(log: seq<Probe>)
      requires Static() && log == All()
      ensures ClearFrom(|log|)
    {
    }

    /** One call, from the matches delivered and ahead to those delivered and left. */
    lemma CourseStep(log: seq<Probe>, ahead: seq<Probe>, out: seq<Probe>, left: seq<Probe>, stalls: bool, resumed: bool,
                     probe: nat)
      requires Static() && All() == log + ahead && ahead == out + left
      requires |out| <= batchSize && (|out| == batchSize || left == [])
      requires stalls <==> |ahead| >= batchSize && StopsAt(ht, |probeHashes|, ahead[batchSize - 1], resumed, probe)
      requires resumed <==> Parted(ht, All(), |log|)
      requires resumed ==> log != [] && log[|log| - 1].id == probe
      ensures All() == (log + out) + left
      ensures stalls ==> !ClearFrom(|log|)
      ensures !stalls ==> (ClearFrom(|log|) <==> ClearFrom(|log + out|))
    {
      hide From, Searchable;
      Associate(log, out, left);
      var at, all := |log|, All();
      assert |all| >= at + batchSize ==> all[at + batchSize - 1] == ahead[batchSize - 1];
      assert resumed ==> all[at - 1] == log[at - 1];
      if |out| < batchSize { assert |log + out| == |all|; }
    }
  }

  /** The join condition on hashes. */
  ghost predicate HashMatch(t: Table, work: set<Word>, hashes: seq<Hash>, y: Probe)
    requires t.Stores(work)
  {
    y.id < |hashes| && y.entry in work && t.heap[y.entry].hash == hashes[y.id]
  }

  ghost predicate EachOnce(t: Table, work: set<Word>, hashes: seq<Hash>, log: seq<Probe>)
    requires t.Stores(work)
  {
    forall y :: Times(log, y) == if HashMatch(t, work, hashes, y) then 1 else 0
  }

  lemma LogIsJoin(t: Table, work: set<Word>, hashes: seq<Hash>, log: seq<Probe>)
    requires t.Holds(work) && Searchable(t, hashes)
    ensures log == From(t, hashes, 0) ==> EachOnce(t, work, hashes, log)
    ensures |log| != |From(t, hashes, 0)| ==> !EachOnce(t, work, hashes, log)
  {
    hide Table.Holds, Searchable;
    HoldsStores(t, work);
    var all := From(t, hashes, 0);
    forall y ensures Times(all, y) == if HashMatch(t, work, hashes, y) then 1 else 0 {
      FromIsJoin(t, work, hashes, 0, y);
    }
    if EachOnce(t, work, hashes, log) {
      forall y ensures multiset(log)[y] == multiset(all)[y] {
        TimesMultiset(log, y);
        TimesMultiset(all, y);
      }
      assert multiset(log) == multiset(all);
      assert |log| == |multiset(log)|;
    }
  }

  lemma HoldsStores(t: Table, work: set<Word>)
    requires t.Holds(work)
    ensures t.Stores(work)
  {
  }

  /** On a table as the build phase leaves it: once there are more calls than matches, the calls for a
      vector have ended with every match delivered exactly once, if and only if no cut into batches
      falls on the end of a chain. */
  method JoinVector(t: Table, ghost work: set<Word>, hashes: seq<Hash>, batchSize: nat, calls: nat)
    returns (finished: bool, log: seq<Probe>)
    requires t.Holds(work) && batchSize > 0
    ensures t.Stores(work) && Searchable(t, hashes)
    ensures calls > |From(t, hashes, 0)| ==>
      (finished && EachOnce(t, work, hashes, log) <==> Clear(t, |hashes|, From(t, hashes, 0), batchSize, 0))
  {
    hide Table.Holds, Searchable, Clear, From, EachOnce;
    HoldsStores(t, work);
    AllSearchable(t, work, hashes);
    var op := new Hashjoin(t, hashes, batchSize);
    finished, log := op.Run(calls);
    LogIsJoin(t, work, hashes, log);
  }

  /** In the smallest case every call delivers the same match and none gets any further. */
  method NeverFinishes(calls: nat) returns (op: Hashjoin, log: seq<Probe>)
    ensures op.probeHashes == [0, 0] && op.nextProbe == 0
    ensures |log| == calls && forall j :: 0 <= j < calls ==> log[j] == Probe(0, 16)
  {
    hide StallTable, From, Searchable, Hashjoin.InChain;
    StallExample();
    var t, hashes: seq<Hash> := StallTable(), [0, 0];
    op := new Hashjoin(t, hashes, 1);
    log := [];
    var k := 0;
    while k < calls
      invariant k == |log| <= calls && forall j :: 0 <= j < k ==> log[j] == Probe(0, 16)
      invariant fresh(op) && fresh(op.buildMatches) && fresh(op.probeMatches)
      invariant op.Valid() && op.ht == t && op.probeHashes == hashes && op.batchSize == 1
      invariant op.buildMatch == END && op.nextProbe == 0
    {
      op.AheadFresh();
      EntryAlone();
      var found;
      ghost var out;
      found, out := op.JoinAll();
      OneLeft(op.nextProbe);
      var rows := op.Batch(found);
      log := log + rows;
      k := k + 1;
    }
  }

  lemma EntryAlone()
    ensures 16 in StallTable().heap && StallTable().heap[16].next == END
  {
  }

  lemma OneLeft(i: nat)
    requires Searchable(StallTable(), [0, 0]) && i < 2
    requires From(StallTable(), [0, 0], 0) == [Probe(0, 16), Probe(1, 16)]
    ensures i > 0 ==> From(StallTable(), [0, 0], i + 1) == []
  {
  }
}
