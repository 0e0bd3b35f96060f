/** The probe side of the hash join operator: Hashjoin::joinAllParallel (and
    joinSelParallel, which writes probeSel[i] where joinAllParallel writes i),
    joinAllSIMD, joinBoncz, and Hashjoin::next. */
module HashJoin {
  import opened Bits
  import opened Hashmap
  import opened ProbeQueue
  import opened JoinSpec
  import Ring

  /** What `join` points to. joinSelParallel and joinSelSIMD write probeSel[i] where the other
      functions write i. */
  datatype Algorithm = AllParallel | AllSIMD | Boncz | SelParallel | SelSIMD {
    predicate UsesSel() { SelParallel? || SelSIMD? }
  }

  const LANES: nat := 8

  /** Unless the join reads probeSel, the vector has no selection: tuple i is row i. */
  ghost predicate PlainFor(join: Algorithm, sel: seq<nat>) {
    !join.UsesSel() ==> forall i :: 0 <= i < |sel| ==> sel[i] == i
  }

  /** A vector the probe child may deliver: not empty, no larger than a batch, hashed. */
  ghost predicate FitsIn<K>(vector: Vector<K>, batchSize: nat, hashOf: K -> Hash, join: Algorithm) {
    && 0 < |vector.hashes| == |vector.sel| <= batchSize && PlainFor(join, vector.sel)
    && forall i :: 0 <= i < |vector.sel| ==>
         vector.sel[i] < |vector.keys| && vector.hashes[i] == hashOf(vector.keys[vector.sel[i]])
  }

  /** A probe child that has its vectors at hand. */
  class Child<K> {
    const all: seq<Vector<K>>
    var pos: nat

    constructor (all: seq<Vector<K>>)
      ensures Valid() && pos == 0 && this.all == all
    {
      this.all, pos := all, 0;
    }

    ghost predicate Valid()
      reads this
    {
      pos <= |all|
    }

    /** next; 0 is EndOfStream. */
    method Next() returns (n: nat, vector: Vector<K>)
      requires Valid()
      modifies this`pos
      ensures Valid() && (pos == old(pos) || pos == old(pos) + 1)
      ensures pos == old(pos) ==> n == 0 && pos == |all|
      ensures pos > old(pos) ==> vector == all[old(pos)] && n == |vector.hashes|
    {
      if pos == |all| { return 0, Vector([], [], []); }
      vector, n := all[pos], |all[pos].hashes|;
      pos := pos + 1;
    }
  }

  class Hashjoin<K(==)> {
    /** The finished build side: the table, its entries and their key column. */
    const ht: Table
    ghost const work: set<Word>
    const buildKeys: map<Word, K>
    /** The hash primitive; both sides use the same. */
    ghost const hashOf: K -> Hash
    /** Which join function the operator calls. */
    const join: Algorithm
    /** The probe hashes, the selection vector and the key column, as the probe child has left them. */
    var current: Vector<K>
    /** All vectors the probe child has delivered. */
    ghost var vectors: seq<Vector<K>>

    const batchSize: nat
    const followupBufferSize: nat
    const followupIds: array<nat>
    const followupEntries: array<Word>
    const buildMatches: array<Word>
    const probeMatches: array<nat>

    /** cont and contCon. */
    var nextProbe: nat
    var numProbes: nat
    var followup: nat
    var followupWrite: nat

    /** The operator after its build phase. */
    constructor (ht: Table, ghost work: set<Word>, buildKeys: map<Word, K>, ghost hashOf: K -> Hash,
                 join: Algorithm, batchSize: nat)
      requires 0 < batchSize && ht.Holds(work)
      requires forall e :: e in work ==> e in buildKeys && ht.heap[e].hash == hashOf(buildKeys[e])
      ensures Valid() && Sound() && !Probing() && vectors == []
      ensures this.ht == ht && this.work == work && this.buildKeys == buildKeys && this.join == join
      ensures this.hashOf == hashOf && this.batchSize == batchSize
      ensures fresh(followupIds) && fresh(followupEntries) && fresh(buildMatches) && fresh(probeMatches)
    {
      this.ht, this.work, this.buildKeys, this.hashOf := ht, work, buildKeys, hashOf;
      this.join, this.batchSize, this.followupBufferSize := join, batchSize, batchSize + 1;
      followupIds, followupEntries := new nat[batchSize + 1], new Word[batchSize + 1];
      buildMatches, probeMatches := new Word[batchSize], new nat[batchSize];
      current, vectors := Vector([], [], []), [];
      nextProbe, numProbes, followup, followupWrite := 0, 0, 0, 0;
      new;
      hide Table.Holds;
      ValidIdle();
    }

    lemma ValidIdle()
      requires Static() && vectors == [] && nextProbe == numProbes == followup == followupWrite == 0
      ensures Valid() && Sound()
    {
      hide Table.Holds;
      RingEmpty(followupIds[..], followupEntries[..], followup, followupWrite, Parked());
    }

    ghost predicate Fits(vector: Vector<K>) {
      FitsIn(vector, batchSize, hashOf, join)
    }

    ghost predicate Static() {
      Sized() && Built()
    }

    /** The output buffers hold one batch, the ring one chain more. */
    ghost predicate Sized() {
      && 0 < batchSize && followupBufferSize == batchSize + 1
      && followupIds.Length == followupEntries.Length == followupBufferSize
      && buildMatches.Length == probeMatches.Length == batchSize
      && followupIds != followupEntries && followupIds != buildMatches && followupIds != probeMatches
      && followupEntries != buildMatches && followupEntries != probeMatches && buildMatches != probeMatches
    }

    /** The build side is as the build phase promises. */
    ghost predicate Built() {
      && ht.Holds(work)
      && (forall e :: e in work ==> e in buildKeys && ht.heap[e].hash == hashOf(buildKeys[e]))
    }

    /** The probe side is as the probe child promises. */
    ghost predicate Fed()
      reads this`vectors, this`current
    {
      && (forall v :: 0 <= v < |vectors| ==> Fits(vectors[v]))
      && (vectors != [] ==> current == vectors[|vectors| - 1])
    }

    ghost predicate Valid()
      reads this, followupIds, followupEntries
    {
      && Static() && Fed() && (join == Boncz ==> followup == 0)
      && followup < followupBufferSize && followupWrite < followupBufferSize
      && (followup == followupWrite ==> followup == 0)
      && (Probing() ==> vectors != [] && nextProbe == 0 && numProbes == |current.hashes|)
      && (!Probing() ==> followup == followupWrite)
      && Walkable(ht.heap, Parked()) && Within(Parked(), numProbes)
    }

    predicate Probing()
      reads this
    {
      nextProbe < numProbes
    }

    ghost function Parked(): seq<Probe>
      requires Static() && followup < followupBufferSize && followupWrite < followupBufferSize
      reads this, followupIds, followupEntries
    {
      Ring.Contents(followupIds[..], followupEntries[..], followup, followupWrite)
    }

    /** The unfinished chains of the current vector. */
    ghost function Todo(): (q: seq<Probe>)
      requires Valid()
      reads this, followupIds, followupEntries
      ensures Walkable(ht.heap, q) && |q| <= batchSize && (Probing() ==> Within(q, |current.hashes|))
    {
      if !Probing() then []
      else if followup == followupWrite then
        HeadsWalkable(ht, work, current.hashes);
        Heads(ht, current.hashes)
      else Parked()
    }

    /** The first |out| rows of the output are the matches `out`. */
    ghost predicate Wrote(out: seq<Probe>, sel: seq<nat>)
      reads buildMatches, probeMatches
    {
      && |out| <= buildMatches.Length && |out| <= probeMatches.Length
      && Within(out, |sel|)
      && forall j :: 0 <= j < |out| ==> buildMatches[j] == out[j].entry && probeMatches[j] == sel[out[j].id]
    }

    /** The first |q| slots of the ring are the chains `q`. */
    ghost predicate Filed(q: seq<Probe>)
      reads followupIds, followupEntries
    {
      && |q| <= followupIds.Length && |q| <= followupEntries.Length
      && forall j :: 0 <= j < |q| ==> followupIds[j] == q[j].id && followupEntries[j] == q[j].entry
    }

    /** The buffers after probing the tuples of `hashes`. */
    ghost predicate Probed(hashes: seq<Hash>, found: nat, write: nat)
      requires Static() && Fits(current)
      reads this, followupIds, followupEntries, buildMatches, probeMatches
    {
      HeadsWalkable(ht, work, hashes);
      var q := Heads(ht, hashes);
      var emit := SameHash(ht.heap, current.hashes);
      && found == |Reports(emit, q)| && Wrote(Reports(emit, q), current.sel)
      && write == |Parks(ht.heap, q)| && Filed(Parks(ht.heap, q))
    }

    /** The join writes probeSel[i] or i. */
    function Position(sel: seq<nat>, i: nat): (p: nat)
      requires i < |sel| && PlainFor(join, sel)
      ensures p == sel[i]
    {
      if join.UsesSel() then sel[i] else i
    }

    /** Write one output row: buildMatches[found] = entry, probeMatches[found++] = position. */
    method Emit(found: nat, x: Probe, position: nat, ghost sel: seq<nat>, ghost out: seq<Probe>)
      requires Static() && Wrote(out, sel) && found == |out| < batchSize
      requires x.id < |sel| && position == sel[x.id]
      modifies buildMatches, probeMatches
      ensures Wrote(out + [x], sel)
    {
      buildMatches[found] := x.entry;
      probeMatches[found] := position;
    }

    /** Write one followup slot. */
    method File(write: nat, x: Probe, ghost q: seq<Probe>)
      requires Static() && Filed(q) && write == |q| < followupBufferSize
      modifies followupIds, followupEntries
      ensures Filed(q + [x])
    {
      followupIds[write] := x.id;
      followupEntries[write] := x.entry;
    }

    /** One iteration of the scalar loop over fresh probes. */
    method ProbeOne(i: nat, found0: nat, write0: nat) returns (found: nat, write: nat)
      requires Static() && Fits(current) && i < |current.hashes|
      requires Probed(current.hashes[..i], found0, write0)
      modifies followupIds, followupEntries, buildMatches, probeMatches
      ensures Probed(current.hashes[..i + 1], found, write)
    {
      hide Table.Holds, Table.FindChainTagged, Reports, Parks, Heads, Walkable, Finite;
      found, write := found0, write0;
      ghost var emit := SameHash(ht.heap, current.hashes);
      var hashes, sel := current.hashes, current.sel;
      assert Fits(current);
      HasDirectory(ht, work);
      HeadsStep(ht, work, emit, hashes, i);
      ghost var q, h := Heads(ht, hashes[..i]), Head(ht, hashes[i], i);
      ghost var out, parked := Reports(emit, q), Parks(ht.heap, q);
      var hash := hashes[i];
      var entry := ht.FindChainTagged(hash);
      if entry != END {
        if ht.heap[entry].hash == hash {
          Emit(found, Probe(i, entry), Position(sel, i), sel, out);
          found := found + 1;
        }
        out := out + Report(emit, h[0]);
        if ht.heap[entry].next != END {
          File(write, Probe(i, ht.heap[entry].next), parked);
          write := write + 1;
        }
        parked := parked + Park(ht.heap, h[0]);
      }
      assert Wrote(out, sel) && Filed(parked);
      assert out == Reports(emit, Heads(ht, hashes[..i + 1]));
      assert parked == Parks(ht.heap, Heads(ht, hashes[..i + 1]));
    }

    /** The scalar loop over fresh probes, from tuple `from` on. */
    method ProbeScalar(from: nat, found0: nat, write0: nat)
      returns (found: nat, write: nat)
      requires Static() && Fits(current)
      requires from <= |current.hashes|
      requires Probed(current.hashes[..from], found0, write0)
      modifies followupIds, followupEntries, buildMatches, probeMatches
      ensures Probed(current.hashes, found, write)
    {
      hide Hashjoin.Static, Hashjoin.Probed;
      found, write := found0, write0;
      var n := |current.hashes|;
      for i := from to n
        invariant Probed(current.hashes[..i], found, write)
      {
        found, write := ProbeOne(i, found, write);
      }
      assert current.hashes[..n] == current.hashes;
    }

    /** The ring, read from `read` up to `write`, holds the chains `q`. */
    ghost predicate Rings(q: seq<Probe>, read: nat, write: nat)
      requires Static()
      reads followupIds, followupEntries
    {
      && read < followupBufferSize && write < followupBufferSize
      && q == Ring.Contents(followupIds[..], followupEntries[..], read, write)
    }

    /** Follow the chain at the front of the ring by one entry. */
    method Visit(read0: nat, write0: nat, found0: nat, hashes: seq<Hash>, sel: seq<nat>,
                 ghost q: seq<Probe>, ghost out: seq<Probe>)
      returns (read: nat, write: nat, found: nat)
      requires Static() && Rings(q, read0, write0) && q != [] && |q| < followupBufferSize
      requires Starts(ht.heap, q[0]) && q[0].id < |hashes| == |sel|
      requires PlainFor(join, sel) && Wrote(out, sel) && found0 == |out| < batchSize
      modifies followupIds, followupEntries, buildMatches, probeMatches
      ensures q[0].entry in ht.heap
      ensures Rings(q[1..] + Park(ht.heap, q[0]), read, write)
      ensures var out' := out + Report(SameHash(ht.heap, hashes), q[0]);
              Wrote(out', sel) && found == |out'|
    {
      hide Table.Holds, Finite, Ring.Contents;
      read, write, found := read0, write0, found0;
      Parkable(ht.heap, q[0]);
      Ring.Pop(followupIds[..], followupEntries[..], read, write);
      var i := followupIds[read];
      var entry := followupEntries[read];
      read := read + 1;
      if read == followupBufferSize { read := 0; }
      assert Rings(q[1..], read, write);
      var hash := hashes[i];
      if ht.heap[entry].hash == hash {
        Emit(found, Probe(i, entry), Position(sel, i), sel, out);
        found := found + 1;
      }
      if ht.heap[entry].next != END {
        write := Enqueue(read, write, Probe(i, ht.heap[entry].next), q[1..]);
      }
    }

    /** followupIds[w] = i, followupEntries[w] = entry, w = (w + 1) % followupBufferSize. */
    method Enqueue(ghost read: nat, write0: nat, x: Probe, ghost q: seq<Probe>) returns (write: nat)
      requires Static() && Rings(q, read, write0) && |q| + 1 < followupBufferSize
      modifies followupIds, followupEntries
      ensures Rings(q + [x], read, write)
    {
      hide Table.Holds, Ring.Contents;
      Ring.Push(followupIds[..], followupEntries[..], read, write0, x);
      ghost var ids, entries := followupIds[..], followupEntries[..];
      followupIds[write0] := x.id;
      followupEntries[write0] := x.entry;
      assert followupIds[..] == ids[write0 := x.id];
      assert followupEntries[..] == entries[write0 := x.entry];
      Ring.WrapIsRemainder(write0 + 1, followupBufferSize);
      write := (write0 + 1) % followupBufferSize;
    }

    /** Visit the k chains at the front of the ring. */
    method Pass(read0: nat, write0: nat, found0: nat, hashes: seq<Hash>, sel: seq<nat>, k: nat,
                ghost q: seq<Probe>, ghost out: seq<Probe>)
      returns (read: nat, write: nat, found: nat)
      requires Static() && Rings(q, read0, write0) && Walkable(ht.heap, q)
      requires |hashes| == |sel| && Within(q, |sel|) && |q| <= batchSize
      requires PlainFor(join, sel) && Wrote(out, sel) && found0 == |out| && k <= |q| && k <= batchSize - found0
      modifies followupIds, followupEntries, buildMatches, probeMatches
      ensures Walkable(ht.heap, q[..k])
      ensures Rings(q[k..] + Parks(ht.heap, q[..k]), read, write)
      ensures var out' := out + Reports(SameHash(ht.heap, hashes), q[..k]);
              Wrote(out', sel) && found == |out'|
    {
      hide Table.Holds, Finite, Ring.Contents, Walkable, Parks, Reports;
      read, write, found := read0, write0, found0;
      ghost var emit := SameHash(ht.heap, hashes);
      WalkablePrefix(ht.heap, q, 0);
      NoVisits(ht.heap, emit, q, out);
      for j := 0 to k
        invariant Walkable(ht.heap, q[..j])
        invariant Rings(q[j..] + Parks(ht.heap, q[..j]), read, write)
        invariant found <= found0 + j
        invariant var out' := out + Reports(emit, q[..j]); Wrote(out', sel) && found == |out'|
      {
        VisitStep(ht.heap, emit, q, j, |sel|);
        ghost var now := q[j..] + Parks(ht.heap, q[..j]);
        ghost var reported := Reports(emit, q[..j]);
        read, write, found := Visit(read, write, found, hashes, sel, now, out + reported);
        assert (out + reported) + Report(emit, q[j]) == out + (reported + Report(emit, q[j]));
      }
    }

    /** The second half of joinAllParallel: pass over the ring while the output has room.
        `q0` is the queue and `out0` the output it starts with. */
    method FollowChains(read0: nat, write0: nat, found0: nat, hashes: seq<Hash>, sel: seq<nat>,
                        ghost q0: seq<Probe>, ghost out0: seq<Probe>)
      returns (found: nat, ghost out: seq<Probe>)
      requires Static() && Rings(q0, read0, write0) && Walkable(ht.heap, q0)
      requires |hashes| == |sel| && Within(q0, |sel|) && |q0| <= batchSize
      requires PlainFor(join, sel) && Wrote(out0, sel) && found0 == |out0|
      modifies this`nextProbe, this`followup, this`followupWrite
      modifies followupIds, followupEntries, buildMatches, probeMatches
      ensures Wrote(out, sel) && found == |out|
      ensures var (o, q) := After(out0, Drain(ht.heap, SameHash(ht.heap, hashes), q0, batchSize - found0));
              && out == o
              && Rings(q, followup, followupWrite)
              && (if q == [] then nextProbe == numProbes && followup == followupWrite == 0
                  else nextProbe == old(nextProbe))
    {
      hide Table.Holds, Finite, Ring.Contents, Walkable, Parks, Reports, Drain, After, Hashjoin.Built, Length, SameHash;
      var read: nat, write: nat := read0, write0;
      found, out := found0, out0;
      ghost var emit := SameHash(ht.heap, hashes);
      ghost var q := q0;
      ghost var goal := After(out0, Drain(ht.heap, emit, q0, batchSize - found0));
      RingEmpty(followupIds[..], followupEntries[..], read, write, q);
      while read != write
        invariant Rings(q, read, write) && Walkable(ht.heap, q) && Within(q, |sel|) && |q| <= batchSize
        invariant read != write <==> q != []
        invariant nextProbe == old(nextProbe)
        invariant Wrote(out, sel) && found == |out|
        invariant goal == After(out, Drain(ht.heap, emit, q, batchSize - found))
        decreases Length(ht.heap, q)
      {
        var remainingSpace := batchSize - found;
        var nrFollowups := if read <= write then write - read else followupBufferSize - (read - write);
        var fittingElements := if nrFollowups < remainingSpace then nrFollowups else remainingSpace;
        read, write, found := Pass(read, write, found, hashes, sel, fittingElements, q, out);
        assert fittingElements == |q| ==> q[..fittingElements] == q && q[fittingElements..] == [];
        PassDone(ht.heap, emit, q, remainingSpace, out, goal, |sel|);
        out := out + Reports(emit, q[..fittingElements]);
        if fittingElements < nrFollowups {
          followupWrite := write;
          followup := read;
          return;
        }
        q := Parks(ht.heap, q);
        RingEmpty(followupIds[..], followupEntries[..], read, write, q);
      }
      DrainNothing(ht.heap, emit, batchSize - found, out);
      nextProbe := numProbes;
      followup := 0;
      followupWrite := 0;
    }

    /** What a call must have done: delivered `out` and left the chains of `r.1`, where `r` is
        what the specification of the algorithm says about the chains of the old state. */
    ghost predicate Delivered(r: (seq<Probe>, seq<Probe>), found: nat, out: seq<Probe>)
      reads this, followupIds, followupEntries, buildMatches, probeMatches
    {
      && Valid() && out == r.0 && Todo() == r.1 && (Probing() <==> r.1 != [])
      && found == |out| <= batchSize && Wrote(out, current.sel)
    }

    /** Hashjoin::joinAllParallel and joinSelParallel. */
    method JoinAllParallel() returns (found: nat, ghost out: seq<Probe>)
      requires Valid() && Probing() && join != Boncz
      modifies this`nextProbe, this`followup, this`followupWrite
      modifies followupIds, followupEntries, buildMatches, probeMatches
      ensures Delivered(Drain(ht.heap, SameHash(ht.heap, current.hashes), old(Todo()), batchSize), found, out)
    {
      hide Table.Holds, Finite, Ring.Contents, Walkable, Parks, Reports, Drain, Heads, After, Within;
      hide Hashjoin.Probed, Hashjoin.Fits, Hashjoin.Wrote, Hashjoin.Delivered;
      found, out := 0, [];
      var hashes, sel := current.hashes, current.sel;
      CurrentFits();
      ghost var emit := SameHash(ht.heap, hashes);
      var write := followupWrite;
      ghost var q := Todo();
      ghost var r := Drain(ht.heap, emit, q, batchSize);
      DrainWithin(ht.heap, emit, q, batchSize, |sel|);
      AfterNothing(r);
      if followup == followupWrite {
        ProbedNothing();
        found, write := ProbeScalar(0, 0, 0);
        out, q := FreshRing(found, write);
      }
      Ring.WrapIsRemainder(write, followupBufferSize);
      write := write % followupBufferSize;
      found, out := FollowChains(followup, write, found, hashes, sel, q, out);
      Finish(r, found, out);
    }

    lemma Finish(r: (seq<Probe>, seq<Probe>), found: nat, out: seq<Probe>)
      requires Static() && Fed() && vectors != [] && (join == Boncz ==> followup == 0)
      requires numProbes == |current.hashes| > 0
      requires Wrote(out, current.sel) && found == |out| && out == r.0
      requires Rings(r.1, followup, followupWrite) && Walkable(ht.heap, r.1) && Within(r.1, numProbes)
      requires if r.1 == [] then nextProbe == numProbes && followup == followupWrite == 0 else nextProbe == 0
      ensures Delivered(r, found, out)
    {
      hide Table.Holds, Finite, Ring.Contents, Walkable, Heads;
      RingEmpty(followupIds[..], followupEntries[..], followup, followupWrite, r.1);
    }

    lemma CurrentFits()
      requires Static() && Fits(current)
      ensures 0 < |current.hashes| == |current.sel| <= batchSize
      ensures Wrote([], current.sel) && PlainFor(join, current.sel)
      ensures forall i :: 0 <= i < |current.sel| ==> current.sel[i] < |current.keys|
    {
      hide Table.Holds;
      assert Fits(current);
    }

    lemma FiledRing(write: nat, q: seq<Probe>)
      requires Static() && Filed(q) && write == |q| < followupBufferSize
      ensures Rings(q, 0, write)
    {
      hide Table.Holds;
      var c := Ring.Contents(followupIds[..], followupEntries[..], 0, write);
      assert |c| == |q|;
      forall j | 0 <= j < |q| ensures c[j] == q[j] {
        assert Ring.Wrap(0 + j, followupBufferSize) == j;
        assert c[j] == Probe(followupIds[..][j], followupEntries[..][j]);
      }
    }

    /** Before the first fresh probe. */
    lemma ProbedNothing()
      requires Static() && Fits(current)
      ensures Probed(current.hashes[..0], 0, 0)
    {
    }

    /** The fresh probes leave the output and the ring of a call that has made its first pass. */
    lemma FreshRing(found: nat, write: nat) returns (out: seq<Probe>, q: seq<Probe>)
      requires Static() && Fits(current)
      requires Probed(current.hashes, found, write)
      ensures found == |out| && Wrote(out, current.sel)
      ensures write < followupBufferSize && Rings(q, 0, write) && |q| <= batchSize
      ensures Walkable(ht.heap, q) && Within(q, |current.sel|)
      ensures Walkable(ht.heap, Heads(ht, current.hashes))
      ensures var emit := SameHash(ht.heap, current.hashes);
              After(out, Drain(ht.heap, emit, q, batchSize - found))
              == Drain(ht.heap, emit, Heads(ht, current.hashes), batchSize)
    {
      hide Table.Holds, Finite, Ring.Contents, Walkable, Parks, Reports, Drain, After;
      var hashes := current.hashes;
      assert Fits(current);
      var emit := SameHash(ht.heap, hashes);
      HasDirectory(ht, work);
      var heads := Heads(ht, hashes);
      HeadsWalkable(ht, work, hashes);
      out, q := Reports(emit, heads), Parks(ht.heap, heads);
      ParksWithin(ht.heap, heads, |hashes|);
      FiledRing(write, q);
      DrainUnfold(ht.heap, emit, heads, batchSize);
    }

    /** The eight-lane loop over fresh probes: gathers and masked compares on eight tuples at
        a time, compress-stores of the lanes that pass, and the scalar loop for the rest. */
    method ProbeLanes() returns (found: nat, write: nat)
      requires Static() && Fits(current)
      modifies followupIds, followupEntries, buildMatches, probeMatches
      ensures Probed(current.hashes, found, write)
    {
      hide Hashjoin.Static, Hashjoin.Probed, Hashjoin.Fits;
      var rest := |current.hashes| % LANES;
      found, write := 0, 0;
      ProbedNothing();
      var i := 0;
      while i < |current.hashes| - rest
        invariant i <= |current.hashes| - rest && i % LANES == 0
        invariant Probed(current.hashes[..i], found, write)
      {
        found, write := ProbeEight(i, found, write);
        i := i + LANES;
      }
      found, write := ProbeScalar(i, found, write);
    }

    /** One iteration of the eight-lane loop. */
    method ProbeEight(i: nat, found0: nat, write0: nat) returns (found: nat, write: nat)
      requires Static() && Fits(current) && i + LANES <= |current.hashes|
      requires Probed(current.hashes[..i], found0, write0)
      modifies followupIds, followupEntries, buildMatches, probeMatches
      ensures Probed(current.hashes[..i + LANES], found, write)
    {
      hide Table.Holds, Reports, Parks, Heads, Walkable, Finite, LoadLane, Compress, LaneMatch, LaneNext, Hashjoin.Fits;
      CurrentFits();
      HasDirectory(ht, work);
      var hashes, sel := current.hashes, current.sel;
      ghost var emit := SameHash(ht.heap, hashes);
      ghost var q := Heads(ht, hashes[..i]);
      LanesStep(ht, work, emit, hashes, i, LANES);
      var lanes := seq(LANES, k requires 0 <= k < LANES => LoadLane(ht, hashes[i + k], i + k));
      LanesLoaded(ht, hashes, i, lanes);
      LanesAgree(ht, work, emit, hashes, i, lanes, LANES);
      found := CompressMatches(found0, lanes, sel, Reports(emit, q));
      write := CompressFollowups(write0, lanes, Parks(ht.heap, q));
    }

    /** The two _mm512_mask_compressstoreu of the matches: entries, and rows of the ids. */
    method CompressMatches(found0: nat, lanes: seq<Lane>, sel: seq<nat>, ghost out: seq<Probe>) returns (found: nat)
      requires Static() && PlainFor(join, sel) && Wrote(out, sel) && found0 == |out| && |out| + |lanes| <= batchSize
      requires forall k :: 0 <= k < |lanes| ==> lanes[k].id < |sel|
      modifies buildMatches, probeMatches
      ensures var out' := out + Compress(LaneMatch, lanes); found == |out'| && Wrote(out', sel)
    {
      hide Table.Holds, Hashjoin.Fits;
      found := found0;
      ghost var now := out;
      assert out + Compress(LaneMatch, lanes[..0]) == out;
      for k := 0 to |lanes|
        invariant now == out + Compress(LaneMatch, lanes[..k]) && found == |now| <= |out| + k && Wrote(now, sel)
      {
        assert lanes[..k + 1][..k] == lanes[..k];
        if lanes[k].hashEq {
          Emit(found, Probe(lanes[k].id, lanes[k].entry), Position(sel, lanes[k].id), sel, now);
          found := found + 1;
        }
        Associate(out, Compress(LaneMatch, lanes[..k]), LaneMatch(lanes[k]));
        now := now + LaneMatch(lanes[k]);
      }
      assert lanes[..|lanes|] == lanes;
    }

    /** The two _mm512_mask_compressstoreu of the followup buffers. */
    method CompressFollowups(write0: nat, lanes: seq<Lane>, ghost q: seq<Probe>) returns (write: nat)
      requires Static() && Filed(q) && write0 == |q| && |q| + |lanes| < followupBufferSize
      modifies followupIds, followupEntries
      ensures var q' := q + Compress(LaneNext, lanes); write == |q'| && Filed(q')
    {
      hide Table.Holds, Hashjoin.Fits;
      write := write0;
      ghost var now := q;
      assert q + Compress(LaneNext, lanes[..0]) == q;
      for k := 0 to |lanes|
        invariant now == q + Compress(LaneNext, lanes[..k]) && write == |now| <= |q| + k && Filed(now)
      {
        assert lanes[..k + 1][..k] == lanes[..k];
        if lanes[k].hasNext {
          File(write, Probe(lanes[k].id, lanes[k].next), now);
          write := write + 1;
        }
        Associate(q, Compress(LaneNext, lanes[..k]), LaneNext(lanes[k]));
        now := now + LaneNext(lanes[k]);
      }
      assert lanes[..|lanes|] == lanes;
    }

    /** Hashjoin::joinAllSIMD: the same contract as the scalar join, to the last buffer slot. */
    method JoinAllSIMD() returns (found: nat, ghost out: seq<Probe>)
      requires Valid() && Probing() && join != Boncz
      modifies this`nextProbe, this`followup, this`followupWrite
      modifies followupIds, followupEntries, buildMatches, probeMatches
      ensures Delivered(Drain(ht.heap, SameHash(ht.heap, current.hashes), old(Todo()), batchSize), found, out)
    {
      hide Table.Holds, Finite, Ring.Contents, Walkable, Parks, Reports, Drain, Heads, After, Within;
      hide Hashjoin.Probed, Hashjoin.Fits, Hashjoin.Wrote, Hashjoin.Delivered;
      found, out := 0, [];
      var hashes, sel := current.hashes, current.sel;
      CurrentFits();
      ghost var emit := SameHash(ht.heap, hashes);
      var write := followupWrite;
      ghost var q := Todo();
      ghost var r := Drain(ht.heap, emit, q, batchSize);
      DrainWithin(ht.heap, emit, q, batchSize, |sel|);
      AfterNothing(r);
      if followup == followupWrite {
        found, write := ProbeLanes();
        out, q := FreshRing(found, write);
      }
      Ring.WrapIsRemainder(write, followupBufferSize);
      write := write % followupBufferSize;
      found, out := FollowChains(followup, write, found, hashes, sel, q, out);
      Finish(r, found, out);
    }

    /** The first loop of joinBoncz: file the head of every chain that passes the filter. */
    method FileHeads() returns (write: nat)
      requires Static() && Fits(current)
      modifies followupIds, followupEntries
      ensures ht.HasDirectory() && Filed(Heads(ht, current.hashes)) && write == |Heads(ht, current.hashes)|
    {
      hide Table.Holds, Table.FindChainTagged, Heads, Hashjoin.Fits;
      CurrentFits();
      HasDirectory(ht, work);
      var hashes := current.hashes;
      write := 0;
      NoHeads(ht, hashes);
      for i := 0 to |hashes|
        invariant write == |Heads(ht, hashes[..i])| && Filed(Heads(ht, hashes[..i]))
      {
        assert hashes[..i + 1][..i] == hashes[..i];
        HeadsAppend(ht, hashes, i);
        var entry := ht.FindChainTagged(hashes[i]);
        if entry != END {
          File(write, Probe(i, entry), Heads(ht, hashes[..i]));
          write := write + 1;
        }
      }
      assert hashes[..|hashes|] == hashes;
    }

    /** One pass of joinBoncz: report every filed chain, and file the rests in place over
        the slots already read. */
    method CompactPass(found0: nat, write0: nat, ghost sel: seq<nat>, ghost q: seq<Probe>, ghost out: seq<Probe>)
      returns (found: nat, write: nat)
      requires Static() && Walkable(ht.heap, q) && Within(q, |sel|)
      requires join == Boncz && PlainFor(join, sel)
      requires Filed(q) && write0 == |q| && Wrote(out, sel) && found0 == |out| && |out| + |q| <= batchSize
      modifies followupIds, followupEntries, buildMatches, probeMatches
      ensures Filed(Parks(ht.heap, q)) && write == |Parks(ht.heap, q)|
      ensures Wrote(out + q, sel) && found == |out + q|
    {
      hide Table.Holds, Finite, Walkable, Parks, Hashjoin.Fits;
      found, write := found0, 0;
      ghost var emit := Always();
      WalkablePrefix(ht.heap, q, 0);
      NoVisits(ht.heap, emit, q, out);
      ghost var parked := Parks(ht.heap, q[..0]);
      assert out + q[..0] == out;
      for j := 0 to write0
        invariant Walkable(ht.heap, q[..j]) && parked == Parks(ht.heap, q[..j])
        invariant write == |parked| <= j && Filed(parked)
        invariant forall m :: j <= m < |q| ==> followupIds[m] == q[m].id && followupEntries[m] == q[m].entry
        invariant Wrote(out + q[..j], sel) && found == |out| + j
      {
        ParkStep(ht.heap, q, j);
        var i := followupIds[j];
        var entry := followupEntries[j];
        Emit(found, Probe(i, entry), i, sel, out + q[..j]);
        assert (out + q[..j]) + [q[j]] == out + q[..j + 1];
        found := found + 1;
        if ht.heap[entry].next != END {
          FileAt(write, Probe(i, ht.heap[entry].next), parked, j + 1, q);
          write := write + 1;
        }
        parked := parked + Park(ht.heap, q[j]);
      }
      assert q[..|q|] == q;
    }

    /** File a chain in a slot before `from`, leaving the slots from there on alone. */
    method FileAt(write: nat, x: Probe, ghost parked: seq<Probe>, ghost from: nat, ghost q: seq<Probe>)
      requires Static() && Filed(parked) && write == |parked| < from <= |q| <= batchSize
      requires forall m :: from <= m < |q| ==> followupIds[m] == q[m].id && followupEntries[m] == q[m].entry
      modifies followupIds, followupEntries
      ensures Filed(parked + [x])
      ensures forall m :: from <= m < |q| ==> followupIds[m] == q[m].id && followupEntries[m] == q[m].entry
    {
      followupIds[write] := x.id;
      followupEntries[write] := x.entry;
    }

    /** Hashjoin::joinBoncz. It keeps its chains in the first slots and never moves `followup`. */
    method JoinBoncz() returns (found: nat, ghost out: seq<Probe>)
      requires Valid() && Probing() && join == Boncz
      modifies this`nextProbe, this`followupWrite
      modifies followupIds, followupEntries, buildMatches, probeMatches
      ensures Delivered(Passes(ht.heap, old(Todo()), batchSize), found, out)
    {
      hide Table.Holds, Finite, Ring.Contents, Walkable, Parks, Passes, Heads, After, Within;
      hide Hashjoin.Built, Hashjoin.Wrote, Hashjoin.Filed, Hashjoin.Delivered;
      found, out := 0, [];
      ghost var sel := current.sel;
      CurrentFits();
      ghost var q := Todo();
      var write := followupWrite;
      if write == 0 {
        write := FileHeads();
      } else {
        RingFiled(write);
      }
      found, out := CompactChains(write, sel, q);
    }

    /** The second half of joinBoncz: whole passes while the next one is sure to fit. */
    method CompactChains(write0: nat, ghost sel: seq<nat>, ghost q0: seq<Probe>)
      returns (found: nat, ghost out: seq<Probe>)
      requires Static() && Fed() && vectors != [] && sel == current.sel && followup == 0 && join == Boncz
      requires numProbes == |sel| == |current.hashes| > 0 && nextProbe == 0
      requires Walkable(ht.heap, q0) && Within(q0, |sel|) && Filed(q0) && write0 == |q0| <= batchSize
      requires Wrote([], sel)
      modifies this`nextProbe, this`followupWrite
      modifies followupIds, followupEntries, buildMatches, probeMatches
      ensures Delivered(Passes(ht.heap, q0, batchSize), found, out)
    {
      hide Ring.Contents, Walkable, Parks, Passes, Within;
      hide Hashjoin.Built, Hashjoin.Wrote, Hashjoin.Filed, Hashjoin.Delivered;
      var write := write0;
      ghost var q := q0;
      found, out := 0, [];
      ghost var goal := Passes(ht.heap, q, batchSize);
      AfterNothing(goal);
      hide After;
      while write > 0
        invariant Walkable(ht.heap, q) && Within(q, |sel|) && Filed(q) && write == |q|
        invariant found + write <= batchSize
        invariant Wrote(out, sel) && found == |out|
        invariant goal == After(out, Passes(ht.heap, q, batchSize - found))
        invariant nextProbe == 0
        decreases Length(ht.heap, q)
      {
        CompactDone(ht.heap, q, batchSize - found, out, goal, |sel|);
        found, write := CompactPass(found, write, sel, q, out);
        out := out + q;
        q := Parks(ht.heap, q);
        if write == 0 {
          nextProbe := numProbes;
          followupWrite := write;
          FinishBoncz(goal, found, out, q);
          return;
        } else if found + write >= batchSize {
          followupWrite := write;
          FinishBoncz(goal, found, out, q);
          return;
        }
      }
      PassesNothing(ht.heap, q, batchSize - found, out, goal);
      nextProbe := numProbes;
      followupWrite := write;
      FinishBoncz(goal, found, out, q);
    }

    lemma RingFiled(write: nat)
      requires Valid() && followup == 0 && write == followupWrite
      ensures Filed(Parked()) && write == |Parked()|
    {
      hide Table.Holds, Walkable;
      forall j | 0 <= j < write
        ensures followupIds[j] == Parked()[j].id && followupEntries[j] == Parked()[j].entry
      {
        assert Ring.Wrap(0 + j, followupBufferSize) == j;
        assert followupIds[..][j] == followupIds[j] && followupEntries[..][j] == followupEntries[j];
      }
    }

    lemma FinishBoncz(r: (seq<Probe>, seq<Probe>), found: nat, out: seq<Probe>, q: seq<Probe>)
      requires Static() && Fed() && vectors != []
      requires numProbes == |current.hashes| > 0 && followup == 0
      requires Wrote(out, current.sel) && found == |out| && r == (out, q)
      requires Filed(q) && followupWrite == |q| <= batchSize && Walkable(ht.heap, q) && Within(q, numProbes)
      requires if q == [] then nextProbe == numProbes else nextProbe == 0
      ensures Delivered(r, found, out)
    {
      hide Table.Holds, Finite, Ring.Contents, Walkable, Heads, Hashjoin.Filed, Hashjoin.Rings, Within, Hashjoin.Wrote;
      hide Hashjoin.Delivered;
      FiledRing(followupWrite, q);
      Finish(r, found, out);
    }

    // ---------------------------------------------------------- the operator

    /** The row-level join condition: the entry's key equals the key of probe tuple y.id of
        vector v of those delivered. */
    ghost predicate KeyMatch(vs: seq<Vector<K>>, v: nat, y: Probe) {
      && v < |vs| && y.id < |vs[v].hashes| && y.entry in work
      && KeysEqualAt(vs[v], y)
    }

    ghost predicate KeysEqualAt(vector: Vector<K>, y: Probe) {
      && y.id < |vector.sel| && vector.sel[y.id] < |vector.keys| && y.entry in buildKeys
      && buildKeys[y.entry] == vector.keys[vector.sel[y.id]]
    }

    /** Work left for the current vector. */
    ghost function Effort(): nat
      requires Valid()
      reads this, followupIds, followupEntries
    {
      if Probing() then 1 + Length(ht.heap, Todo()) else 0
    }

    /** Parked chains stay inside the table. */
    ghost predicate Sound()
      requires Valid()
      reads this, followupIds, followupEntries
    {
      forall y :: Owed(ht.heap, Todo(), y) > 0 ==> y.entry in work
    }

    /** keys_equal: keep the rows whose keys are equal, in place. */
    method KeysEqual(n: nat, ghost out: seq<Probe>) returns (found: nat, ghost kept: seq<Probe>)
      requires Static() && Fits(current)
      requires n == |out| && Wrote(out, current.sel)
      requires forall j :: 0 <= j < |out| ==> out[j].entry in buildKeys
      modifies buildMatches, probeMatches
      ensures kept == Matching(out, current) && found == |kept| && Wrote(kept, current.sel)
    {
      hide Hashjoin.Built;
      CurrentFits();
      var vector := current;
      found, kept := 0, [];
      for i := 0 to n
        invariant kept == Matching(out[..i], vector) && found == |kept| <= i && Wrote(kept, vector.sel)
        invariant forall j :: i <= j < n ==> buildMatches[j] == out[j].entry && probeMatches[j] == vector.sel[out[j].id]
      {
        assert out[..i + 1][..i] == out[..i];
        if buildKeys[buildMatches[i]] == vector.keys[probeMatches[i]] {
          CopyRow(i, found, out, kept, vector.sel);
          found := found + 1;
          kept := kept + [out[i]];
        }
      }
      assert out[..n] == out;
    }

    /** buildEntry[found] = buildEntry[i], probeIdx[found] = probeIdx[i], for found <= i. */
    method CopyRow(i: nat, found: nat, ghost out: seq<Probe>, ghost kept: seq<Probe>, ghost sel: seq<nat>)
      requires Sized() && i < |out| <= batchSize && found <= i
      requires Within(out, |sel|) && Wrote(kept, sel) && found == |kept|
      requires forall j :: i <= j < |out| ==> buildMatches[j] == out[j].entry && probeMatches[j] == sel[out[j].id]
      modifies buildMatches, probeMatches
      ensures Wrote(kept + [out[i]], sel)
      ensures forall j :: i < j < |out| ==> buildMatches[j] == out[j].entry && probeMatches[j] == sel[out[j].id]
    {
      buildMatches[found] := buildMatches[i];
      probeMatches[found] := probeMatches[i];
    }

    ghost function Matching(s: seq<Probe>, vector: Vector<K>): (r: seq<Probe>)
      ensures |r| <= |s|
    {
      if s == [] then []
      else
        var n := |s| - 1;
        Matching(s[..n], vector) + (if KeysEqualAt(vector, s[n]) then [s[n]] else [])
    }

    lemma {:induction false} MatchingTimes(s: seq<Probe>, vector: Vector<K>, y: Probe)
      ensures Times(Matching(s, vector), y) == if KeysEqualAt(vector, y) then Times(s, y) else 0
    {
      if s != [] {
        var n := |s| - 1;
        var last := if KeysEqualAt(vector, s[n]) then [s[n]] else [];
        MatchingTimes(s[..n], vector, y);
        assert s == s[..n] + [s[n]];
        TimesConcat(s[..n], [s[n]], y);
        TimesConcat(Matching(s[..n], vector), last, y);
        assert [s[n]][1..] == [];
      }
    }

    /** Match y of the vector fetched last. */
    ghost predicate MatchNow(y: Probe)
      reads this`vectors
    {
      vectors != [] && KeyMatch(vectors, |vectors| - 1, y)
    }

    /** Delivering `out` takes exactly its matches off what the chains q still lead to. */
    ghost predicate Settles(q: seq<Probe>, q': seq<Probe>, out: seq<Probe>)
      requires Walkable(ht.heap, q) && Walkable(ht.heap, q')
      reads this`vectors
    {
      forall y :: MatchNow(y) ==> Times(out, y) + Owed(ht.heap, q', y) == Owed(ht.heap, q, y)
    }

    /** The test a join function itself makes. */
    ghost function Emits(): Probe -> bool
      reads this`current
    {
      if join == Boncz then Always() else SameHash(ht.heap, current.hashes)
    }

    /** (this->*join)(). */
    method CallJoin() returns (n: nat, ghost found: seq<Probe>)
      requires Valid() && Probing() && Sound()
      modifies this`nextProbe, this`followup, this`followupWrite
      modifies followupIds, followupEntries, buildMatches, probeMatches
      ensures Valid() && Sound() && Effort() < old(Effort())
      ensures n == |found| <= batchSize && Wrote(found, current.sel)
      ensures forall y :: Emits()(y) ==> Times(found, y) + Owed(ht.heap, Todo(), y) == old(Owed(ht.heap, Todo(), y))
      ensures forall y :: Times(found, y) > 0 ==> Emits()(y) && y.entry in work && y.id < |current.hashes|
      ensures forall j :: 0 <= j < |found| ==> found[j].entry in buildKeys
    {
      hide Table.Holds, Finite, Ring.Contents, Walkable, Drain, Passes, Owed, Times, Length, Within, Always, SameHash;
      hide Hashjoin.Wrote, Hashjoin.Built, Hashjoin.Valid, Hashjoin.Todo;
      ValidStatic();
      ghost var q := Todo();
      match join {
        case AllParallel | SelParallel => n, found := JoinAllParallel();
        case AllSIMD | SelSIMD => n, found := JoinAllSIMD();
        case Boncz => n, found := JoinBoncz();
      }
      ValidStatic();
      CallConserves(Emits(), q, found, Todo(), |current.hashes|);
    }

    /** One call of the join function with its keys_equal, as the loop of Hashjoin::next does. */
    method JoinBatch() returns (n: nat, ghost out: seq<Probe>)
      requires Valid() && Probing() && Sound()
      modifies this`nextProbe, this`followup, this`followupWrite
      modifies followupIds, followupEntries, buildMatches, probeMatches
      ensures Valid() && Sound() && Effort() < old(Effort())
      ensures n == |out| <= batchSize && Wrote(out, current.sel)
      ensures forall y :: Times(out, y) > 0 ==> MatchNow(y)
      ensures Settles(old(Todo()), Todo(), out)
    {
      hide Table.Holds, Finite, Ring.Contents, Walkable, Owed, Times, Length, Within, Always, SameHash;
      hide Hashjoin.Matching, Hashjoin.Wrote, Hashjoin.Built, Hashjoin.Valid, Hashjoin.Todo, Hashjoin.MatchNow,
           Hashjoin.KeysEqualAt, Hashjoin.Sound, Hashjoin.Effort;
      ValidStatic();
      ghost var q := Todo();
      ghost var found;
      n, found := CallJoin();
      ValidStatic();
      n, out := KeysEqual(n, found);
      FilterConserves(Emits(), q, found, Todo());
    }

    /** keys_equal keeps what the row-level join condition asks for, and nothing else. */
    lemma FilterConserves(emit: Probe -> bool, q: seq<Probe>, found: seq<Probe>, q': seq<Probe>)
      requires Static() && Fed() && vectors != [] && Walkable(ht.heap, q) && Walkable(ht.heap, q')
      requires emit == Always() || emit == SameHash(ht.heap, current.hashes)
      requires forall y :: emit(y) ==> Times(found, y) + Owed(ht.heap, q', y) == Owed(ht.heap, q, y)
      requires forall y :: Times(found, y) > 0 ==> emit(y) && y.entry in work && y.id < |current.hashes|
      ensures var out := Matching(found, current);
              && (forall y :: Times(out, y) > 0 ==> MatchNow(y))
              && (forall y :: MatchNow(y) ==>
                    Times(out, y) + Owed(ht.heap, q', y) == Owed(ht.heap, q, y))
    {
      hide Table.Holds, Owed, Times, Walkable, Always, SameHash, Hashjoin.Matching, Hashjoin.Static, Hashjoin.KeyMatch,
           Hashjoin.KeysEqualAt;
      var out := Matching(found, current);
      forall y
        ensures Times(out, y) > 0 ==> MatchNow(y)
        ensures MatchNow(y) ==> Times(out, y) + Owed(ht.heap, q', y) == Owed(ht.heap, q, y)
      {
        MatchingTimes(found, current, y);
        MatchPasses(emit, y, Times(found, y));
      }
    }

    lemma ValidStatic()
      requires Valid()
      ensures Static() && Fed()
      ensures Probing() ==> vectors != [] && Fits(current)
      ensures Walkable(ht.heap, Todo()) && |Todo()| <= batchSize
      ensures Probing() ==> Within(Todo(), |current.hashes|)
      ensures !Probing() ==> Todo() == [] && followup == followupWrite == 0
    {
    }

    /** Whatever the algorithm, a call conserves the matches its test lets through, stays inside
        the table and makes progress. */
    lemma CallConserves(emit: Probe -> bool, q: seq<Probe>, out: seq<Probe>, q': seq<Probe>, n: nat)
      requires Static() && Walkable(ht.heap, q) && |q| <= batchSize && Within(q, n)
      requires forall y :: Owed(ht.heap, q, y) > 0 ==> y.entry in work
      requires if join == Boncz then emit == Always() && (out, q') == Passes(ht.heap, q, batchSize)
               else (out, q') == Drain(ht.heap, emit, q, batchSize)
      ensures Walkable(ht.heap, q')
      ensures forall y :: emit(y) ==> Times(out, y) + Owed(ht.heap, q', y) == Owed(ht.heap, q, y)
      ensures forall y :: !emit(y) ==> Times(out, y) == 0
      ensures forall y :: Owed(ht.heap, q', y) > 0 ==> y.entry in work
      ensures forall y :: Times(out, y) > 0 ==> emit(y) && y.entry in work && y.id < n
      ensures forall j :: 0 <= j < |out| ==> out[j].entry in buildKeys
      ensures q' == [] || Length(ht.heap, q') < Length(ht.heap, q)
    {
      hide Table.Holds, Finite, Walkable, Drain, Passes, Owed, Times, Length, Hashjoin.Fits;
      if join == Boncz {
        PassesWithin(ht.heap, q, batchSize, n);
      } else {
        DrainWithin(ht.heap, emit, q, batchSize, n);
      }
      forall y
        ensures emit(y) ==> Times(out, y) + Owed(ht.heap, q', y) == Owed(ht.heap, q, y)
        ensures !emit(y) ==> Times(out, y) == 0
        ensures Owed(ht.heap, q', y) <= Owed(ht.heap, q, y)
        ensures Times(out, y) > 0 ==> y.id < n
      {
        TimesIn(out, y);
        if join == Boncz {
          PassesConserve(ht.heap, q, batchSize, y);
        } else {
          DrainConserves(ht.heap, emit, q, batchSize, y);
        }
      }
      forall j | 0 <= j < |out| ensures out[j].entry in buildKeys {
        TimesMember(out, j);
      }
      if join == Boncz {
        PassesConserve(ht.heap, q, batchSize, Probe(0, END));
      } else {
        DrainProgress(ht.heap, emit, q, batchSize);
      }
    }

    /** Equal keys have equal hashes, so both tests let every row with equal keys through. */
    lemma MatchPasses(emit: Probe -> bool, y: Probe, times: nat)
      requires Static() && Fed() && vectors != []
      requires emit == Always() || emit == SameHash(ht.heap, current.hashes)
      requires times > 0 ==> emit(y) && y.entry in work && y.id < |current.hashes|
      ensures MatchNow(y) ==> emit(y) && KeysEqualAt(current, y)
      ensures times > 0 && KeysEqualAt(current, y) ==> MatchNow(y)
    {
      hide Table.Holds;
      StoresAll(ht, work);
      assert Fits(current);
    }

    /** Takes the next vector of the probe child, when the current one is finished. */
    method Fetch(vector: Vector<K>)
      requires Valid() && !Probing() && Fits(vector)
      modifies this`current, this`vectors, this`nextProbe, this`numProbes
      ensures Valid() && Sound() && Probing()
      ensures current == vector && vectors == old(vectors) + [vector] && Todo() == Heads(ht, vector.hashes)
    {
      hide Table.Holds, Finite, Walkable, Heads, Owed;
      current, vectors := vector, vectors + [vector];
      numProbes := |current.hashes|;
      nextProbe := 0;
      RingEmpty(followupIds[..], followupEntries[..], followup, followupWrite, Parked());
      ValidFetched();
    }

    lemma ValidFetched()
      requires Static() && Fed() && vectors != []
      requires nextProbe == 0 && numProbes == |current.hashes| > 0
      requires followup == followupWrite == 0
      ensures Valid() && Sound() && Todo() == Heads(ht, current.hashes)
    {
      hide Table.Holds, Finite, Heads, Owed;
      RingEmpty(followupIds[..], followupEntries[..], followup, followupWrite, Parked());
      forall y | Owed(ht.heap, Todo(), y) > 0 ensures y.entry in work {
        HeadsOwe(ht, work, current.hashes, y);
      }
    }

    /** The loop of Hashjoin::next as far as the current vector goes: batches of matches until one
        survives keys_equal. 0 says that another vector is needed. */
    method Resume() returns (n: nat, ghost out: seq<Probe>)
      requires Valid() && Sound()
      modifies this`nextProbe, this`followup, this`followupWrite
      modifies followupIds, followupEntries, buildMatches, probeMatches
      ensures Valid() && Sound()
      ensures n == |out| <= batchSize && (n == 0 ==> !Probing())
      ensures n > 0 ==> vectors != [] && Wrote(out, current.sel) && Effort() < old(Effort())
      ensures forall y :: Times(out, y) > 0 ==> MatchNow(y)
      ensures Settles(old(Todo()), Todo(), out)
    {
      hide Table.Holds, Finite, Walkable, Owed, Times, Hashjoin.Static, Hashjoin.Valid, Hashjoin.Todo,
           Hashjoin.Effort, Hashjoin.Sound, Hashjoin.MatchNow, Hashjoin.Wrote;
      ValidStatic();
      ghost var q0 := Todo();
      n, out := 0, [];
      SettlesNothing(q0);
      while n == 0 && Probing()
        invariant Valid() && Sound() && Static() && Walkable(ht.heap, q0) && Walkable(ht.heap, Todo())
        invariant n == |out| <= batchSize && Settles(q0, Todo(), out) && Effort() <= old(Effort())
        invariant n > 0 ==> vectors != [] && Wrote(out, current.sel) && Effort() < old(Effort())
        invariant forall y :: Times(out, y) > 0 ==> MatchNow(y)
        decreases Effort()
      {
        ghost var q1 := Todo();
        ValidStatic();
        n, out := JoinBatch();
        ValidStatic();
        SettlesTrans(q0, q1, Todo(), out);
      }
    }

    lemma SettlesNothing(q: seq<Probe>)
      requires Walkable(ht.heap, q)
      ensures Settles(q, q, [])
      ensures forall y: Probe :: Times([], y) == 0
    {
    }

    lemma SettlesTrans(q0: seq<Probe>, q1: seq<Probe>, q2: seq<Probe>, out: seq<Probe>)
      requires Walkable(ht.heap, q0) && Walkable(ht.heap, q1) && Walkable(ht.heap, q2)
      requires Settles(q0, q1, []) && Settles(q1, q2, out)
      ensures Settles(q0, q2, out)
    {
      hide Owed, Walkable, Hashjoin.MatchNow;
      assert forall y: Probe :: Times([], y) == 0;
    }

    // -------------------------------------------------------------- whole runs

    /** For the vectors so far: what has been delivered of each, and what the chains q of the last
        still lead to, add up to one of each match. */
    ghost predicate Accounted(vs: seq<Vector<K>>, log: seq<seq<Probe>>, q: seq<Probe>)
      requires Walkable(ht.heap, q)
    {
      && |log| == |vs|
      && (forall v, y :: 0 <= v < |log| && Times(log[v], y) > 0 ==> KeyMatch(vs, v, y))
      && (forall v, y :: 0 <= v < |log| && KeyMatch(vs, v, y) ==>
            Times(log[v], y) + (if v + 1 == |vs| then Owed(ht.heap, q, y) else 0) == 1)
    }

    /** Every pair of a probe tuple and a build entry with the same key is in the log of its
        vector exactly once, and nothing else is. */
    ghost predicate ExactlyOnce(log: seq<seq<Probe>>)
      reads this`vectors
    {
      && |log| == |vectors|
      && forall v, y :: 0 <= v < |log| ==> Times(log[v], y) == if KeyMatch(vectors, v, y) then 1 else 0
    }

    /** The log when a batch of the last vector has been delivered. */
    ghost function Entered(log: seq<seq<Probe>>, out: seq<Probe>): (log': seq<seq<Probe>>)
      ensures |log'| == |log|
    {
      if log == [] then log else log[|log| - 1 := log[|log| - 1] + out]
    }

    /** A delivery moves its matches from owed to delivered. */
    lemma Enter(log: seq<seq<Probe>>, q0: seq<Probe>, q: seq<Probe>, out: seq<Probe>)
      requires Walkable(ht.heap, q0) && Walkable(ht.heap, q) && Accounted(vectors, log, q0) && Settles(q0, q, out)
      requires forall y :: Times(out, y) > 0 ==> MatchNow(y)
      ensures Accounted(vectors, Entered(log, out), q)
    {
      hide Owed, Walkable, Times, Hashjoin.KeyMatch;
      var log', n := Entered(log, out), |log| - 1;
      forall v, y | 0 <= v < |log'|
        ensures Times(log'[v], y) > 0 ==> KeyMatch(vectors, v, y)
        ensures KeyMatch(vectors, v, y) ==> Times(log'[v], y) + (if v == n then Owed(ht.heap, q, y) else 0) == 1
      {
        TimesConcat(log[n], out, y);
        if KeyMatch(vectors, v, y) {
          assert Times(log[v], y) + (if v == n then Owed(ht.heap, q0, y) else 0) == 1;
        }
      }
    }

    /** A vector is fetched when nothing is owed of the one before, and owes everything. */
    lemma FetchAccounts(vs: seq<Vector<K>>, log: seq<seq<Probe>>, vector: Vector<K>)
      requires Static() && Fits(vector) && Accounted(vs, log, [])
      ensures Walkable(ht.heap, Heads(ht, vector.hashes))
      ensures Accounted(vs + [vector], log + [[]], Heads(ht, vector.hashes))
    {
      hide Table.Holds, Heads, Walkable, Finite, Hashjoin.KeysEqualAt;
      HasDirectory(ht, work);
      HeadsWalkable(ht, work, vector.hashes);
      StoresAll(ht, work);
      var vs', log', q := vs + [vector], log + [[]], Heads(ht, vector.hashes);
      forall v, y | 0 <= v < |log'|
        ensures Times(log'[v], y) > 0 ==> KeyMatch(vs', v, y)
        ensures KeyMatch(vs', v, y) ==> Times(log'[v], y) + (if v == |vs| then Owed(ht.heap, q, y) else 0) == 1
      {
        if v < |vs| {
          assert KeyMatch(vs, v, y) <==> KeyMatch(vs', v, y);
        } else {
          FreshOwes(vector, y);
        }
      }
    }

    /** A fresh vector owes each of its matches once. */
    lemma FreshOwes(vector: Vector<K>, y: Probe)
      requires Static() && Fits(vector)
      ensures Walkable(ht.heap, Heads(ht, vector.hashes))
      ensures y.id < |vector.hashes| && y.entry in work && KeysEqualAt(vector, y) ==>
        Owed(ht.heap, Heads(ht, vector.hashes), y) == 1
    {
      hide Table.Holds, Heads, Walkable, Finite, Owed;
      StoresAll(ht, work);
      HeadsOwe(ht, work, vector.hashes, y);
    }

    lemma AllDelivered(log: seq<seq<Probe>>)
      requires Valid() && !Probing() && Accounted(vectors, log, Todo())
      ensures ExactlyOnce(log)
    {
      hide Table.Holds, Heads, Walkable, Times, Finite, Hashjoin.KeyMatch;
      ValidStatic();
    }

    /** The rows of a vector's matches, as its parent gets to see them. */
    function RowsOf(vector: Vector<K>, s: seq<Probe>): (rows: seq<(Word, nat)>)
      requires Within(s, |vector.sel|)
      ensures |rows| == |s|
    {
      seq(|s|, j requires 0 <= j < |s| => (s[j].entry, vector.sel[s[j].id]))
    }

    function Output(entries: seq<Word>, positions: seq<nat>): (rows: seq<(Word, nat)>)
      requires |entries| == |positions|
    {
      seq(|entries|, j requires 0 <= j < |entries| => (entries[j], positions[j]))
    }

    lemma OutputRows(n: nat, out: seq<Probe>)
      requires Static() && n == |out| && Wrote(out, current.sel)
      ensures Within(out, |current.sel|)
      ensures Output(buildMatches[..n], probeMatches[..n]) == RowsOf(current, out)
    {
      hide Table.Holds;
    }

    /** The rows of all vectors, vector by vector. */
    ghost function AllRows(vs: seq<Vector<K>>, log: seq<seq<Probe>>): seq<(Word, nat)>
      requires |log| == |vs|
    {
      if log == [] then []
      else
        var v := |log| - 1;
        AllRows(vs[..v], log[..v]) + (if Within(log[v], |vs[v].sel|) then RowsOf(vs[v], log[v]) else [])
    }

    /** In terms of the columns: the tuple at place id of vector v and the build entry e are delivered once if
        the selected key is the key of the entry, and never otherwise; nothing else is delivered. */
    lemma EveryPairOnce(log: seq<seq<Probe>>, v: nat, id: nat, e: Word)
      requires Static() && Fed() && ExactlyOnce(log) && v < |vectors|
      ensures |log| == |vectors| && (forall i :: i in vectors[v].sel ==> i < |vectors[v].keys|)
      ensures id < |vectors[v].sel| && e in work ==>
        && e in buildKeys
        && Times(log[v], Probe(id, e)) == if buildKeys[e] == vectors[v].keys[vectors[v].sel[id]] then 1 else 0
      ensures id >= |vectors[v].sel| || e !in work ==> Times(log[v], Probe(id, e)) == 0
    {
      hide Table.Holds, Times;
      assert Fits(vectors[v]);
    }

    /** Matches in the logs before that of vector v. */
    ghost function LoggedBefore(log: seq<seq<Probe>>, v: nat): nat
      requires v <= |log|
    {
      if v == 0 then 0 else LoggedBefore(log, v - 1) + |log[v - 1]|
    }

    lemma {:induction false} LoggedPrefix(log: seq<seq<Probe>>, n: nat, v: nat)
      requires v <= n <= |log|
      ensures LoggedBefore(log[..n], v) == LoggedBefore(log, v)
    {
      if v > 0 { LoggedPrefix(log, n, v - 1); }
    }

    lemma {:induction false} RowsNumber(vs: seq<Vector<K>>, log: seq<seq<Probe>>)
      requires |log| == |vs| && forall v :: 0 <= v < |log| ==> Within(log[v], |vs[v].sel|)
      ensures |AllRows(vs, log)| == LoggedBefore(log, |log|)
    {
      if log != [] {
        var n := |log| - 1;
        RowsNumber(vs[..n], log[..n]);
        LoggedPrefix(log, n, n);
      }
    }

    /** Each row the parent sees is the build entry of a match and the selected row of its probe tuple, in the
        order of the log. */
    lemma {:induction false} RowsInOrder(vs: seq<Vector<K>>, log: seq<seq<Probe>>, v: nat, j: nat)
      requires |log| == |vs| && forall w :: 0 <= w < |log| ==> Within(log[w], |vs[w].sel|)
      requires v < |log| && j < |log[v]|
      ensures |AllRows(vs, log)| == LoggedBefore(log, |log|) && LoggedBefore(log, v) + j < |AllRows(vs, log)|
      ensures var y := log[v][j];
        y.id < |vs[v].sel| && AllRows(vs, log)[LoggedBefore(log, v) + j] == (y.entry, vs[v].sel[y.id])
    {
      var n := |log| - 1;
      RowsNumber(vs, log);
      RowsNumber(vs[..n], log[..n]);
      LoggedPrefix(log, n, n);
      if v < n {
        RowsInOrder(vs[..n], log[..n], v, j);
        LoggedPrefix(log, n, v);
      }
    }

    lemma RowsFetched(vs: seq<Vector<K>>, log: seq<seq<Probe>>, vector: Vector<K>)
      requires |log| == |vs|
      ensures AllRows(vs + [vector], log + [[]]) == AllRows(vs, log)
    {
      assert (vs + [vector])[..|vs|] == vs && (log + [[]])[..|vs|] == log;
      assert RowsOf(vector, []) == [];
    }

    lemma RowsAppended(vs: seq<Vector<K>>, log: seq<seq<Probe>>, out: seq<Probe>)
      requires |log| == |vs| && log != [] && Within(log[|log| - 1], |vs[|log| - 1].sel|)
      requires Within(out, |vs[|log| - 1].sel|)
      ensures AllRows(vs, Entered(log, out)) == AllRows(vs, log) + RowsOf(vs[|log| - 1], out)
    {
      var n := |log| - 1;
      assert Entered(log, out)[..n] == log[..n];
      assert RowsOf(vs[n], log[n] + out) == RowsOf(vs[n], log[n]) + RowsOf(vs[n], out);
    }

    lemma LogWithin(log: seq<seq<Probe>>, q: seq<Probe>, v: nat)
      requires Walkable(ht.heap, q) && Accounted(vectors, log, q) && v < |log|
      ensures |log| == |vectors| && Within(log[v], |vectors[v].sel|)
    {
      hide Table.Holds, Owed, Walkable, Finite;
      forall j | 0 <= j < |log[v]| ensures log[v][j].id < |vectors[v].sel| {
        TimesMember(log[v], j);
        assert KeyMatch(vectors, v, log[v][j]);
      }
    }

    lemma RowsEntered(log: seq<seq<Probe>>, q: seq<Probe>, out: seq<Probe>)
      requires Static() && Fed() && vectors != [] && Walkable(ht.heap, q) && Accounted(vectors, log, q)
      requires Within(out, |current.sel|)
      ensures AllRows(vectors, Entered(log, out)) == AllRows(vectors, log) + RowsOf(current, out)
    {
      hide Table.Holds, Owed, Walkable, Finite, Times, Hashjoin.Accounted, Hashjoin.AllRows, Hashjoin.Entered;
      AccountedSize(log, q);
      LogWithin(log, q, |log| - 1);
      RowsAppended(vectors, log, out);
    }

    /** What the parent has seen grows by the rows of a batch of n matches; 0 stands for no batch. */
    ghost predicate Adds(vector: Vector<K>, before: seq<(Word, nat)>, after: seq<(Word, nat)>, n: nat,
                         out: seq<Probe>)
    {
      if n > 0 then Within(out, |vector.sel|) && after == before + RowsOf(vector, out) else after == before
    }

    lemma NothingAdded(vector: Vector<K>, before: seq<(Word, nat)>, after: seq<(Word, nat)>, out: seq<Probe>)
      ensures Adds(vector, before, after, 0, out) <==> after == before
    {
    }

    /** The next batch of the current vector, and what it adds to the log. */
    method Deliver(ghost log: seq<seq<Probe>>) returns (n: nat, ghost out: seq<Probe>)
      requires Valid() && Sound() && Walkable(ht.heap, Todo()) && Accounted(vectors, log, Todo())
      modifies this`nextProbe, this`followup, this`followupWrite
      modifies followupIds, followupEntries, buildMatches, probeMatches
      ensures Valid() && Sound() && Walkable(ht.heap, Todo()) && Accounted(vectors, Entered(log, out), Todo())
      ensures n == |out| <= batchSize && (n == 0 ==> !Probing() && Entered(log, out) == log)
      ensures n > 0 ==>
        vectors != [] && Wrote(out, current.sel) && Effort() < old(Effort())
      ensures |log| == |vectors| && Adds(current, AllRows(vectors, log), AllRows(vectors, Entered(log, out)), n, out)
      ensures forall y :: Times(out, y) > 0 ==> MatchNow(y)
    {
      hide Table.Holds, Finite, Walkable, Owed, Times, Hashjoin.Static, Hashjoin.Valid, Hashjoin.Todo,
        Hashjoin.Effort, Hashjoin.Sound,
           Hashjoin.MatchNow, Hashjoin.Wrote, Hashjoin.Accounted, Hashjoin.AllRows, Hashjoin.Settles, Hashjoin.Fed;
      ValidStatic();
      AccountedSize(log, Todo());
      ghost var q := Todo();
      n, out := Resume();
      ValidStatic();
      Enter(log, q, Todo(), out);
      if n > 0 {
        OutputRows(n, out);
        RowsEntered(log, q, out);
      } else {
        assert log != [] ==> log[|log| - 1] + [] == log[|log| - 1];
      }
    }

    lemma AccountedSize(log: seq<seq<Probe>>, q: seq<Probe>)
      requires Walkable(ht.heap, q) && Accounted(vectors, log, q)
      ensures |log| == |vectors|
    {
    }

    /** The vector that follows, when all of the one before is delivered. */
    method FetchNext(vector: Vector<K>, ghost log: seq<seq<Probe>>)
      requires Valid() && !Probing() && Fits(vector) && Walkable(ht.heap, Todo()) && Accounted(vectors, log, Todo())
      modifies this`current, this`vectors, this`nextProbe, this`numProbes
      ensures Valid() && Sound() && Probing() && current == vector && vectors == old(vectors) + [vector]
      ensures Walkable(ht.heap, Todo()) && Accounted(vectors, log + [[]], Todo())
      ensures |log| == |old(vectors)| && AllRows(vectors, log + [[]]) == AllRows(old(vectors), log)
    {
      hide Table.Holds, Finite, Walkable, Owed, Hashjoin.Static, Hashjoin.Valid, Hashjoin.Todo, Hashjoin.Sound,
           Hashjoin.Accounted, Hashjoin.AllRows, Hashjoin.Fits, Heads;
      ValidStatic();
      AccountedSize(log, Todo());
      FetchAccounts(vectors, log, vector);
      RowsFetched(vectors, log, vector);
      Fetch(vector);
    }

    /** Hashjoin::next after the build phase; 0 is EndOfStream. The probe child is asked for a vector
        when the matches of the one before are all delivered. */
    method Next(child: Child<K>, ghost log0: seq<seq<Probe>>)
      returns (n: nat, ghost out: seq<Probe>, ghost log: seq<seq<Probe>>)
      requires Valid() && Sound() && Walkable(ht.heap, Todo()) && Accounted(vectors, log0, Todo())
      requires child.Valid() && vectors == child.all[..child.pos] && forall v :: 0 <= v < |child.all| ==>
        Fits(child.all[v])
      modifies this`current, this`vectors, this`nextProbe, this`numProbes, this`followup, this`followupWrite
      modifies followupIds, followupEntries, buildMatches, probeMatches, child`pos
      ensures Valid() && Sound() && child.Valid() && vectors == child.all[..child.pos]
      ensures Walkable(ht.heap, Todo()) && Accounted(vectors, log, Todo()) && |log| == |vectors|
      ensures |log0| == |old(vectors)|
      ensures n == |out| <= batchSize && (n == 0 ==> child.pos == |child.all| && !Probing())
      ensures n > 0 ==> vectors != [] && Wrote(out, current.sel)
      ensures forall y :: Times(out, y) > 0 ==> MatchNow(y)
      ensures Adds(current, AllRows(old(vectors), log0), AllRows(vectors, log), n, out)
      ensures child.pos > old(child.pos) || (child.pos == old(child.pos) && (n > 0 ==> Effort() < old(Effort())))
      ensures n == 0 && child.pos == old(child.pos) ==> Effort() == 0
    {
      hide Table.Holds, Finite, Walkable, Owed, Times, Hashjoin.Static, Hashjoin.Valid, Hashjoin.Todo,
        Hashjoin.Effort, Hashjoin.Sound,
           Hashjoin.MatchNow, Hashjoin.Wrote, Hashjoin.Accounted, Hashjoin.Fits, Hashjoin.AllRows, Hashjoin.Entered,
           Hashjoin.Adds;
      AccountedSize(log0, Todo());
      n, out := Deliver(log0);
      log := Entered(log0, out);
      while n == 0
        invariant Valid() && Sound() && child.Valid() && vectors == child.all[..child.pos] && |log| == |vectors|
        invariant Walkable(ht.heap, Todo()) && Accounted(vectors, log, Todo())
        invariant n == |out| <= batchSize && (n == 0 ==> !Probing())
        invariant n > 0 ==> vectors != [] && Wrote(out, current.sel)
        invariant forall y :: Times(out, y) > 0 ==> MatchNow(y)
        invariant Adds(current, AllRows(old(vectors), log0), AllRows(vectors, log), n, out)
        invariant child.pos > old(child.pos) || (child.pos == old(child.pos) && (n > 0 ==> Effort() < old(Effort())))
        decreases |child.all| - child.pos, n == 0
      {
        ghost var pos := child.pos;
        NothingAdded(current, AllRows(old(vectors), log0), AllRows(vectors, log), out);
        var vector;
        n, vector := child.Next();
        if n == 0 {
          FitsNotEmpty(child.all);
          IdleEffort();
          return;
        }
        assert child.all[..pos + 1] == child.all[..pos] + [child.all[pos]];
        FetchNext(vector, log);
        log := log + [[]];
        n, out := Deliver(log);
        log := Entered(log, out);
      }
    }

    lemma FitsNotEmpty(vs: seq<Vector<K>>)
      requires forall v :: 0 <= v < |vs| ==> Fits(vs[v])
      ensures forall v :: 0 <= v < |vs| ==> |vs[v].hashes| > 0
    {
    }

    lemma IdleEffort()
      requires Valid() && !Probing()
      ensures Effort() == 0
    {
    }

    /** A parent operator that asks for batches until the end of the stream. `rows` are the rows
        it gets to see; `log` says which matches they are. */
    method Run(child: Child<K>) returns (rows: seq<(Word, nat)>, ghost log: seq<seq<Probe>>)
      requires Valid() && Sound() && vectors == [] && !Probing()
      requires child.Valid() && child.pos == 0 && forall v :: 0 <= v < |child.all| ==> Fits(child.all[v])
      modifies this`current, this`vectors, this`nextProbe, this`numProbes, this`followup, this`followupWrite
      modifies followupIds, followupEntries, buildMatches, probeMatches, child`pos
      ensures Valid() && !Probing() && vectors == child.all && ExactlyOnce(log)
      ensures rows == AllRows(vectors, log)
    {
      hide Table.Holds, Finite, Walkable, Owed, Times, Hashjoin.Static, Hashjoin.Valid, Hashjoin.Todo, Hashjoin.Effort,
           Hashjoin.Sound, Hashjoin.MatchNow, Hashjoin.Accounted, Hashjoin.ExactlyOnce, Hashjoin.Fits, Hashjoin.AllRows;
      ValidStatic();
      rows, log := [], [];
      NothingYet();
      var n: nat := 1;
      while n > 0
        invariant Valid() && Sound() && Static() && child.Valid() && vectors == child.all[..child.pos]
        invariant Walkable(ht.heap, Todo()) && Accounted(vectors, log, Todo()) && |log| == |vectors|
        invariant n == 0 ==> child.pos == |child.all| && !Probing()
        invariant rows == AllRows(vectors, log)
        decreases |child.all| - child.pos, Effort(), n
      {
        ghost var out;
        n, out, log := Next(child, log);
        ValidStatic();
        if n > 0 {
          OutputRows(n, out);
          rows := rows + Output(buildMatches[..n], probeMatches[..n]);
        }
      }
      AllDelivered(log);
    }

    lemma NothingYet()
      requires Valid() && vectors == [] && !Probing()
      ensures Walkable(ht.heap, Todo()) && Accounted(vectors, [], Todo()) && AllRows(vectors, []) == []
    {
    }
  }

  /** Two complete runs, with whatever algorithms and batch sizes, deliver the same rows: the
      same matches as often for every vector. */
  lemma RunsAgree<K>(a: Hashjoin<K>, b: Hashjoin<K>, logA: seq<seq<Probe>>, logB: seq<seq<Probe>>, v: nat)
    requires a.ExactlyOnce(logA) && b.ExactlyOnce(logB)
    requires a.work == b.work && a.buildKeys == b.buildKeys && a.vectors == b.vectors && v < |a.vectors|
    ensures multiset(logA[v]) == multiset(logB[v])
  {
    forall y ensures multiset(logA[v])[y] == multiset(logB[v])[y] {
      TimesMultiset(logA[v], y);
      TimesMultiset(logB[v], y);
      assert a.KeyMatch(a.vectors, v, y) <==> b.KeyMatch(b.vectors, v, y);
    }
  }

  lemma StoresAll(t: Table, work: set<Word>)
    requires t.Holds(work)
    ensures t.Stores(work)
  {
  }

  lemma {:induction false} TimesIn<T>(s: seq<T>, y: T)
    ensures Times(s, y) > 0 <==> y in s
  {
    if s != [] {
      TimesIn(s[1..], y);
      assert s == [s[0]] + s[1..];
    }
  }

  lemma {:induction false} TimesMember<T>(s: seq<T>, j: nat)
    requires j < |s|
    ensures Times(s, s[j]) > 0
  {
    if j > 0 {
      TimesMember(s[1..], j - 1);
    }
  }

  // ------------------------------------------------------------ compaction

  lemma NoHeads(t: Table, hashes: seq<Hash>)
    requires t.HasDirectory()
    ensures Heads(t, hashes[..0]) == []
  {
  }

  lemma HeadsAppend(t: Table, hashes: seq<Hash>, i: nat)
    requires t.HasDirectory() && i < |hashes|
    ensures Heads(t, hashes[..i + 1]) == Heads(t, hashes[..i]) + Head(t, hashes[i], i)
    ensures |Heads(t, hashes[..i])| <= i
  {
    assert hashes[..i + 1][..i] == hashes[..i];
  }

  lemma ParkStep(heap: Heap, q: seq<Probe>, j: nat)
    requires Walkable(heap, q) && j < |q|
    ensures Walkable(heap, q[..j]) && Walkable(heap, q[..j + 1]) && q[j].entry in heap
    ensures Parks(heap, q[..j + 1]) == Parks(heap, q[..j]) + Park(heap, q[j])
    ensures |Parks(heap, q[..j])| <= j
  {
    hide Finite;
    Parkable(heap, q[j]);
    assert q[..j + 1][..j] == q[..j];
  }

  /** One pass of a call that must still deliver Passes of `q` after `done`. */
  lemma CompactDone(heap: Heap, q: seq<Probe>, space: nat, done: seq<Probe>, goal: (seq<Probe>, seq<Probe>), n: nat)
    requires Walkable(heap, q) && q != [] && |q| <= space && Within(q, n)
    requires goal == After(done, Passes(heap, q, space))
    ensures var q1 := Parks(heap, q);
            && Walkable(heap, q1) && Within(q1, n) && |q1| <= |q| && Length(heap, q1) < Length(heap, q)
            && (q1 == [] || |q| + |q1| >= space ==> goal == (done + q, q1))
            && (q1 != [] && |q| + |q1| < space ==> goal == After(done + q, Passes(heap, q1, space - |q|)))
  {
    hide Parks, Walkable, Length, Finite, Within;
    ParksShorten(heap, q);
    ParksWithin(heap, q, n);
    var q1 := Parks(heap, q);
    if q1 != [] && |q| + |q1| < space {
      var rest := Passes(heap, q1, space - |q|);
      assert done + (q + rest.0) == (done + q) + rest.0;
    }
  }

  lemma PassesNothing(heap: Heap, q: seq<Probe>, space: nat, done: seq<Probe>, goal: (seq<Probe>, seq<Probe>))
    requires |q| == 0 && Walkable(heap, q) && goal == After(done, Passes(heap, q, space))
    ensures goal == (done, q)
  {
    var nothing: seq<Probe> := [];
    assert done + nothing == done;
  }

  // ------------------------------------------------------------ eight lanes

  /** One lane after the gathers and masked compares of an iteration: entries.vec and
      entries.mask, hashesEq, hasNext, nextPtrs and ids. */
  datatype Lane = Lane(entry: Word, mask: bool, hashEq: bool, hasNext: bool, next: Word, id: nat)

  /** Gathers are masked: a lane outside the mask reads nothing. */
  function LoadLane(t: Table, hash: Hash, id: nat): Lane
    requires t.HasDirectory()
  {
    var candidate := t.dir[t.Slot(hash)];
    var entry, mask := Ptr(candidate), Tagged(candidate, hash);
    if mask && entry in t.heap then
      Lane(entry, mask, t.heap[entry].hash == hash, t.heap[entry].next != END, t.heap[entry].next, id)
    else Lane(entry, mask, false, false, END, id)
  }

  function LaneMatch(lane: Lane): seq<Probe> {
    if lane.hashEq then [Probe(lane.id, lane.entry)] else []
  }

  function LaneNext(lane: Lane): seq<Probe> {
    if lane.hasNext then [Probe(lane.id, lane.next)] else []
  }

  /** A compress-store keeps the lanes of its mask, in order. */
  function Compress(pick: Lane -> seq<Probe>, lanes: seq<Lane>): seq<Probe> {
    if lanes == [] then [] else Compress(pick, lanes[..|lanes| - 1]) + pick(lanes[|lanes| - 1])
  }

  /** What the scalar loop computes for the k tuples from i on. */
  lemma {:induction false} LanesStep(t: Table, work: set<Word>, emit: Probe -> bool, hashes: seq<Hash>, i: nat, k: nat)
    requires t.Holds(work) && i + k <= |hashes|
    ensures t.HasDirectory()
    ensures Walkable(t.heap, Heads(t, hashes[..i])) && Walkable(t.heap, Heads(t, hashes[..i + k]))
    ensures |Reports(emit, Heads(t, hashes[..i]))| <= i && |Parks(t.heap, Heads(t, hashes[..i]))| <= i
  {
    HasDirectory(t, work);
    HeadsWalkable(t, work, hashes[..i]);
    HeadsWalkable(t, work, hashes[..i + k]);
  }

  ghost predicate Loaded(t: Table, hashes: seq<Hash>, i: nat, lanes: seq<Lane>)
    requires t.HasDirectory() && i + LANES <= |hashes|
  {
    |lanes| == LANES && forall k :: 0 <= k < LANES ==> lanes[k] == LoadLane(t, hashes[i + k], i + k)
  }

  lemma LanesLoaded(t: Table, hashes: seq<Hash>, i: nat, lanes: seq<Lane>)
    requires t.HasDirectory() && i + LANES <= |hashes| && |lanes| == LANES
    requires forall k :: 0 <= k < LANES ==> lanes[k] == LoadLane(t, hashes[i + k], i + k)
    ensures Loaded(t, hashes, i, lanes) && lanes[..LANES] == lanes
    ensures forall k :: 0 <= k < LANES ==> lanes[k].id < |hashes|
  {
    forall k | 0 <= k < LANES ensures lanes[k].id < |hashes| {
      assert lanes[k] == LoadLane(t, hashes[i + k], i + k);
    }
  }

  /** A lane is in the mask exactly when the scalar lookup finds a chain. */
  lemma LaneEntry(t: Table, work: set<Word>, hash: Hash)
    requires t.Holds(work)
    ensures t.HasDirectory()
    ensures Tagged(t.dir[t.Slot(hash)], hash) <==> t.FindChainTagged(hash) != END
    ensures Tagged(t.dir[t.Slot(hash)], hash)
            ==> Ptr(t.dir[t.Slot(hash)]) == t.FindChainTagged(hash) && t.FindChainTagged(hash) in t.heap
  {
    FindIsComplete(t, work, hash);
    ChainStep(t.heap, t.FindChainTagged(hash));
  }

  /** One lane computes what one iteration of the scalar loop computes. */
  lemma LaneAgrees(t: Table, work: set<Word>, emit: Probe -> bool, hashes: seq<Hash>, i: nat)
    requires t.Holds(work) && emit == SameHash(t.heap, hashes) && i < |hashes|
    ensures t.HasDirectory()
    ensures var lane, h := LoadLane(t, hashes[i], i), Head(t, hashes[i], i);
            && (h == [] ==> LaneMatch(lane) == [] && LaneNext(lane) == [])
            && (h != [] ==> h[0].entry in t.heap
                            && LaneMatch(lane) == Report(emit, h[0])
                            && LaneNext(lane) == Park(t.heap, h[0]))
  {
    LaneEntry(t, work, hashes[i]);
    hide Table.Holds, Tagged, Ptr;
  }

  /** The compressed lanes are the reports and rests of the scalar loop. */
  lemma {:induction false} LanesAgree(t: Table, work: set<Word>, emit: Probe -> bool, hashes: seq<Hash>, i: nat,
                                      lanes: seq<Lane>, k: nat)
    requires t.Holds(work) && emit == SameHash(t.heap, hashes)
    requires t.HasDirectory() && i + LANES <= |hashes| && k <= LANES && Loaded(t, hashes, i, lanes)
    ensures Walkable(t.heap, Heads(t, hashes[..i])) && Walkable(t.heap, Heads(t, hashes[..i + k]))
    ensures Reports(emit, Heads(t, hashes[..i + k]))
            == Reports(emit, Heads(t, hashes[..i])) + Compress(LaneMatch, lanes[..k])
    ensures Parks(t.heap, Heads(t, hashes[..i + k]))
            == Parks(t.heap, Heads(t, hashes[..i])) + Compress(LaneNext, lanes[..k])
    decreases k
  {
    hide Table.Holds, Table.FindChainTagged, Reports, Parks, Heads, Head, Report, Park, Walkable, Finite, LoadLane,
         LaneMatch, LaneNext;
    HeadsWalkable(t, work, hashes[..i]);
    if k > 0 {
      var l := k - 1;
      LanesAgree(t, work, emit, hashes, i, lanes, l);
      HeadsStep(t, work, emit, hashes, i + l);
      LaneAgrees(t, work, emit, hashes, i + l);
      assert lanes[..k][..l] == lanes[..l];
      assert hashes[..i + l + 1] == hashes[..i + k];
      var q := Heads(t, hashes[..i]);
      Associate(Reports(emit, q), Compress(LaneMatch, lanes[..l]), LaneMatch(lanes[l]));
      Associate(Parks(t.heap, q), Compress(LaneNext, lanes[..l]), LaneNext(lanes[l]));
    }
  }

  lemma HasDirectory(t: Table, work: set<Word>)
    requires t.Holds(work)
    ensures t.HasDirectory()
  {
  }

  lemma NoVisits(heap: Heap, emit: Probe -> bool, q: seq<Probe>, out: seq<Probe>)
    requires Walkable(heap, q[..0])
    ensures q[0..] + Parks(heap, q[..0]) == q
    ensures out + Reports(emit, q[..0]) == out
  {
  }

  /** The pass so far, after visiting one more chain. */
  lemma VisitStep(heap: Heap, emit: Probe -> bool, q: seq<Probe>, j: nat, n: nat)
    requires Walkable(heap, q) && Within(q, n) && j < |q|
    ensures Walkable(heap, q[..j]) && Walkable(heap, q[..j + 1])
    ensures Starts(heap, q[j]) && q[j].entry in heap && q[j].id < n
    ensures |q[j..] + Parks(heap, q[..j])| <= |q| && (q[j..] + Parks(heap, q[..j]))[0] == q[j]
    ensures |Reports(emit, q[..j])| <= j
    ensures q[j + 1..] + Parks(heap, q[..j + 1])
            == (q[j..] + Parks(heap, q[..j]))[1..] + Park(heap, q[j])
    ensures Reports(emit, q[..j + 1]) == Reports(emit, q[..j]) + Report(emit, q[j])
  {
    hide Finite;
    Parkable(heap, q[j]);
    assert q[..j + 1][..j] == q[..j];
    assert q[j..] == [q[j]] + q[j + 1..];
  }

  ghost function After(done: seq<Probe>, r: (seq<Probe>, seq<Probe>)): (seq<Probe>, seq<Probe>) {
    (done + r.0, r.1)
  }

  /** One pass of a call that must still deliver Drain of `q` after `done`. */
  lemma PassDone(heap: Heap, emit: Probe -> bool, q: seq<Probe>, space: nat, done: seq<Probe>,
                 goal: (seq<Probe>, seq<Probe>), n: nat)
    requires Walkable(heap, q) && q != [] && Within(q, n)
    requires goal == After(done, Drain(heap, emit, q, space))
    ensures |q| > space ==>
              && Walkable(heap, q[..space])
              && q[space..] + Parks(heap, q[..space]) != []
              && goal == (done + Reports(emit, q[..space]), q[space..] + Parks(heap, q[..space]))
    ensures |q| <= space ==>
              && q[..|q|] == q && q[|q|..] + Parks(heap, q[..|q|]) == Parks(heap, q)
              && |Reports(emit, q)| <= space
              && goal == After(done + Reports(emit, q), Drain(heap, emit, Parks(heap, q), space - |Reports(emit, q)|))
    ensures Walkable(heap, Parks(heap, q)) && |Parks(heap, q)| <= |q| && Within(Parks(heap, q), n)
    ensures Length(heap, Parks(heap, q)) < Length(heap, q)
  {
    hide Reports, Parks, Walkable, Length, Finite, Within;
    ParksShorten(heap, q);
    ParksWithin(heap, q, n);
    if |q| > space {
      WalkablePrefix(heap, q, space);
    } else {
      var o := Reports(emit, q);
      var rest := Drain(heap, emit, Parks(heap, q), space - |o|);
      assert done + (o + rest.0) == (done + o) + rest.0;
      assert q[..|q|] == q;
    }
  }

  lemma DrainUnfold(heap: Heap, emit: Probe -> bool, q: seq<Probe>, space: nat)
    requires Walkable(heap, q) && |q| <= space
    ensures After(Reports(emit, q), Drain(heap, emit, Parks(heap, q), space - |Reports(emit, q)|))
            == Drain(heap, emit, q, space)
  {
    if q == [] {
      AfterNothing(([], []));
    }
  }

  lemma AfterNothing(r: (seq<Probe>, seq<Probe>))
    ensures After([], r) == r
  {
    assert [] + r.0 == r.0;
    assert r == (r.0, r.1);
  }

  lemma DrainNothing(heap: Heap, emit: Probe -> bool, space: nat, done: seq<Probe>)
    ensures After(done, Drain(heap, emit, [], space)) == (done, [])
  {
    var nothing: seq<Probe> := [];
    assert done + nothing == done;
  }

  lemma WalkablePrefix(heap: Heap, q: seq<Probe>, k: nat)
    requires Walkable(heap, q) && k <= |q|
    ensures Walkable(heap, q[..k]) && Walkable(heap, q[k..])
  {
  }

  lemma RingEmpty(ids: seq<nat>, entries: seq<Word>, read: nat, write: nat, q: seq<Probe>)
    requires |ids| == |entries| && read < |ids| && write < |ids|
    requires q == Ring.Contents(ids, entries, read, write)
    ensures read == write <==> q == []
  {
  }

  /** One more fresh probe. */
  lemma HeadsStep(t: Table, work: set<Word>, emit: Probe -> bool, hashes: seq<Hash>, i: nat)
    requires t.Holds(work) && i < |hashes|
    ensures var q, h := Heads(t, hashes[..i]), Head(t, hashes[i], i);
            && Heads(t, hashes[..i + 1]) == q + h
            && Walkable(t.heap, q) && Walkable(t.heap, h) && Walkable(t.heap, q + h)
            && (h == [] ==> q + h == q)
            && (h != [] ==> Reports(emit, q + h) == Reports(emit, q) + Report(emit, h[0])
                            && h[0].entry in t.heap
                            && Parks(t.heap, q + h) == Parks(t.heap, q) + Park(t.heap, h[0]))
    ensures |Reports(emit, Heads(t, hashes[..i]))| <= i && |Parks(t.heap, Heads(t, hashes[..i]))| <= i
  {
    assert hashes[..i + 1][..i] == hashes[..i];
    HeadsWalkable(t, work, hashes[..i]);
    HeadsWalkable(t, work, hashes[..i + 1]);
    var q, h := Heads(t, hashes[..i]), Head(t, hashes[i], i);
    HeadOwes(t, work, hashes[i], i, Probe(i, END));
    if h == [] {
      assert q + h == q;
    } else {
      assert (q + h)[..|q|] == q;
      Parkable(t.heap, h[0]);
    }
  }
}
