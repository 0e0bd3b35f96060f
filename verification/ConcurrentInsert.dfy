/** The build phase of the join as a protocol: any number of workers run
    Hashmap::insertAll_tagged on one table, and every load, store and
    compare-and-swap is a step of its own. */
module ConcurrentInsert {
  import opened Bits
  import opened Hashmap

  /** Where a worker is inside insert_tagged for the entry at the front of `todo`:
      about to load the directory word, to write `entry->next` and compute the new
      word, or to swap. */
  datatype Pc = Load | Link | Swap

  datatype Inserter = Inserter(todo: seq<Word>, pc: Pc, loc: Word, newLoc: Word)

  datatype State = State(ht: Table, workers: seq<Inserter>) {

    /** Entries whose insertion has not taken effect. */
    ghost function Pending(): set<Word> {
      set i, e | 0 <= i < |workers| && e in workers[i].todo :: e
    }

    ghost predicate Finished() {
      forall i :: 0 <= i < |workers| ==> workers[i].todo == []
    }
  }

  /** Workers start with private, disjoint lists of materialized entries. */
  ghost predicate Init(s: State, work: set<Word>) {
    && s.ht.Empty()
    && s.ht.Stores(work)
    && s.Pending() == work
    && DisjointTodos(s)
    && forall i :: 0 <= i < |s.workers| ==> s.workers[i].pc == Load
  }

  ghost predicate DisjointTodos(s: State) {
    && (forall i :: 0 <= i < |s.workers| ==> NoDuplicates(s.workers[i].todo))
    && (forall i, j, e :: 0 <= i < j < |s.workers| && e in s.workers[i].todo ==> e !in s.workers[j].todo)
  }

  /** The directory slot the worker's current entry belongs to. */
  ghost function Target(s: State, i: nat): nat
    requires s.ht.HasDirectory()
    requires i < |s.workers| && s.workers[i].todo != []
    requires s.workers[i].todo[0] in s.ht.heap
  {
    s.ht.Slot(s.ht.heap[s.workers[i].todo[0]].hash)
  }

  ghost predicate Ready(s: State, i: nat, pc: Pc) {
    && i < |s.workers|
    && s.workers[i].pc == pc
    && s.workers[i].todo != []
    && s.workers[i].todo[0] in s.ht.heap
    && s.ht.HasDirectory()
  }

  ghost predicate LoadStep(s: State, s': State, i: nat) {
    && Ready(s, i, Load)
    && var w := s.workers[i];
    && s' == s.(workers := s.workers[i := w.(pc := Link, loc := s.ht.dir[Target(s, i)])])
  }

  ghost predicate LinkStep(s: State, s': State, i: nat) {
    && Ready(s, i, Link)
    && var w := s.workers[i];
    && var e := w.todo[0];
    && var hash := s.ht.heap[e].hash;
    && s' == State(s.ht.(heap := s.ht.heap[e := EntryHeader(Ptr(w.loc), hash)]),
                   s.workers[i := w.(pc := Swap, newLoc := Update(w.loc, e, hash))])
  }

  ghost predicate SwapStep(s: State, s': State, i: nat) {
    && Ready(s, i, Swap)
    && var w := s.workers[i];
    && s.ht.dir[Target(s, i)] == w.loc
    && s' == State(s.ht.(dir := s.ht.dir[Target(s, i) := w.newLoc]),
                   s.workers[i := w.(todo := w.todo[1..], pc := Load)])
  }

  /** compare_exchange_weak may fail on a changed word and also for no reason; either way
      it hands back the word it saw. */
  ghost predicate FailedSwapStep(s: State, s': State, i: nat) {
    && Ready(s, i, Swap)
    && var w := s.workers[i];
    && s' == s.(workers := s.workers[i := w.(pc := Link, loc := s.ht.dir[Target(s, i)])])
  }

  ghost predicate Step(s: State, s': State, i: nat) {
    LoadStep(s, s', i) || LinkStep(s, s', i) || SwapStep(s, s', i) || FailedSwapStep(s, s', i)
  }

  ghost predicate Next(s: State, s': State) {
    exists i: nat :: Step(s, s', i)
  }

  ghost predicate Run(trace: seq<State>, work: set<Word>) {
    && |trace| > 0
    && Init(trace[0], work)
    && forall k :: 0 <= k < |trace| - 1 ==> Next(trace[k], trace[k + 1])
  }

  // ------------------------------------------------------------- invariant

  ghost predicate Inv(s: State, work: set<Word>) {
    && s.ht.Stores(work)
    && s.Pending() <= work
    && DisjointTodos(s)
    && s.ht.Holds(work - s.Pending())
    && forall i :: 0 <= i < |s.workers| && s.workers[i].pc == Swap ==> Prepared(s, i)
  }

  /** A worker about to swap has linked its entry in front of the word it loaded. */
  ghost predicate Prepared(s: State, i: nat)
    requires i < |s.workers|
  {
    var w := s.workers[i];
    && w.todo != []
    && w.todo[0] in s.ht.heap
    && s.ht.heap[w.todo[0]].next == Ptr(w.loc)
    && w.newLoc == Update(w.loc, w.todo[0], s.ht.heap[w.todo[0]].hash)
  }

  lemma InitInv(s: State, work: set<Word>)
    requires Init(s, work)
    ensures Inv(s, work)
  {
    assert work - s.Pending() == {};
    forall slot | 0 <= slot < |s.ht.dir|
      ensures s.ht.SlotHolds(slot, {})
    {
      EmptyWord(END);
      assert IsChain(s.ht.heap, END, []);
      ChainStep(s.ht.heap, END);
      forall g: Hash ensures !Tagged(END, g) { EmptyWord(g); }
    }
  }

  /** A step that leaves the table alone and takes nothing off a list. */
  lemma QuietStep(s: State, s': State, i: nat, work: set<Word>)
    requires Inv(s, work) && i < |s.workers|
    requires s'.ht == s.ht && |s'.workers| == |s.workers|
    requires s'.workers[i].todo == s.workers[i].todo && s'.workers[i].pc != Swap
    requires forall j :: 0 <= j < |s.workers| && j != i ==> s'.workers[j] == s.workers[j]
    ensures Inv(s', work)
  {
    assert forall j :: 0 <= j < |s.workers| ==> s'.workers[j].todo == s.workers[j].todo;
    assert s'.Pending() == s.Pending();
  }

  lemma InPending(s: State, i: nat, e: Word)
    requires i < |s.workers| && e in s.workers[i].todo
    ensures e in s.Pending()
  {
  }

  lemma LinkKeeps(s: State, s': State, i: nat, work: set<Word>)
    requires Inv(s, work) && LinkStep(s, s', i)
    ensures Inv(s', work)
  {
    var e := s.workers[i].todo[0];
    var done := work - s.Pending();
    InPending(s, i, e);
    assert forall j :: 0 <= j < |s.workers| ==> s'.workers[j].todo == s.workers[j].todo;
    assert s'.Pending() == s.Pending();
    forall x | x in work ensures s'.ht.heap[x].hash == s.ht.heap[x].hash {}
    forall slot | 0 <= slot < |s.ht.dir| ensures s'.ht.SlotHolds(slot, done) {
      LinkKeepsSlot(s.ht, s'.ht, e, slot, done);
    }
    forall j | 0 <= j < |s'.workers| && s'.workers[j].pc == Swap ensures Prepared(s', j) {
      if j != i {
        assert Prepared(s, j);
        assert s.workers[j].todo[0] in s.workers[j].todo;
        assert s.workers[j].todo[0] != e;
      }
    }
  }

  lemma LinkKeepsSlot(t: Table, t': Table, e: Word, slot: nat, done: set<Word>)
    requires t.Holds(done) && slot < |t.dir|
    requires e in t.heap && e !in done
    requires t'.exp == t.exp && t'.dir == t.dir
    requires exists next :: t'.heap == t.heap[e := EntryHeader(next, t.heap[e].hash)]
    ensures t'.Stores(done) && t'.SlotHolds(slot, done)
  {
    var next :| t'.heap == t.heap[e := EntryHeader(next, t.heap[e].hash)];
    assert t.SlotHolds(slot, done);
    var p := Ptr(t.dir[slot]);
    var c := Chain(t.heap, p);
    ChainFrame(t.heap, e, EntryHeader(next, t.heap[e].hash), p, c);
    ChainUnique(t'.heap, p, c, Chain(t'.heap, p));
    forall x | x in done ensures t'.heap[x] == t.heap[x] {}
    forall g: Hash ensures t'.Witnessed(done, slot, g) <==> t.Witnessed(done, slot, g) {}
  }

  lemma SwapKeeps(s: State, s': State, i: nat, work: set<Word>)
    requires Inv(s, work) && SwapStep(s, s', i)
    ensures Inv(s', work)
    ensures s'.Pending() == s.Pending() - {s.workers[i].todo[0]}
    ensures s.workers[i].todo[0] in s.Pending()
  {
    hide Table.Holds, State.Pending, DisjointTodos;
    var w := s.workers[i];
    var e := w.todo[0];
    InPending(s, i, e);
    SwapPending(s, s', i);
    var done := work - s.Pending();
    assert work - s'.Pending() == done + {e};
    assert Prepared(s, i);
    SwapKeepsTable(s.ht, s'.ht, e, w.loc, done);
    SwapPrepared(s, s', i);
  }

  lemma SwapPrepared(s: State, s': State, i: nat)
    requires SwapStep(s, s', i)
    requires forall j :: 0 <= j < |s.workers| && s.workers[j].pc == Swap ==> Prepared(s, j)
    ensures forall j :: 0 <= j < |s'.workers| && s'.workers[j].pc == Swap ==> Prepared(s', j)
  {
    forall j | 0 <= j < |s'.workers| && s'.workers[j].pc == Swap ensures Prepared(s', j) {
      assert Prepared(s, j);
    }
  }

  lemma SwapPending(s: State, s': State, i: nat)
    requires DisjointTodos(s) && SwapStep(s, s', i)
    ensures s'.Pending() == s.Pending() - {s.workers[i].todo[0]}
    ensures DisjointTodos(s')
  {
    var w := s.workers[i];
    var e := w.todo[0];
    assert w.todo == [e] + w.todo[1..];
    forall j | 0 <= j < |s.workers|
      ensures forall x :: x in s'.workers[j].todo <==> x in s.workers[j].todo && x != e
    {
    }
    forall x ensures x in s'.Pending() <==> x in s.Pending() && x != e {
      if x in s.Pending() && x != e {
        var j :| 0 <= j < |s.workers| && x in s.workers[j].todo;
        assert x in s'.workers[j].todo;
      }
    }
  }

  lemma SwapKeepsTable(t: Table, t': Table, e: Word, loc: Word, done: set<Word>)
    requires t.Holds(done) && t.Stores({e}) && e !in done
    requires t.dir[t.Slot(t.heap[e].hash)] == loc
    requires t.heap[e].next == Ptr(loc)
    requires t' == t.(dir := t.dir[t.Slot(t.heap[e].hash) := Update(loc, e, t.heap[e].hash)])
    ensures t'.Holds(done + {e})
  {
    forall slot | 0 <= slot < |t.dir| ensures t'.SlotHolds(slot, done + {e}) {
      SwapKeepsSlot(t, t', e, loc, slot, done);
    }
  }

  /** The slot that was swapped gains `e` at the front and the tag of its hash; the others
      do not change. */
  lemma SwapKeepsSlot(t: Table, t': Table, e: Word, loc: Word, slot: nat, done: set<Word>)
    requires t.Holds(done) && t.Stores({e}) && slot < |t.dir| && e !in done
    requires t.dir[t.Slot(t.heap[e].hash)] == loc
    requires t.heap[e].next == Ptr(loc)
    requires t' == t.(dir := t.dir[t.Slot(t.heap[e].hash) := Update(loc, e, t.heap[e].hash)])
    ensures t'.Stores(done + {e}) && t'.SlotHolds(slot, done + {e})
  {
    var hash := t.heap[e].hash;
    assert t.SlotHolds(slot, done);
    if slot == t.Slot(hash) {
      UpdatePoints(loc, e, hash);
      var c := Chain(t.heap, Ptr(loc));
      assert ([e] + c)[1..] == c;
      assert IsChain(t.heap, e, [e] + c);
      ChainUnique(t.heap, e, [e] + c, Chain(t.heap, e));
      forall g: Hash
        ensures Tagged(t'.dir[slot], g) <==> t'.Witnessed(done + {e}, slot, g)
      {
        UpdateTags(loc, e, hash, g);
        assert Tagged(loc, g) <==> t.Witnessed(done, slot, g);
        WitnessedPlus(t, t', done, e, slot, g);
      }
    } else {
      forall g: Hash
        ensures Tagged(t'.dir[slot], g) <==> t'.Witnessed(done + {e}, slot, g)
      {
        WitnessedPlus(t, t', done, e, slot, g);
      }
    }
  }

  lemma WitnessedPlus(t: Table, t': Table, done: set<Word>, e: Word, slot: nat, g: Hash)
    requires t.HasDirectory() && t'.HasDirectory() && |t'.dir| == |t.dir|
    requires t.Stores(done) && t.Stores({e}) && t'.heap == t.heap
    ensures t'.Witnessed(done + {e}, slot, g)
            <==> t.Witnessed(done, slot, g)
                 || (t.Slot(t.heap[e].hash) == slot && Tag(t.heap[e].hash) == Tag(g))
  {
  }

  lemma StepKeeps(s: State, s': State, i: nat, work: set<Word>)
    requires Inv(s, work) && Step(s, s', i)
    ensures Inv(s', work)
  {
    if LoadStep(s, s', i) || FailedSwapStep(s, s', i) {
      QuietStep(s, s', i, work);
    } else if LinkStep(s, s', i) {
      LinkKeeps(s, s', i, work);
    } else {
      SwapKeeps(s, s', i, work);
    }
  }

  // ---------------------------------------------------------------- theorems

  /** At every moment of every interleaving the table holds exactly the entries inserted
      so far: chains are acyclic and complete, filters are exact. */
  lemma {:induction false} EveryRunHolds(trace: seq<State>, work: set<Word>, k: nat)
    requires Run(trace, work) && k < |trace|
    ensures Inv(trace[k], work)
    ensures trace[k].ht.Holds(work - trace[k].Pending())
  {
    if k == 0 {
      InitInv(trace[0], work);
    } else {
      EveryRunHolds(trace, work, k - 1);
      var i: nat :| Step(trace[k - 1], trace[k], i);
      StepKeeps(trace[k - 1], trace[k], i, work);
    }
  }

  /** After the build phase a lookup misses nothing: the chain it returns for a hash
      contains every inserted entry with that hash, and only inserted entries, each once. */
  lemma BuildThenFind(trace: seq<State>, work: set<Word>, hash: Hash)
    requires Run(trace, work) && trace[|trace| - 1].Finished()
    ensures var t := trace[|trace| - 1].ht;
            && t.Holds(work)
            && Finite(t.heap, t.FindChainTagged(hash))
            && var c := Chain(t.heap, t.FindChainTagged(hash));
            && NoDuplicates(c)
            && (forall e :: e in c ==> e in work)
            && (forall e :: e in work && t.heap[e].hash == hash ==> e in c)
  {
    var last := trace[|trace| - 1];
    EveryRunHolds(trace, work, |trace| - 1);
    assert last.Pending() == {};
    assert work - last.Pending() == work;
    FindIsComplete(last.ht, work, hash);
  }
}
