/** Scan::next: workers share one table, each taking chunks of consecutive vectors from a
    common counter. */
module Scans {

  /** vecSize tuples make a vector, chunkSize vectors a chunk. */
  datatype Plan = Plan(nrTuples: nat, vecSize: nat, chunkSize: nat) {
    ghost predicate Valid() { vecSize > 0 && chunkSize > 0 }

    /** First tuple of a vector. */
    function Begin(chunk: nat, vec: nat): nat { (chunk * chunkSize + vec) * vecSize }
  }

  const MORSEL_SIZE: nat := 1024 * 10

  function ChunkSizeFor(vecSize: nat): nat
    requires vecSize > 0
  {
    if vecSize < MORSEL_SIZE then MORSEL_SIZE / vecSize + 1 else 1
  }

  /** What a Scan object remembers between calls. */
  datatype Local = Local(needsInit: bool, vecInChunk: nat, currentChunk: nat, lastOffset: nat)

  function Start(p: Plan): Local { Local(true, p.chunkSize, 0, 0) }

  /** A call finds the shared counter at `pos` (if it looks at it at all). */
  ghost predicate Callable(p: Plan, l: Local, pos: nat) {
    p.Valid() && l.vecInChunk <= p.chunkSize && if l.needsInit then l.currentChunk <= pos else l.currentChunk < pos
  }

  function Min(a: nat, b: nat): nat { if a < b then a else b }

  datatype Answer = Answer(local: Local, pos: nat, count: nat)

  const EndOfStream: nat := 0

  /** How many vectors a call moves on. */
  function Steps(p: Plan, l: Local, pos: nat): nat
    requires Callable(p, l, pos)
  {
    if l.vecInChunk < p.chunkSize then 1
    else if l.needsInit then Times(pos - l.currentChunk, p.chunkSize)
    else Times(pos - l.currentChunk - 1, p.chunkSize) + 1
  }

  function Times(a: nat, b: nat): nat { a * b }

  /** One call, given the local state and the value of the shared counter. */
  function NextOf(p: Plan, l: Local, pos: nat): Answer
    requires Callable(p, l, pos)
  {
    var claims := l.vecInChunk == p.chunkSize;
    var l' := if claims then Local(false, 0, pos, l.lastOffset) else l;
    var pos' := if claims then pos + 1 else pos;
    var nextBegin := l.lastOffset + Times(Steps(p, l, pos), p.vecSize);
    if nextBegin >= p.nrTuples then Answer(l', pos', EndOfStream)
    else Answer(l'.(lastOffset := nextBegin, vecInChunk := l'.vecInChunk + 1), pos',
                Min(p.nrTuples - nextBegin, p.vecSize))
  }

  // ---------------------------------------------------------------- object

  class Shared {
    var pos: nat
    constructor ()
      ensures pos == 0
    {
      pos := 0;
    }
  }

  /** A column pointer variable (its place in `columns`) and the distance of a vector in it. */
  datatype Consumer = Consumer(column: nat, stride: nat)

  class Scan {
    const shared: Shared
    const nrTuples: nat
    const vecSize: nat
    const scanChunkSize: nat
    var needsInit: bool
    var vecInChunk: nat
    var currentChunk: nat
    var lastOffset: nat
    var consumers: seq<Consumer>
    /** The column pointers of the plan, as addresses. */
    const columns: array<int>

    /** What each consumer's pointer was before the scan moved it, and its value size. */
    ghost var base: seq<int>
    ghost var typeSize: seq<nat>

    constructor (s: Shared, n: nat, v: nat, columns: array<int>)
      requires v > 0
      ensures Valid() && State() == Start(Settings()) && Settings() == Plan(n, v, ChunkSizeFor(v))
      ensures shared == s && this.columns == columns && consumers == []
    {
      shared, needsInit, currentChunk, lastOffset, nrTuples, vecSize := s, true, 0, 0, n, v;
      scanChunkSize, vecInChunk := ChunkSizeFor(v), ChunkSizeFor(v);
      this.columns, consumers, base, typeSize := columns, [], [], [];
    }

    function Settings(): Plan { Plan(nrTuples, vecSize, scanChunkSize) }

    function State(): Local
      reads this
    {
      Local(needsInit, vecInChunk, currentChunk, lastOffset)
    }

    /** Every registered pointer stands at its base plus lastOffset values. */
    ghost predicate Aligned(upTo: nat, offset: nat)
      reads this`consumers, this`base, this`typeSize, columns
      requires upTo <= |consumers| == |base| == |typeSize|
    {
      forall k :: 0 <= k < upTo ==>
        && consumers[k].column < columns.Length
        && columns[consumers[k].column] == base[k] + Times(offset, typeSize[k])
    }

    ghost predicate Wired()
      reads this`consumers, this`base, this`typeSize
    {
      && |consumers| == |base| == |typeSize|
      && (forall k :: 0 <= k < |consumers| ==>
            consumers[k].column < columns.Length && consumers[k].stride == Times(vecSize, typeSize[k]))
      && (forall k, m :: 0 <= k < m < |consumers| ==> consumers[k].column != consumers[m].column)
    }

    ghost predicate Valid()
      reads this, columns
    {
      && Settings().Valid() && vecInChunk <= scanChunkSize
      && Wired() && Aligned(|consumers|, lastOffset)
    }

    method AddConsumer(column: nat, size: nat)
      requires Valid() && column < columns.Length
      requires forall k :: 0 <= k < |consumers| ==> consumers[k].column != column
      modifies this`consumers, this`base, this`typeSize
      ensures Valid()
      ensures consumers == old(consumers) + [Consumer(column, Times(vecSize, size))]
      ensures base == old(base) + [columns[column] - Times(lastOffset, size)]
      ensures typeSize == old(typeSize) + [size]
    {
      consumers := consumers + [Consumer(column, Times(vecSize, size))];
      base := base + [columns[column] - Times(lastOffset, size)];
      typeSize := typeSize + [size];
    }

    /** Moves the pointer of one consumer on by `step` vectors. */
    method AdvanceOne(k: nat, step: nat, ghost offset: nat)
      requires Wired() && k < |consumers| && offset == lastOffset + Times(step, vecSize)
      requires columns[consumers[k].column] == base[k] + Times(lastOffset, typeSize[k])
      modifies columns
      ensures columns[consumers[k].column] == base[k] + Times(offset, typeSize[k])
      ensures forall m :: 0 <= m < |consumers| && m != k ==>
        columns[consumers[m].column] == old(columns[consumers[m].column])
    {
      hide Times;
      var c := consumers[k];
      Distribute(lastOffset, step, vecSize, typeSize[k]);
      columns[c.column] := columns[c.column] + Times(step, c.stride);
    }

    /** Moves the pointers of all consumers on by `step` vectors. */
    method Advance(step: nat, ghost offset: nat)
      requires Wired() && Aligned(|consumers|, lastOffset)
      requires offset == lastOffset + Times(step, vecSize)
      modifies columns
      ensures Aligned(|consumers|, offset)
    {
      hide Times;
      var k := 0;
      while k < |consumers|
        invariant k <= |consumers|
        invariant Aligned(k, offset)
        invariant forall m :: k <= m < |consumers| ==>
          columns[consumers[m].column] == base[m] + Times(lastOffset, typeSize[m])
      {
        AdvanceOne(k, step, offset);
        k := k + 1;
      }
    }

    /** The counter is shared: all that is known of it is that it has moved past the chunk taken
        last. After every call, whatever it returns, the pointers and lastOffset agree. */
    method Next() returns (count: nat)
      requires Valid() && Callable(Settings(), State(), shared.pos)
      modifies this`needsInit, this`vecInChunk, this`currentChunk, this`lastOffset, shared, columns
      ensures Valid() && shared.pos == old(NextOf(Settings(), State(), shared.pos).pos)
      ensures State() == old(NextOf(Settings(), State(), shared.pos).local)
      ensures count == old(NextOf(Settings(), State(), shared.pos).count)
      ensures Aligned(|consumers|, lastOffset)
    {
      hide Aligned, Wired, Times;
      var step: nat := 1;
      if vecInChunk == scanChunkSize {
        var prevChunk := currentChunk;
        currentChunk := shared.pos;
        shared.pos := shared.pos + 1;
        var chunkSkip := currentChunk - prevChunk;
        if needsInit {
          step := Times(chunkSkip, scanChunkSize);
          needsInit := false;
        } else {
          chunkSkip := chunkSkip - 1;
          step := Times(chunkSkip, scanChunkSize) + 1;
        }
        vecInChunk := 0;
      }
      var nextBegin: nat := lastOffset + Times(step, vecSize);
      if nextBegin >= nrTuples {
        return EndOfStream;
      }
      count := Min(nrTuples - nextBegin, vecSize);
      Advance(step, nextBegin);
      lastOffset := nextBegin;
      vecInChunk := vecInChunk + 1;
    }
  }

  lemma Distribute(offset: nat, step: nat, vecSize: nat, size: nat)
    ensures Times(offset, size) + Times(step, Times(vecSize, size)) == Times(offset + Times(step, vecSize), size)
  {
  }

  // -------------------------------------------------- workers and their runs

  /** The tuples a call returned. */
  datatype Range = Range(begin: nat, count: nat) {
    predicate Holds(i: nat) { begin <= i < begin + count }
  }

  datatype Vec = Vec(chunk: nat, vec: nat)

  /** Any number of workers, each with its own Scan over the shared counter. A call reads and
      writes the counter at most once, in one atomic step, so whole calls may be interleaved.
      `done` marks workers that were told EndOfStream; `taken` records who took which chunk and
      `vectors` which vector each returned range is. */
  datatype System = System(
    pos: nat, workers: seq<Local>, done: seq<bool>, log: seq<Range>,
    taken: seq<nat>, vectors: seq<Vec>)

  ghost predicate Init(p: Plan, s: System) {
    && s.pos == 0 && |s.done| == |s.workers| && s.log == [] && s.taken == [] && s.vectors == []
    && (forall w :: 0 <= w < |s.workers| ==> s.workers[w] == Start(p) && !s.done[w])
  }

  /** Worker w calls next; nobody calls next again after EndOfStream. */
  ghost predicate Step(p: Plan, s: System, s': System, w: nat) {
    && w < |s.workers| == |s.done| && !s.done[w]
    && Callable(p, s.workers[w], s.pos)
    && var r := NextOf(p, s.workers[w], s.pos);
       s' == System(
         r.pos,
         s.workers[w := r.local],
         s.done[w := r.count == EndOfStream],
         if r.count == EndOfStream then s.log else s.log + [Range(r.local.lastOffset, r.count)],
         if r.pos == s.pos then s.taken else s.taken + [w],
         if r.count == EndOfStream then s.vectors
         else s.vectors + [Vec(r.local.currentChunk, r.local.vecInChunk - 1)])
  }

  ghost predicate Next(p: Plan, s: System, s': System) {
    exists w: nat :: Step(p, s, s', w)
  }

  ghost predicate Run(p: Plan, trace: seq<System>) {
    && p.Valid() && |trace| > 0 && Init(p, trace[0])
    && forall k :: 0 <= k < |trace| - 1 ==> Next(p, trace[k], trace[k + 1])
  }

  /** Where a worker stands. */
  ghost predicate WorkerOk(p: Plan, s: System, w: nat)
    requires w < |s.workers| == |s.done|
  {
    var l := s.workers[w];
    && l.vecInChunk <= p.chunkSize
    && (l.needsInit ==> l == Start(p) && !s.done[w])
    && (!l.needsInit ==>
          && l.currentChunk < s.pos == |s.taken| && s.taken[l.currentChunk] == w
          && (!s.done[w] ==> l.vecInChunk > 0)
          && (l.vecInChunk > 0 ==> l.lastOffset == p.Begin(l.currentChunk, l.vecInChunk - 1))
          && (s.done[w] ==> p.nrTuples <= p.Begin(l.currentChunk, l.vecInChunk)))
  }

  /** A chunk is finished when its worker has taken a later one. */
  ghost predicate ChunkOk(s: System, c: nat)
    requires c < |s.taken|
  {
    && s.taken[c] < |s.workers|
    && !s.workers[s.taken[c]].needsInit && c <= s.workers[s.taken[c]].currentChunk
  }

  ghost predicate Emitted(p: Plan, s: System, v: Vec) {
    && v.chunk < |s.taken| && v.vec < p.chunkSize
    && s.taken[v.chunk] < |s.workers|
    && (s.workers[s.taken[v.chunk]].currentChunk == v.chunk ==> v.vec < s.workers[s.taken[v.chunk]].vecInChunk)
  }

  ghost predicate InTable(p: Plan, v: Vec) { p.Begin(v.chunk, v.vec) < p.nrTuples }

  ghost predicate LogOk(p: Plan, s: System) {
    && |s.log| == |s.vectors|
    && (forall k :: 0 <= k < |s.vectors| ==>
          && InTable(p, s.vectors[k])
          && s.log[k].begin == p.Begin(s.vectors[k].chunk, s.vectors[k].vec)
          && s.log[k].count == Min(p.nrTuples - s.log[k].begin, p.vecSize))
    && (forall k, m :: 0 <= k < m < |s.vectors| ==> s.vectors[k] != s.vectors[m])
  }

  ghost predicate Inv(p: Plan, s: System) {
    && p.Valid() && |s.workers| == |s.done| && s.pos == |s.taken|
    && (forall w :: 0 <= w < |s.workers| ==> WorkerOk(p, s, w))
    && (forall c :: 0 <= c < |s.taken| ==> ChunkOk(s, c))
    && LogOk(p, s)
    && (forall v :: InTable(p, v) ==> (Emitted(p, s, v) <==> v in s.vectors))
  }

  /** The vector a call looks at is the first of a new chunk, or the next of the chunk at hand. */
  lemma NextVector(p: Plan, s: System, w: nat)
    requires Inv(p, s) && w < |s.workers| && !s.done[w]
    ensures Callable(p, s.workers[w], s.pos)
    ensures var l := s.workers[w];
      l.lastOffset + Times(Steps(p, l, s.pos), p.vecSize) ==
      if l.vecInChunk == p.chunkSize then p.Begin(s.pos, 0) else p.Begin(l.currentChunk, l.vecInChunk)
  {
    assert WorkerOk(p, s, w);
    hide LogOk, Emitted, InTable, ChunkOk, Inv;
    var l := s.workers[w];
    if l.vecInChunk < p.chunkSize {
      assert Times(1, p.vecSize) == p.vecSize;
      SameChunk(p, l.currentChunk, l.vecInChunk);
    } else if l.needsInit {
      assert l.currentChunk == 0 && l.lastOffset == 0;
    } else {
      NextChunk(p, l.currentChunk, s.pos);
    }
  }

  lemma SameChunk(p: Plan, c: nat, v: nat)
    requires v > 0
    ensures p.Begin(c, v - 1) + p.vecSize == p.Begin(c, v)
  {
    Shift(c * p.chunkSize + v - 1, 1, p.vecSize);
  }

  lemma NextChunk(p: Plan, c: nat, d: nat)
    requires c < d && p.chunkSize > 0
    ensures p.Begin(c, p.chunkSize - 1) + Times(Times(d - c - 1, p.chunkSize) + 1, p.vecSize) == p.Begin(d, 0)
  {
    var x, y, z := c * p.chunkSize + p.chunkSize - 1, Times(d - c - 1, p.chunkSize) + 1, d * p.chunkSize;
    SkippedVectors(c, d, p.chunkSize);
    Shift(x, y, p.vecSize);
    assert p.Begin(c, p.chunkSize - 1) == x * p.vecSize && p.Begin(d, 0) == z * p.vecSize;
  }

  lemma SkippedVectors(c: nat, d: nat, size: nat)
    requires c < d
    ensures c * size + size + Times(d - c - 1, size) == d * size
  {
    Shift(c, 1, size);
    Shift(c + 1, d - c - 1, size);
  }

  lemma Shift(a: nat, b: nat, c: nat)
    ensures a * c + b * c == (a + b) * c
  {
  }

  lemma WorkersKeep(p: Plan, s: System, s': System, w: nat)
    requires Inv(p, s) && Step(p, s, s', w)
    ensures forall u :: 0 <= u < |s'.workers| ==> WorkerOk(p, s', u)
    ensures forall c :: 0 <= c < |s'.taken| ==> ChunkOk(s', c)
  {
    hide LogOk, Emitted, InTable, Steps;
    NextVector(p, s, w);
    forall u | 0 <= u < |s'.workers| ensures WorkerOk(p, s', u) {
      assert WorkerOk(p, s, u);
    }
    forall c | 0 <= c < |s'.taken| ensures ChunkOk(s', c) {
      if c < |s.taken| { assert ChunkOk(s, c); }
    }
  }

  /** A call adds the vector it returns to those emitted, and no other. */
  lemma EmittedStep(p: Plan, s: System, s': System, w: nat, v: Vec)
    requires Inv(p, s) && Step(p, s, s', w)
    ensures Emitted(p, s', v) <==>
      Emitted(p, s, v) || (|s'.vectors| > |s.vectors| && v == s'.vectors[|s.vectors|])
  {
    hide LogOk, InTable, Steps;
    assert WorkerOk(p, s, w);
    if v.chunk < |s.taken| { assert ChunkOk(s, v.chunk); }
  }

  lemma LogKeeps(p: Plan, s: System, s': System, w: nat)
    requires Inv(p, s) && Step(p, s, s', w)
    ensures LogOk(p, s')
  {
    hide Emitted, Steps;
    NextVector(p, s, w);
    assert WorkerOk(p, s, w);
    if |s'.vectors| > |s.vectors| {
      var v := s'.vectors[|s.vectors|];
      NotEmitted(p, s, s', w);
      assert InTable(p, v);
    }
  }

  lemma NotEmitted(p: Plan, s: System, s': System, w: nat)
    requires Inv(p, s) && Step(p, s, s', w) && |s'.vectors| > |s.vectors|
    ensures InTable(p, s'.vectors[|s.vectors|]) && s'.vectors[|s.vectors|] !in s.vectors
  {
    hide Steps, LogOk;
    NextVector(p, s, w);
    assert WorkerOk(p, s, w);
  }

  lemma StepKeeps(p: Plan, s: System, s': System, w: nat)
    requires Inv(p, s) && Step(p, s, s', w)
    ensures Inv(p, s')
  {
    WorkersKeep(p, s, s', w);
    LogKeeps(p, s, s', w);
    forall v | InTable(p, v) ensures Emitted(p, s', v) <==> v in s'.vectors {
      EmittedStep(p, s, s', w, v);
    }
  }

  lemma InitInv(p: Plan, s: System)
    requires p.Valid() && Init(p, s)
    ensures Inv(p, s)
  {
  }

  lemma {:induction false} RunKeeps(p: Plan, trace: seq<System>)
    requires Run(p, trace)
    ensures forall k :: 0 <= k < |trace| ==> Inv(p, trace[k])
  {
    hide Inv, Init, Step;
    if |trace| == 1 {
      InitInv(p, trace[0]);
    } else {
      var n := |trace| - 1;
      assert Run(p, trace[..n]);
      RunKeeps(p, trace[..n]);
      assert Next(p, trace[n - 1], trace[n - 1 + 1]);
      var w: nat :| Step(p, trace[n - 1], trace[n], w);
      assert Inv(p, trace[..n][n - 1]);
      StepKeeps(p, trace[n - 1], trace[n], w);
      forall k | 0 <= k < |trace| ensures Inv(p, trace[k]) {
        if k < n { assert trace[k] == trace[..n][k]; }
      }
    }
  }

  // --------------------------------------------------------------- results

  lemma Ordered(p: Plan, a: Vec, b: Vec)
    requires p.Valid() && a.vec < p.chunkSize && b.vec < p.chunkSize
    requires a.chunk < b.chunk || (a.chunk == b.chunk && a.vec < b.vec)
    ensures p.Begin(a.chunk, a.vec) + p.vecSize <= p.Begin(b.chunk, b.vec)
  {
    var x, y := a.chunk * p.chunkSize + a.vec, b.chunk * p.chunkSize + b.vec;
    if a.chunk < b.chunk { Spaced(a.chunk, b.chunk, p.chunkSize); }
    assert x < y;
    Spaced(x, y, p.vecSize);
  }

  lemma Spaced(a: nat, b: nat, c: nat)
    requires a < b
    ensures a * c + c <= b * c
  {
    Shift(a, 1, c);
    Shift(a + 1, b - a - 1, c);
  }

  /** For every number of workers and every interleaving of their calls: the ranges returned so
      far are non-empty, lie in the table, have at most one vector each and do not overlap. */
  lemma RangesDisjoint(p: Plan, trace: seq<System>, k: nat)
    requires Run(p, trace) && k < |trace|
    ensures forall i :: 0 <= i < |trace[k].log| ==>
      var r := trace[k].log[i];
      0 < r.count <= p.vecSize && r.begin + r.count <= p.nrTuples
    ensures forall i, j :: 0 <= i < j < |trace[k].log| ==>
      var a, b := trace[k].log[i], trace[k].log[j];
      a.begin + a.count <= b.begin || b.begin + b.count <= a.begin
  {
    RunKeeps(p, trace);
    var s := trace[k];
    assert Inv(p, s);
    forall i, j | 0 <= i < j < |s.log|
      ensures s.log[i].begin + s.log[i].count <= s.log[j].begin || s.log[j].begin + s.log[j].count <= s.log[i].begin {
      var a, b := s.vectors[i], s.vectors[j];
      assert a in s.vectors && b in s.vectors && InTable(p, a) && InTable(p, b);
      assert Emitted(p, s, a) && Emitted(p, s, b) && a != b;
      if a.chunk < b.chunk || (a.chunk == b.chunk && a.vec < b.vec) { Ordered(p, a, b); } else { Ordered(p, b, a); }
    }
  }

  /** Once every worker has been told EndOfStream, every tuple has been returned. */
  lemma EveryTupleReturned(p: Plan, trace: seq<System>, i: nat)
    requires Run(p, trace) && i < p.nrTuples
    requires var s := trace[|trace| - 1];
      |s.workers| > 0 && forall w :: 0 <= w < |s.done| ==> s.done[w]
    ensures exists r :: r in trace[|trace| - 1].log && r.Holds(i)
  {
    RunKeeps(p, trace);
    var s := trace[|trace| - 1];
    assert Inv(p, s);
    var v := Vec(i / p.vecSize / p.chunkSize, i / p.vecSize % p.chunkSize);
    Locate(p, i, v);
    assert InTable(p, v);
    assert WorkerOk(p, s, 0);
    if v.chunk < |s.taken| {
      assert ChunkOk(s, v.chunk);
      NoneMissing(p, s, v, s.taken[v.chunk]);
    } else {
      var l := s.workers[0];
      NoneMissing(p, s, v, 0);
    }
    assert Emitted(p, s, v);
    var k :| 0 <= k < |s.vectors| && s.vectors[k] == v;
    assert s.log[k] in s.log && s.log[k].Holds(i);
  }

  lemma Locate(p: Plan, i: nat, v: Vec)
    requires p.Valid() && v == Vec(i / p.vecSize / p.chunkSize, i / p.vecSize % p.chunkSize)
    ensures v.vec < p.chunkSize
    ensures p.Begin(v.chunk, v.vec) <= i < p.Begin(v.chunk, v.vec) + p.vecSize
  {
    assert i / p.vecSize == v.chunk * p.chunkSize + v.vec;
  }

  /** A worker that is done has left out no vector of the table in its last chunk, and there is
      no chunk of the table behind it. */
  lemma NoneMissing(p: Plan, s: System, v: Vec, w: nat)
    requires Inv(p, s) && w < |s.workers| && s.done[w]
    requires InTable(p, v) && v.vec < p.chunkSize
    ensures v.chunk <= s.workers[w].currentChunk
    ensures v.chunk == s.workers[w].currentChunk ==> v.vec < s.workers[w].vecInChunk
  {
    assert WorkerOk(p, s, w);
    var l := s.workers[w];
    if v.chunk > l.currentChunk || (v.chunk == l.currentChunk && v.vec >= l.vecInChunk) {
      if l.vecInChunk < p.chunkSize {
        if v != Vec(l.currentChunk, l.vecInChunk) { Ordered(p, Vec(l.currentChunk, l.vecInChunk), v); }
      } else {
        assert p.Begin(l.currentChunk, l.vecInChunk) == p.Begin(l.currentChunk + 1, 0) by {
          Shift(l.currentChunk, 1, p.chunkSize);
        }
        if v != Vec(l.currentChunk + 1, 0) { Ordered(p, Vec(l.currentChunk + 1, 0), v); }
      }
      assert false;
    }
  }
}
