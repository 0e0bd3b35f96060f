/** GlobalPool::allocate as a protocol: any number of threads, each atomic load, store and
    compare-and-swap a step of its own, refills under a lock, and new chunks published in
    either order depending on their address. */
module GlobalPool {

  /** sizeof(Chunk): the header in front of the memory a chunk hands out. */
  const HEADER: nat := 16

  /** Memory obtained for a chunk: its header starts at base, it hands out [start, end). */
  datatype Chunk = Chunk(base: nat, size: nat) {
    function Start(): nat { base + HEADER }
    function End(): nat { base + HEADER + size }
  }

  /** Program points of GlobalPool::allocate. */
  datatype Pc =
    | Idle
    | LoadStart          // start_ = start.load()
    | LoadEnd            // end_ = end.load(); test
    | Lock               // lock_guard
    | ReloadStart        // recheck under the lock
    | ReloadEnd
    | DrainLoad          // do { end_ = end.load();
    | DrainSwap          // } while (!start.compare_exchange_weak(start_, end_))
    | NewChunk           // allocSize = max(..); newChunk(allocSize)
    | PublishFirst       // the first of the two stores
    | PublishSecond      // the second, current = chunk, unlock
    | Swap               // start.compare_exchange_weak(start_, start_ + size)

  datatype Thread = Thread(pc: Pc, size: nat, s: nat, e: nat, chunk: nat, epoch: nat)

  /** `chunks` lists all chunks ever obtained, `granted` all ranges returned so far. `chunks` and
      the epochs (the number of the chunk a local start pointer was read from) only record
      history; no step decides anything by them. */
  datatype Grant = Grant(start: nat, size: nat, epoch: nat)

  datatype State = State(
    start: nat, end: nat,
    current: nat, allocSize: nat,
    holder: int,
    threads: seq<Thread>,
    chunks: seq<Chunk>, epoch: nat, granted: seq<Grant>)

  const INITIAL_SIZE: nat := 128 * 1024 * 1024

  ghost predicate Init(s: State) {
    && |s.chunks| == 1 && s.epoch == 0
    && s.chunks[0].size == INITIAL_SIZE
    && s.start == s.chunks[0].Start() && s.end == s.chunks[0].End()
    && s.current == s.chunks[0].base && s.allocSize == INITIAL_SIZE
    && s.holder == -1 && s.granted == []
    && forall t :: 0 <= t < |s.threads| ==> s.threads[t].pc == Idle
  }

  function Set(s: State, t: nat, th: Thread): State
    requires t < |s.threads|
  {
    s.(threads := s.threads[t := th])
  }

  function Max(a: nat, b: nat): nat { if a < b then b else a }

  /** Memory of a new chunk does not overlap memory in use. */
  ghost predicate Fresh(c: Chunk, chunks: seq<Chunk>) {
    c.base > 0 && forall i :: 0 <= i < |chunks| ==> c.End() <= chunks[i].base || chunks[i].End() <= c.base
  }

  // ------------------------------------------------------------------ steps

  ghost predicate Call(s: State, s': State, t: nat, size: nat)
    requires t < |s.threads|
  {
    && s.threads[t].pc == Idle
    && s' == Set(s, t, s.threads[t].(pc := LoadStart, size := size))
  }

  ghost predicate DoLoadStart(s: State, s': State, t: nat)
    requires t < |s.threads|
  {
    && s.threads[t].pc == LoadStart
    && s' == Set(s, t, s.threads[t].(pc := LoadEnd, s := s.start, epoch := s.epoch))
  }

  ghost predicate DoLoadEnd(s: State, s': State, t: nat)
    requires t < |s.threads|
  {
    var th := s.threads[t].(e := s.end);
    && s.threads[t].pc == LoadEnd
    && s' == Set(s, t, th.(pc := if th.s + th.size >= th.e then Lock else Swap))
  }

  ghost predicate DoLock(s: State, s': State, t: nat)
    requires t < |s.threads|
  {
    && s.threads[t].pc == Lock && s.holder == -1
    && s' == Set(s, t, s.threads[t].(pc := ReloadStart)).(holder := t)
  }

  ghost predicate DoReloadStart(s: State, s': State, t: nat)
    requires t < |s.threads|
  {
    && s.threads[t].pc == ReloadStart
    && s' == Set(s, t, s.threads[t].(pc := ReloadEnd, s := s.start, epoch := s.epoch))
  }

  /** Enough space after all: leave the lock and restart. */
  ghost predicate DoReloadEnd(s: State, s': State, t: nat)
    requires t < |s.threads|
  {
    var th := s.threads[t].(e := s.end);
    && s.threads[t].pc == ReloadEnd
    && s' == if th.s + th.size >= th.e then Set(s, t, th.(pc := DrainLoad))
             else Set(s, t, th.(pc := LoadStart)).(holder := -1)
  }

  ghost predicate DoDrainLoad(s: State, s': State, t: nat)
    requires t < |s.threads|
  {
    && s.threads[t].pc == DrainLoad
    && s' == Set(s, t, s.threads[t].(pc := DrainSwap, e := s.end))
  }

  ghost predicate DoDrainSwap(s: State, s': State, t: nat)
    requires t < |s.threads|
  {
    && s.threads[t].pc == DrainSwap
    && s.start == s.threads[t].s
    && s' == Set(s, t, s.threads[t].(pc := NewChunk)).(start := s.threads[t].e)
  }

  /** compare_exchange_weak failed, because of a change or for no reason; it loads start. */
  ghost predicate DoDrainRetry(s: State, s': State, t: nat)
    requires t < |s.threads|
  {
    && s.threads[t].pc == DrainSwap
    && s' == Set(s, t, s.threads[t].(pc := DrainLoad, s := s.start, epoch := s.epoch))
  }

  ghost predicate DoNewChunk(s: State, s': State, t: nat, c: Chunk)
    requires t < |s.threads|
  {
    var th := s.threads[t];
    var allocSize := Max(s.allocSize * 2, th.size);
    && th.pc == NewChunk
    && c.size == allocSize && Fresh(c, s.chunks)
    && s' == Set(s, t, th.(pc := PublishFirst, chunk := c.base, s := c.Start(), e := c.End(), epoch := |s.chunks|))
             .(allocSize := allocSize, chunks := s.chunks + [c])
  }

  /** chunk < current: end first; otherwise start first. */
  ghost predicate DoPublishFirst(s: State, s': State, t: nat)
    requires t < |s.threads|
  {
    var th := s.threads[t];
    && th.pc == PublishFirst
    && s' == if th.chunk < s.current
             then Set(s, t, th.(pc := PublishSecond)).(end := th.e)
             else Set(s, t, th.(pc := PublishSecond)).(start := th.s, epoch := th.epoch)
  }

  ghost predicate DoPublishSecond(s: State, s': State, t: nat)
    requires t < |s.threads|
  {
    var th := s.threads[t];
    && th.pc == PublishSecond
    && s' == (if th.chunk < s.current
              then Set(s, t, th.(pc := Swap)).(start := th.s, epoch := th.epoch)
              else Set(s, t, th.(pc := Swap)).(end := th.e))
             .(current := th.chunk, holder := -1)
  }

  /** The swap that hands out memory. */
  ghost predicate DoSwap(s: State, s': State, t: nat)
    requires t < |s.threads|
  {
    var th := s.threads[t];
    && th.pc == Swap && s.start == th.s
    && s' == Set(s, t, th.(pc := Idle)).(start := th.s + th.size,
                                         granted := s.granted + [Grant(th.s, th.size, s.epoch)])
  }

  ghost predicate DoSwapRetry(s: State, s': State, t: nat)
    requires t < |s.threads|
  {
    && s.threads[t].pc == Swap
    && s' == Set(s, t, s.threads[t].(pc := LoadStart))
  }

  ghost predicate Step(s: State, s': State, t: nat) {
    t < |s.threads| &&
    ( || (exists size: nat :: Call(s, s', t, size))
      || DoLoadStart(s, s', t) || DoLoadEnd(s, s', t)
      || DoLock(s, s', t) || DoReloadStart(s, s', t) || DoReloadEnd(s, s', t)
      || DoDrainLoad(s, s', t) || DoDrainSwap(s, s', t) || DoDrainRetry(s, s', t)
      || (exists c: Chunk :: DoNewChunk(s, s', t, c))
      || DoPublishFirst(s, s', t) || DoPublishSecond(s, s', t)
      || DoSwap(s, s', t) || DoSwapRetry(s, s', t))
  }

  ghost predicate Next(s: State, s': State) {
    exists t: nat :: Step(s, s', t)
  }

  ghost predicate Run(trace: seq<State>) {
    && |trace| > 0 && Init(trace[0])
    && forall k :: 0 <= k < |trace| - 1 ==> Next(trace[k], trace[k + 1])
  }

  // -------------------------------------------------------------- invariant

  predicate Refilling(pc: Pc) {
    || pc == ReloadStart || pc == ReloadEnd || pc == DrainLoad || pc == DrainSwap
    || pc == NewChunk || pc == PublishFirst || pc == PublishSecond
  }

  /** Chunks do not overlap, headers included. */
  ghost predicate Separate(chunks: seq<Chunk>) {
    forall i, j :: 0 <= i < j < |chunks| ==> chunks[i].End() <= chunks[j].base || chunks[j].End() <= chunks[i].base
  }

  ghost predicate Bounds(s: State) {
    && s.epoch < |s.chunks| && s.allocSize > 0
    && Separate(s.chunks)
    && s.chunks[s.epoch].Start() <= s.start <= s.chunks[s.epoch].End()
    && -1 <= s.holder < |s.threads|
    && forall t :: 0 <= t < |s.threads| ==> (Refilling(s.threads[t].pc) <==> t == s.holder)
  }

  /** How far the refill has come determines where start and end point. */
  ghost predicate Phase(s: State)
    requires Bounds(s)
  {
    var cur := s.chunks[s.epoch];
    var last := |s.chunks| - 1;
    var pc := if s.holder == -1 then Idle else s.threads[s.holder].pc;
    if pc == PublishFirst then
      var th := s.threads[s.holder];
      && s.epoch == last - 1 && s.current == cur.base
      && s.start == cur.End() && s.end == cur.End()
      && Carries(th, s.chunks[last], last)
    else if pc == PublishSecond then
      var th := s.threads[s.holder];
      && last > 0 && s.current == s.chunks[last - 1].base
      && Carries(th, s.chunks[last], last)
      && (if th.chunk < s.current then s.epoch == last - 1 && s.start == cur.End() && s.end == s.chunks[last].End()
          else s.epoch == last && s.start == cur.Start() && s.end == s.chunks[last - 1].End())
    else
      && s.epoch == last && s.current == cur.base && s.end == cur.End()
      && (pc == NewChunk ==> s.start == cur.End())
      && (pc == DrainSwap ==> s.threads[s.holder].e == cur.End())
  }

  /** The refilling thread holds the pointers of the chunk it just obtained. */
  ghost predicate Carries(th: Thread, c: Chunk, number: nat) {
    th.chunk == c.base && th.s == c.Start() && th.e == c.End() && th.epoch == number && th.size <= c.size && c.size > 0
  }

  /** A thread's copy of start points into a chunk that start has reached, and not ahead of it. */
  ghost predicate Behind(s: State, th: Thread)
    requires Bounds(s)
  {
    && th.epoch <= s.epoch
    && s.chunks[th.epoch].Start() <= th.s <= s.chunks[th.epoch].End()
    && (th.epoch == s.epoch ==> th.s <= s.start)
  }

  ghost predicate ThreadOk(s: State, t: nat)
    requires Bounds(s) && t < |s.threads|
  {
    var th := s.threads[t];
    && (th.pc == LoadEnd || th.pc == Swap ==> Behind(s, th))
    && (th.pc == Swap && th.epoch == s.epoch && th.s == s.start ==> th.s < s.end && th.s + th.size <= s.end)
  }

  /** Every range handed out lies in one chunk, below start if start is still in that chunk,
      and above the ranges handed out from that chunk before. */
  ghost predicate GrantsOk(s: State)
    requires Bounds(s)
  {
    && (forall i :: 0 <= i < |s.granted| ==> GrantOk(s, s.granted[i]))
    && (forall i, j :: 0 <= i < j < |s.granted| && s.granted[i].epoch == s.granted[j].epoch ==>
          s.granted[i].start + s.granted[i].size <= s.granted[j].start)
  }

  ghost predicate GrantOk(s: State, g: Grant)
    requires Bounds(s)
  {
    && g.epoch <= s.epoch
    && s.chunks[g.epoch].Start() <= g.start && g.start + g.size <= s.chunks[g.epoch].End()
    && (g.epoch == s.epoch ==> g.start + g.size <= s.start)
  }

  ghost predicate Inv(s: State) {
    && Bounds(s) && Phase(s) && GrantsOk(s)
    && forall t :: 0 <= t < |s.threads| ==> ThreadOk(s, t)
  }

  lemma InitInv(s: State)
    requires Init(s)
    ensures Inv(s)
  {
  }

  /** Thread t changes its own fields, the lock, or moves start forward inside the chunk. */
  lemma Local(s: State, s': State, t: nat)
    requires Inv(s) && t < |s.threads| && |s'.threads| == |s.threads|
    requires s' == Set(s, t, s'.threads[t]).(start := s'.start, holder := s'.holder)
    requires s.start <= s'.start <= s.chunks[s.epoch].End()
    requires Bounds(s') && Phase(s') && ThreadOk(s', t)
    ensures Inv(s')
  {
    hide Phase, Separate;
    forall u | 0 <= u < |s'.threads| && u != t ensures ThreadOk(s', u) {
      assert ThreadOk(s, u);
    }
    forall i | 0 <= i < |s'.granted| ensures GrantOk(s', s'.granted[i]) {
      assert GrantOk(s, s.granted[i]);
    }
  }

  /** Chunks hand out memory behind their headers, so a pointer belongs to one chunk only, even
      a pointer to its end. */
  lemma OneChunk(chunks: seq<Chunk>, a: nat, b: nat, p: nat)
    requires Separate(chunks) && a < |chunks| && b < |chunks|
    requires chunks[a].Start() <= p <= chunks[a].End()
    requires chunks[b].Start() <= p <= chunks[b].End()
    ensures a == b
  {
  }

  lemma LoadStartKeeps(s: State, s': State, t: nat)
    requires Inv(s) && t < |s.threads| && DoLoadStart(s, s', t)
    ensures Inv(s')
  {
    Local(s, s', t);
  }

  lemma LoadEndKeeps(s: State, s': State, t: nat)
    requires Inv(s) && t < |s.threads| && DoLoadEnd(s, s', t)
    ensures Inv(s')
  {
    hide Separate, GrantsOk;
    assert ThreadOk(s, t);
    Local(s, s', t);
  }

  lemma LockKeeps(s: State, s': State, t: nat)
    requires Inv(s) && t < |s.threads|
    requires DoLock(s, s', t) || DoReloadStart(s, s', t) || DoReloadEnd(s, s', t)
    ensures Inv(s')
  {
    hide Separate;
    Local(s, s', t);
  }

  lemma DrainKeeps(s: State, s': State, t: nat)
    requires Inv(s) && t < |s.threads|
    requires DoDrainLoad(s, s', t) || DoDrainSwap(s, s', t) || DoDrainRetry(s, s', t)
    ensures Inv(s')
  {
    hide Separate;
    Local(s, s', t);
  }

  lemma CallKeeps(s: State, s': State, t: nat, size: nat)
    requires Inv(s) && t < |s.threads| && (Call(s, s', t, size) || DoSwapRetry(s, s', t))
    ensures Inv(s')
  {
    hide Separate;
    Local(s, s', t);
  }

  lemma NewChunkKeeps(s: State, s': State, t: nat, c: Chunk)
    requires Inv(s) && t < |s.threads| && DoNewChunk(s, s', t, c)
    ensures Inv(s')
  {
    var n := |s.chunks|;
    assert forall i :: 0 <= i < n ==> s'.chunks[i] == s.chunks[i];
    assert s'.chunks[n] == c;
    assert Separate(s'.chunks) by {
      forall i, j | 0 <= i < j < |s'.chunks|
        ensures s'.chunks[i].End() <= s'.chunks[j].base || s'.chunks[j].End() <= s'.chunks[i].base {
      }
    }
    forall u | 0 <= u < |s'.threads| && u != t ensures ThreadOk(s', u) {
      assert ThreadOk(s, u);
    }
    forall i | 0 <= i < |s'.granted| ensures GrantOk(s', s'.granted[i]) {
      assert GrantOk(s, s.granted[i]);
    }
  }

  /** Between the two stores of a refill no thread can swap: start and end then belong to
      different chunks, and end lies below start. */
  lemma NotPublishing(s: State, t: nat)
    requires Inv(s) && t < |s.threads|
    requires s.threads[t].pc == Swap && s.threads[t].epoch == s.epoch && s.threads[t].s == s.start
    ensures s.end == s.chunks[s.epoch].End()
    ensures s.holder != -1 ==> s.threads[s.holder].pc !in {NewChunk, PublishFirst, PublishSecond}
  {
    hide GrantsOk, Behind;
    assert ThreadOk(s, t);
  }

  /** Opening the next chunk: nothing has been loaded from it or handed out of it yet. */
  lemma Opened(s: State, s': State, t: nat)
    requires Inv(s) && t < |s.threads| && |s'.threads| == |s.threads| && Bounds(s')
    requires s'.chunks == s.chunks && s'.granted == s.granted
    requires s'.threads == s.threads[t := s'.threads[t]]
    requires s.epoch < s'.epoch || (s.epoch == s'.epoch && s.start == s'.start)
    requires s.threads[t].pc == PublishFirst || s.threads[t].pc == PublishSecond
    requires Phase(s') && ThreadOk(s', t)
    ensures Inv(s')
  {
    hide Phase, Separate;
    forall u | 0 <= u < |s'.threads| && u != t ensures ThreadOk(s', u) {
      assert ThreadOk(s, u);
      var th := s.threads[u];
      if th.pc == Swap && th.epoch == s.epoch && th.s == s.start {
        NotPublishing(s, u);
      }
    }
    forall i | 0 <= i < |s'.granted| ensures GrantOk(s', s'.granted[i]) {
      assert GrantOk(s, s.granted[i]);
    }
  }

  lemma PublishFirstKeeps(s: State, s': State, t: nat)
    requires Inv(s) && t < |s.threads| && DoPublishFirst(s, s', t)
    ensures Inv(s')
  {
    hide Separate, GrantsOk;
    assert Bounds(s');
    Opened(s, s', t);
  }

  lemma PublishSecondKeeps(s: State, s': State, t: nat)
    requires Inv(s) && t < |s.threads| && DoPublishSecond(s, s', t)
    ensures Inv(s')
  {
    hide Separate, GrantsOk;
    assert Bounds(s');
    Opened(s, s', t);
  }

  /** A successful swap proves that the thread's copy of start is of the current chunk. */
  lemma SwapKeeps(s: State, s': State, t: nat)
    requires Inv(s) && t < |s.threads| && DoSwap(s, s', t)
    ensures Inv(s')
  {
    var th := s.threads[t];
    assert ThreadOk(s, t);
    OneChunk(s.chunks, th.epoch, s.epoch, th.s);
    NotPublishing(s, t);
    SwapGrants(s, s', t);
    hide Separate, GrantsOk;
    forall u | 0 <= u < |s'.threads| && u != t ensures ThreadOk(s', u) {
      assert ThreadOk(s, u);
    }
  }

  lemma SwapGrants(s: State, s': State, t: nat)
    requires Inv(s) && t < |s.threads| && DoSwap(s, s', t) && s.threads[t].epoch == s.epoch
    requires s.end == s.chunks[s.epoch].End()
    ensures Bounds(s') && GrantsOk(s')
  {
    hide Separate;
    assert ThreadOk(s, t);
    forall i | 0 <= i < |s'.granted| ensures GrantOk(s', s'.granted[i]) {
      if i < |s.granted| { assert GrantOk(s, s.granted[i]); }
    }
    forall i, j | 0 <= i < j < |s'.granted| && s'.granted[i].epoch == s'.granted[j].epoch
      ensures s'.granted[i].start + s'.granted[i].size <= s'.granted[j].start {
      assert GrantOk(s, s.granted[i]);
    }
  }

  lemma StepKeeps(s: State, s': State, t: nat)
    requires Inv(s) && Step(s, s', t)
    ensures Inv(s')
  {
    hide Inv, Call, DoLoadStart, DoLoadEnd, DoLock, DoReloadStart, DoReloadEnd, DoDrainLoad, DoDrainSwap,
      DoDrainRetry, DoNewChunk, DoPublishFirst, DoPublishSecond, DoSwap, DoSwapRetry;
    if size: nat :| Call(s, s', t, size) { CallKeeps(s, s', t, size); }
    else if DoSwapRetry(s, s', t) { CallKeeps(s, s', t, 0); }
    else if DoLoadStart(s, s', t) { LoadStartKeeps(s, s', t); }
    else if DoLoadEnd(s, s', t) { LoadEndKeeps(s, s', t); }
    else if DoLock(s, s', t) || DoReloadStart(s, s', t) || DoReloadEnd(s, s', t) { LockKeeps(s, s', t); }
    else if DoDrainLoad(s, s', t) || DoDrainSwap(s, s', t) || DoDrainRetry(s, s', t) { DrainKeeps(s, s', t); }
    else if c: Chunk :| DoNewChunk(s, s', t, c) { NewChunkKeeps(s, s', t, c); }
    else if DoPublishFirst(s, s', t) { PublishFirstKeeps(s, s', t); }
    else if DoPublishSecond(s, s', t) { PublishSecondKeeps(s, s', t); }
    else { SwapKeeps(s, s', t); }
  }

  lemma {:induction false} RunKeeps(trace: seq<State>)
    requires Run(trace)
    ensures forall k :: 0 <= k < |trace| ==> Inv(trace[k])
  {
    hide Inv, Init, Step;
    if |trace| == 1 {
      InitInv(trace[0]);
    } else {
      var n := |trace| - 1;
      assert Run(trace[..n]);
      RunKeeps(trace[..n]);
      assert Next(trace[n - 1], trace[n - 1 + 1]);
      var t: nat :| Step(trace[n - 1], trace[n], t);
      assert Inv(trace[..n][n - 1]);
      StepKeeps(trace[n - 1], trace[n], t);
      forall k | 0 <= k < |trace| ensures Inv(trace[k]) {
        if k < n { assert trace[k] == trace[..n][k]; }
      }
    }
  }

  /** Two ranges share no byte. */
  predicate Disjoint(a: Grant, b: Grant) {
    a.start + a.size <= b.start || b.start + b.size <= a.start
  }

  /** Over every interleaving of any number of threads, with every possible placement of the new
      chunks and any compare-and-swap failing at any time: each range handed out lies inside the
      memory of one chunk, behind its header, and no two ranges overlap. */
  lemma AllocationsDisjoint(trace: seq<State>, k: nat)
    requires Run(trace) && k < |trace|
    ensures forall i :: 0 <= i < |trace[k].granted| ==>
      exists c :: c in trace[k].chunks && c.Start() <= trace[k].granted[i].start
                  && trace[k].granted[i].start + trace[k].granted[i].size <= c.End()
    ensures forall i, j :: 0 <= i < j < |trace[k].granted| ==> Disjoint(trace[k].granted[i], trace[k].granted[j])
  {
    RunKeeps(trace);
    var s := trace[k];
    assert Inv(s);
    forall i | 0 <= i < |s.granted|
      ensures exists c :: c in s.chunks && c.Start() <= s.granted[i].start
                          && s.granted[i].start + s.granted[i].size <= c.End() {
      assert GrantOk(s, s.granted[i]);
      assert s.chunks[s.granted[i].epoch] in s.chunks;
    }
    forall i, j | 0 <= i < j < |s.granted| ensures Disjoint(s.granted[i], s.granted[j]) {
      assert GrantOk(s, s.granted[i]) && GrantOk(s, s.granted[j]);
    }
  }
}
