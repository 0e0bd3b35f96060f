/** What the calls of GlobalPool::allocate get, over whole runs: every call that comes back has been granted one
    range of the size it asked for, and nothing else is granted; and nobody waits for ever. */
module PoolGrants {
  import opened GlobalPool

  /** Thread t is inside a call. */
  predicate Inside(s: State, t: nat) {
    t < |s.threads| && s.threads[t].pc != Idle
  }

  /** Thread t comes back from its call with step k. */
  ghost predicate Back(trace: seq<State>, k: nat, t: nat) {
    k + 1 < |trace| && Inside(trace[k], t) && t < |trace[k + 1].threads| && !Inside(trace[k + 1], t)
  }

  /** With step i thread t calls allocate(size). */
  ghost predicate Asks(trace: seq<State>, i: nat, t: nat, size: nat) {
    i + 1 < |trace| && t < |trace[i].threads| && Call(trace[i], trace[i + 1], t, size)
  }

  /** The call with step i is the one that thread t is still in before step k. */
  ghost predicate Since(trace: seq<State>, i: nat, k: nat, t: nat) {
    i < k < |trace| && forall m :: i < m <= k ==> Inside(trace[m], t)
  }

  // ----------------------------------------------------------- single steps

  /** A step moves one thread. What it asked for is kept until it is back, and a range of that size is granted
      exactly when it comes back. */
  lemma StepGrants(s: State, s': State, t: nat)
    requires Step(s, s', t)
    ensures |s'.threads| == |s.threads| && forall u :: 0 <= u < |s.threads| && u != t ==> s'.threads[u] == s.threads[u]
    ensures Inside(s, t) ==> s'.threads[t].size == s.threads[t].size
    ensures Inside(s, t) && !Inside(s', t) ==>
      |s'.granted| == |s.granted| + 1 && s.granted == s'.granted[..|s.granted|]
      && s'.granted[|s.granted|].size == s.threads[t].size
    ensures !Inside(s, t) || Inside(s', t) ==> s'.granted == s.granted
  {
  }

  lemma StepCalls(s: State, s': State, t: nat)
    requires Step(s, s', t) && !Inside(s, t)
    ensures Inside(s', t) && Call(s, s', t, s'.threads[t].size)
  {
  }

  lemma StepAt(trace: seq<State>, k: nat) returns (t: nat)
    requires Run(trace) && k + 1 < |trace|
    ensures Step(trace[k], trace[k + 1], t)
  {
    hide Step;
    assert Next(trace[k], trace[k + 1]);
    t :| Step(trace[k], trace[k + 1], t);
  }

  // --------------------------------------------------------------- whole runs

  /** Whoever is inside a call has called with the size it has in hand. */
  lemma {:induction false} Asked(trace: seq<State>, k: nat, t: nat) returns (i: nat)
    requires Run(trace) && k < |trace| && Inside(trace[k], t)
    ensures Asks(trace, i, t, trace[k].threads[t].size) && Since(trace, i, k, t)
  {
    hide Step, Call;
    if k > 0 {
      var u := StepAt(trace, k - 1);
      StepGrants(trace[k - 1], trace[k], u);
      if Inside(trace[k - 1], t) {
        i := Asked(trace, k - 1, t);
        assert Since(trace, i, k, t);
      } else {
        i := k - 1;
        StepCalls(trace[k - 1], trace[k], u);
      }
    }
  }

  ghost predicate SomebodyBack(trace: seq<State>, k: nat) {
    exists t: nat :: Back(trace, k, t)
  }

  ghost function WhoIsBack(trace: seq<State>, k: nat): (t: nat)
    requires SomebodyBack(trace, k)
    ensures Back(trace, k, t)
  {
    var t: nat :| Back(trace, k, t);
    t
  }

  /** The threads that have come back, in this order, going by where the threads are. */
  ghost function Returns(trace: seq<State>, k: nat): seq<nat>
    requires k < |trace|
  {
    if k == 0 then []
    else
      Returns(trace, k - 1) + if SomebodyBack(trace, k - 1) then [WhoIsBack(trace, k - 1)] else []
  }

  /** At most one thread comes back with a step, and exactly then one range is granted: of the size of its
      call. */
  lemma ReturnGrants(trace: seq<State>, k: nat, t: nat, u: nat)
    requires Run(trace) && Back(trace, k, t) && Back(trace, k, u)
    ensures t == u && |trace[k + 1].granted| == |trace[k].granted| + 1
    ensures trace[k].granted == trace[k + 1].granted[..|trace[k].granted|]
    ensures exists i: nat :: Since(trace, i, k, t) && Asks(trace, i, t, trace[k + 1].granted[|trace[k].granted|].size)
  {
    hide Step, Call;
    var v := StepAt(trace, k);
    StepGrants(trace[k], trace[k + 1], v);
    var i := Asked(trace, k, t);
  }

  lemma NoReturnNoGrant(trace: seq<State>, k: nat)
    requires Run(trace) && k + 1 < |trace| && !SomebodyBack(trace, k)
    ensures trace[k + 1].granted == trace[k].granted
  {
    hide Step;
    var v := StepAt(trace, k);
    StepGrants(trace[k], trace[k + 1], v);
    assert !Back(trace, k, v);
  }

  /** The j-th range granted is what thread t got from the call it made with step i and was back from with
      step m. */
  ghost predicate Served(trace: seq<State>, j: nat, t: nat, i: nat, m: nat, size: nat) {
    Asks(trace, i, t, size) && Since(trace, i, m, t) && Back(trace, m, t) && |trace[m].granted| == j
  }

  ghost predicate ServedBefore(trace: seq<State>, k: nat, j: nat, t: nat, size: nat) {
    exists i: nat, m: nat :: m < k && Served(trace, j, t, i, m, size)
  }

  lemma NothingAtStart(trace: seq<State>)
    requires Run(trace)
    ensures trace[0].granted == []
  {
  }

  /** In every state of every run there are as many grants as calls that have come back, and the j-th grant has
      the size that the j-th of them asked for, by the thread that made it. So a thread has as many grants
      as finished calls. */
  lemma {:induction false} EveryCallIsServed(trace: seq<State>, k: nat)
    requires Run(trace) && k < |trace|
    ensures |trace[k].granted| == |Returns(trace, k)|
    ensures forall j: nat :: j < |Returns(trace, k)| ==>
      ServedBefore(trace, k, j, Returns(trace, k)[j], trace[k].granted[j].size)
  {
    hide Step, Call, Asks, Since, Back, Run;
    NothingAtStart(trace);
    if k > 0 {
      EveryCallIsServed(trace, k - 1);
      var before, was, now := Returns(trace, k - 1), trace[k - 1].granted, trace[k].granted;
      if SomebodyBack(trace, k - 1) {
        var t := WhoIsBack(trace, k - 1);
        ReturnGrants(trace, k - 1, t, t);
        var i: nat :| Since(trace, i, k - 1, t) && Asks(trace, i, t, now[|was|].size);
        assert Served(trace, |was|, t, i, k - 1, now[|was|].size);
        assert ServedBefore(trace, k, |was|, t, now[|was|].size);
        assert Returns(trace, k) == before + [t];
        assert forall j :: 0 <= j < |was| ==> now[j] == was[j];
      } else {
        NoReturnNoGrant(trace, k - 1);
        assert Returns(trace, k) == before;
      }
      forall j: nat | j < |before|
        ensures ServedBefore(trace, k, j, before[j], now[j].size) {
        var i: nat, m: nat :| m < k - 1 && Served(trace, j, before[j], i, m, was[j].size);
      }
    }
  }

  // -------------------------------------------------------------- progress

  /** Behind all these chunks. */
  function Beyond(chunks: seq<Chunk>): (b: nat)
    ensures b > 0 && forall i :: 0 <= i < |chunks| ==> chunks[i].End() <= b
  {
    if chunks == [] then 1
    else Max(Beyond(chunks[..|chunks| - 1]), chunks[|chunks| - 1].End())
  }

  /** What thread t does next, if it need not wait for the lock. */
  lemma CanStep(s: State, t: nat) returns (s': State)
    requires Inside(s, t) && (s.threads[t].pc == Lock ==> s.holder == -1)
    ensures Step(s, s', t)
  {
    var th := s.threads[t];
    match th.pc
    case LoadStart => s' := Set(s, t, th.(pc := LoadEnd, s := s.start, epoch := s.epoch));
    case LoadEnd => s' := Set(s, t, th.(e := s.end, pc := if th.s + th.size >= s.end then Lock else Swap));
    case Lock => s' := Set(s, t, th.(pc := ReloadStart)).(holder := t);
    case ReloadStart => s' := Set(s, t, th.(pc := ReloadEnd, s := s.start, epoch := s.epoch));
    case ReloadEnd =>
      s' := if th.s + th.size >= s.end then Set(s, t, th.(e := s.end, pc := DrainLoad))
            else Set(s, t, th.(e := s.end, pc := LoadStart)).(holder := -1);
    case DrainLoad => s' := Set(s, t, th.(pc := DrainSwap, e := s.end));
    case DrainSwap =>
      s' := if s.start == th.s then Set(s, t, th.(pc := NewChunk)).(start := th.e)
            else Set(s, t, th.(pc := DrainLoad, s := s.start, epoch := s.epoch));
    case NewChunk =>
      var allocSize := Max(s.allocSize * 2, th.size);
      var c := Chunk(Beyond(s.chunks), allocSize);
      s' := Set(s, t, th.(pc := PublishFirst, chunk := c.base, s := c.Start(), e := c.End(), epoch := |s.chunks|))
            .(allocSize := allocSize, chunks := s.chunks + [c]);
      assert DoNewChunk(s, s', t, c);
    case PublishFirst =>
      s' := if th.chunk < s.current then Set(s, t, th.(pc := PublishSecond)).(end := th.e)
            else Set(s, t, th.(pc := PublishSecond)).(start := th.s, epoch := th.epoch);
    case PublishSecond =>
      s' := (if th.chunk < s.current then Set(s, t, th.(pc := Swap)).(start := th.s, epoch := th.epoch)
             else Set(s, t, th.(pc := Swap)).(end := th.e)).(current := th.chunk, holder := -1);
    case Swap =>
      s' := if s.start == th.s
            then Set(s, t, th.(pc := Idle)).(start := th.s + th.size,
                                             granted := s.granted + [Grant(th.s, th.size, s.epoch)])
            else Set(s, t, th.(pc := LoadStart));
  }

  /** While any thread is inside a call, some thread can take a step of its call. */
  lemma SomebodySteps(trace: seq<State>, k: nat, t: nat) returns (u: nat, s': State)
    requires Run(trace) && k < |trace| && Inside(trace[k], t)
    ensures Inside(trace[k], u) && Step(trace[k], s', u)
  {
    hide Step;
    RunKeeps(trace);
    var s := trace[k];
    assert Inv(s);
    u := if s.threads[t].pc == Lock && s.holder != -1 then s.holder else t;
    s' := CanStep(s, u);
  }
}
