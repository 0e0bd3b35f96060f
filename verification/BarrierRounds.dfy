/** What the barrier guarantees over any number of rounds. */
module BarrierRounds {
  import opened Barriers
  import opened BarrierReturns

  /** No barrier is ahead of the finalizer. */
  lemma {:induction false} RoundsBehind(c: Tree, s: State, b: int)
    requires Inv(c, s) && c.Inner(b)
    ensures s.rounds[b] <= s.finalized
    decreases |c.parent| - b
  {
    hide ThreadsOk, TokenOk, BarriersOk;
    if b == c.Root() {
    } else {
      var p := c.parent[b];
      assert b in c.Children(p);
      RoundsBehind(c, s, p);
      assert NestingOk(c, s, b) && AgentOk(c, s, b);
    }
  }

  /** No agent is behind the finalizer. */
  lemma {:induction false} ArrivalsAhead(c: Tree, s: State, u: int)
    requires Inv(c, s) && c.Agent(u)
    ensures s.finalized <= s.arrivals[u]
    decreases |c.parent| - u
  {
    hide ThreadsOk, TokenOk;
    var b := c.parent[u];
    assert u in c.Children(b);
    assert c.Child(u, b);
    assert BarrierOk(c, s, b) && AgentOk(c, s, u);
    if b == c.Root() {
    } else {
      ArrivalsAhead(c, s, b);
      assert NestingOk(c, s, b);
    }
  }

  /** Between one thread's arrival and its return the finalizer runs exactly once: at every moment
      of every run, each thread has arrived at least as often as the finalizer has run, has
      returned at most as often, and has at most one wait open. */
  lemma FinalizerOncePerRound(c: Tree, trace: seq<State>, k: nat, t: int)
    requires c.WellFormed() && Run(c, trace) && k < |trace| && c.Thread(t)
    ensures trace[k].returned[t] <= trace[k].finalized <= trace[k].arrivals[t] <= trace[k].returned[t] + 1
  {
    RunKeeps(c, trace);
    var s := trace[k];
    assert Inv(c, s);
    assert t in c.Children(c.parent[t]);
    RoundsBehind(c, s, c.parent[t]);
    ArrivalsAhead(c, s, t);
    assert AgentOk(c, s, t) && ThreadOk(c, s, t);
  }

  /** Whoever acts for an agent that has arrived has not returned. */
  lemma {:induction false} Unreturned(c: Tree, s: State, u: int) returns (t: int)
    requires Inv(c, s) && c.Agent(u) && Arrived(s.pc[u])
    ensures c.Thread(t) && s.returned[t] + 1 == s.arrivals[u]
    decreases u
  {
    hide TokenOk, RootOk;
    if c.Thread(u) {
      assert ThreadOk(c, s, u);
      t := u;
    } else {
      assert NestingOk(c, s, u) && BarrierOk(c, s, u);
      var w :| c.Child(w, u) && (s.pc[w] == Finalize || s.pc[w].Inc?);
      assert AgentOk(c, s, w);
      t := Unreturned(c, s, w);
    }
  }

  /** Exactly one thread gets true from each wait: the k-th true is got from the k-th wait, and
      once all threads have returned from it, it has been got. */
  lemma OneWinnerPerRound(c: Tree, trace: seq<State>, k: nat, n: nat)
    requires c.WellFormed() && Run(c, trace) && k < |trace|
    ensures forall i :: 0 <= i < |trace[k].wins| ==> trace[k].wins[i].wait == i
    ensures (forall t :: c.Thread(t) ==> n < trace[k].returned[t]) ==> n < |trace[k].wins|
  {
    RunKeeps(c, trace);
    var s := trace[k];
    assert Inv(c, s);
    if (forall t :: c.Thread(t) ==> n < s.returned[t]) && |s.wins| <= n {
      assert c.Thread(0);
      FinalizerOncePerRound(c, trace, k, 0);
      var h :| c.Agent(h) && Carries(s.pc[h]);
      var t := Unreturned(c, s, h);
      assert false;
    }
  }

  ghost predicate CanStep(c: Tree, s: State, v: int)
    requires c.WellFormed() && Sized(c, s)
  {
    exists s' :: Sized(c, s') && Step(c, s, s', v)
  }

  lemma Enabled(c: Tree, s: State, v: int)
    requires c.WellFormed() && Sized(c, s) && c.Agent(v)
    requires match s.pc[v]
      case Idle => c.Thread(v)
      case Spin(prev) => s.round[c.parent[v]] != prev
      case Finalize => c.parent[v] == c.Root()
      case Done(_) => c.Thread(v)
      case _ => true
    ensures CanStep(c, s, v)
  {
    var b := c.parent[v];
    var s' :=
      match s.pc[v]
      case Idle => s.(pc := s.pc[v := Read])
      case Read => s.(pc := s.pc[v := Sub(s.round[b])])
      case Sub(q) =>
        var prev := s.cntr[b];
        s.(cntr := s.cntr[b := (if prev == 0 then WORD else prev) - 1],
           pc := s.pc[v := if prev == 1 then Reset else Spin(q)],
           arrivals := s.arrivals[v := s.arrivals[v] + 1])
      case Spin(_) => s.(pc := s.pc[v := Done(false)])
      case Reset =>
        var pc := s.pc[v := Finalize];
        s.(cntr := s.cntr[b := c.threadCount[b]], pc := if b == c.Root() then pc else pc[b := Read])
      case Finalize => s.(pc := s.pc[v := Inc(true)], finalized := s.finalized + 1)
      case Inc(r) => s.(round := s.round[b := (s.round[b] + 1) % 256], pc := s.pc[v := Done(r)],
                        rounds := s.rounds[b := s.rounds[b] + 1])
      case Done(r) => s.(pc := s.pc[v := Idle], returned := s.returned[v := s.returned[v] + 1],
                         wins := if r then s.wins + [Win(v, s.returned[v])] else s.wins);
    assert Step(c, s, s', v);
  }

  lemma EnabledReturn(c: Tree, s: State, v: int, w: int)
    requires c.WellFormed() && Sized(c, s) && c.Agent(v) && s.pc[v].Done? && c.Child(w, v) && s.pc[w] == Finalize
    ensures CanStep(c, s, v)
  {
    var s' := s.(pc := s.pc[v := Idle][w := Inc(s.pc[v].r)]);
    assert DoReturnTo(c, s, s', v, w);
    assert Step(c, s, s', v);
  }

  ghost predicate Moves(c: Tree, s: State)
    requires c.WellFormed() && Sized(c, s)
  {
    exists v :: c.Agent(v) && CanStep(c, s, v)
  }

  /** Unless somebody can step, every agent has arrived and waits. */
  lemma {:induction false} Blocked(c: Tree, s: State, v: int)
    requires Inv(c, s) && c.Agent(v)
    requires forall t :: c.Thread(t) ==> s.pc[t] != Idle
    ensures Moves(c, s) || s.pc[v].Spin? || (s.pc[v] == Finalize && c.parent[v] != c.Root())
    ensures Moves(c, s) || (s.pc[v].Spin? ==> s.arrivals[v] == s.rounds[c.parent[v]] + 1)
    decreases v
  {
    hide ThreadsOk, TokenOk, RootOk, CanStep;
    if !CanStep(c, s, v) {
      var p := c.parent[v];
      assert v in c.Children(p);
      assert BarrierOk(c, s, p) && AgentOk(c, s, v);
      if c.Thread(v) {
        BlockedPc(c, s, v);
      } else {
        var w := BlockedChild(c, s, v);
        if !Moves(c, s) {
          assert NestingOk(c, s, v);
          if s.pc[v].Done? { EnabledReturn(c, s, v, w); }
          BlockedPc(c, s, v);
        }
      }
    }
  }

  lemma BlockedPc(c: Tree, s: State, v: int)
    requires c.WellFormed() && Sized(c, s) && c.Agent(v) && !CanStep(c, s, v)
    requires s.pc[v] != Idle && (s.pc[v].Done? ==> c.Thread(v))
    ensures (s.pc[v].Spin? && s.round[c.parent[v]] == s.pc[v].prev) || (s.pc[v] == Finalize && c.parent[v] != c.Root())
  {
    hide CanStep;
    if !(s.pc[v].Spin? && s.round[c.parent[v]] == s.pc[v].prev) && !(s.pc[v] == Finalize && c.parent[v] != c.Root()) {
      Enabled(c, s, v);
    }
  }

  /** Not all children of a barrier can be spinning: the counter reaches zero for one of them. */
  lemma {:induction false} BlockedChild(c: Tree, s: State, b: int) returns (w: int)
    requires Inv(c, s) && c.Inner(b)
    requires forall t :: c.Thread(t) ==> s.pc[t] != Idle
    ensures Moves(c, s) || (c.Child(w, b) && s.pc[w] == Finalize && b != c.Root())
    decreases b, 0
  {
    hide ThreadsOk, TokenOk, RootOk, CanStep, Moves;
    forall v | c.Child(v, b)
      ensures Moves(c, s) || s.pc[v].Spin? || (s.pc[v] == Finalize && b != c.Root())
      ensures Moves(c, s) || (s.pc[v].Spin? ==> s.arrivals[v] == s.rounds[b] + 1) {
      Blocked(c, s, v);
    }
    assert BarrierOk(c, s, b);
    if Moves(c, s) {
      w := 0;
    } else if NoLast(c, s, b) {
      w := 0;
      assert false;
    } else {
      w :| c.Child(w, b) && Last(s.pc[w]);
    }
  }

  lemma SomebodyMoves(c: Tree, s: State)
    requires Inv(c, s) && forall t :: c.Thread(t) ==> s.pc[t] != Idle
    ensures Moves(c, s)
  {
    hide Moves;
    var last := c.Root() - 1;
    assert c.Agent(last) && last in c.Children(c.Root());
    var _ := BlockedChild(c, s, c.Root());
  }

  /** Whenever every thread is inside wait, some agent can take a step other than spinning once
      more, whatever the 8-bit rounds have wrapped around to. */
  lemma NoDeadlock(c: Tree, trace: seq<State>, k: nat)
    requires c.WellFormed() && Run(c, trace) && k < |trace|
    requires forall t :: c.Thread(t) ==> trace[k].pc[t] != Idle
    ensures exists v :: c.Agent(v) && CanStep(c, trace[k], v)
  {
    RunKeeps(c, trace);
    SomebodyMoves(c, trace[k]);
  }
}
