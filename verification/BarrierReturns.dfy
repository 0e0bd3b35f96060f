/** Barrier steps of the last to arrive, and the way back; together: every step keeps the invariant. */
module BarrierReturns {
  import opened Barriers
  import opened BarrierArrivals

  // -------------------------------------------------- the last of a barrier

  lemma ResetBarrier(c: Tree, s: State, s': State, v: int)
    requires c.WellFormed() && Sized(c, s) && Sized(c, s') && BarriersOk(c, s) && NestingsOk(c, s)
    requires DoReset(c, s, s', v)
    ensures var p := c.parent[v];
      && c.Inner(p) && BarrierOk(c, s', p)
      && (c.Agent(p) ==> s.pc[p] == Idle && NestingOk(c, s', p))
  {
    hide Awaited;
    var p := c.parent[v];
    assert v in c.Children(p);
    assert BarrierOk(c, s, p) && c.Child(v, p);
    if c.Agent(p) { assert NestingOk(c, s, p); }
  }

  lemma ResetKeeps(c: Tree, s: State, s': State, v: int)
    requires Inv(c, s) && Sized(c, s') && DoReset(c, s, s', v)
    ensures Inv(c, s')
  {
    hide AgentsOk, ThreadsOk, BarriersOk, NestingsOk, BarrierOk, NestingOk, RootOk, TokenOk;
    var p := c.parent[v];
    ResetBarrier(c, s, s', v);
    ResetAgents(c, s, s', v);
    if c.Agent(p) {
      IdleBehind(c, s, p);
      AwaitedMoves(c, s, s', p);
      BarriersSame(c, s, s', p, c.parent[p]);
    } else {
      BarriersSame(c, s, s', p, p);
    }
    NestingsSame(c, s, s', p);
    RestSame(c, s, s');
  }

  lemma IdleBehind(c: Tree, s: State, v: int)
    requires c.WellFormed() && Sized(c, s) && AgentsOk(c, s) && c.Agent(v)
    requires s.pc[v] == Idle || s.pc[v].Done?
    ensures s.arrivals[v] == s.rounds[c.parent[v]]
  {
    assert AgentOk(c, s, v);
  }

  lemma ResetAgents(c: Tree, s: State, s': State, v: int)
    requires c.WellFormed() && Sized(c, s) && Sized(c, s') && AgentsOk(c, s) && ThreadsOk(c, s)
    requires DoReset(c, s, s', v) && (c.Agent(c.parent[v]) ==> s.pc[c.parent[v]] == Idle)
    ensures AgentsOk(c, s') && ThreadsOk(c, s')
  {
    forall u | c.Agent(u) ensures AgentOk(c, s', u) { assert AgentOk(c, s, u); }
    forall u | c.Thread(u) ensures ThreadOk(c, s', u) { assert ThreadOk(c, s, u); }
  }

  /** When the root's finalizer runs, every agent in the tree has arrived for this round and
      waits for it to end. */
  lemma AllWait(c: Tree, s: State, v: int, u: int)
    requires Inv(c, s) && c.Child(v, c.Root()) && s.pc[v] == Finalize && c.Agent(u)
    ensures s.pc[u].Spin? || s.pc[u] == Finalize
    ensures s.arrivals[u] == s.finalized + 1
    decreases |c.parent| - u
  {
    hide ThreadsOk, TokenOk;
    var b := c.parent[u];
    assert u in c.Children(b);
    assert c.Child(u, b);
    assert BarrierOk(c, s, b) && AgentOk(c, s, u);
    if b == c.Root() {
    } else {
      AllWait(c, s, v, b);
      assert NestingOk(c, s, b);
      var w :| c.Child(w, b) && (s.pc[w] == Finalize || s.pc[w].Inc?);
    }
  }

  lemma FinalizeRest(c: Tree, s: State, s': State, v: int)
    requires Inv(c, s) && Sized(c, s') && DoFinalize(c, s, s', v)
    ensures c.Inner(c.parent[v]) && BarrierOk(c, s', c.parent[v])
    ensures RootOk(c, s') && TokenOk(c, s')
  {
    var p := c.parent[v];
    assert v in c.Children(p);
    assert BarrierOk(c, s, p) && c.Child(v, p);
    hide AgentsOk, ThreadsOk, BarriersOk, NestingsOk;
    forall u | c.Agent(u) ensures !Carries(s.pc[u]) && s.arrivals[u] == s'.finalized {
      AllWait(c, s, v, u);
    }
  }

  lemma FinalizeKeeps(c: Tree, s: State, s': State, v: int)
    requires Inv(c, s) && Sized(c, s') && DoFinalize(c, s, s', v)
    ensures Inv(c, s')
  {
    hide AgentsOk, ThreadsOk, BarriersOk, NestingsOk, BarrierOk, NestingOk, RootOk, TokenOk;
    FinalizeAgents(c, s, s', v);
    FinalizeRest(c, s, s', v);
    BarriersSame(c, s, s', c.parent[v], c.parent[v]);
    NestingsSame(c, s, s', c.parent[v]);
  }

  lemma FinalizeAgents(c: Tree, s: State, s': State, v: int)
    requires c.WellFormed() && Sized(c, s) && Sized(c, s') && AgentsOk(c, s) && ThreadsOk(c, s)
    requires DoFinalize(c, s, s', v)
    ensures AgentsOk(c, s') && ThreadsOk(c, s')
  {
    forall u | c.Agent(u) ensures AgentOk(c, s', u) { assert AgentOk(c, s, u); }
    forall u | c.Thread(u) ensures ThreadOk(c, s', u) { assert ThreadOk(c, s, u); }
  }

  lemma IncAgents(c: Tree, s: State, s': State, v: int)
    requires Inv(c, s) && Sized(c, s') && DoInc(c, s, s', v)
    ensures AgentsOk(c, s') && ThreadsOk(c, s')
  {
    hide NestingsOk, RootOk, TokenOk;
    var p := c.parent[v];
    assert v in c.Children(p);
    assert BarrierOk(c, s, p) && c.Child(v, p);
    forall u | c.Agent(u) ensures AgentOk(c, s', u) {
      assert AgentOk(c, s, u);
      if c.parent[u] == p { assert c.Child(u, p); }
    }
    forall u | c.Thread(u) ensures ThreadOk(c, s', u) { assert ThreadOk(c, s, u); }
  }

  lemma IncBarrier(c: Tree, s: State, s': State, v: int)
    requires c.WellFormed() && Sized(c, s) && Sized(c, s') && BarriersOk(c, s) && AgentsOk(c, s)
    requires DoInc(c, s, s', v)
    ensures c.Inner(c.parent[v]) && BarrierOk(c, s', c.parent[v])
  {
    var p := c.parent[v];
    assert v in c.Children(p);
    assert BarrierOk(c, s, p) && c.Child(v, p) && AgentOk(c, s, v);
    assert Awaited(c, s', p) == c.Children(p) by {
      forall u | u in c.Children(p) ensures s'.arrivals[u] == s'.rounds[p] { assert c.Child(u, p); }
    }
  }

  lemma IncRest(c: Tree, s: State, s': State, v: int)
    requires c.WellFormed() && Sized(c, s) && Sized(c, s') && BarriersOk(c, s) && NestingsOk(c, s)
    requires DoInc(c, s, s', v) && RootOk(c, s)
    ensures c.Agent(c.parent[v]) ==> c.Inner(c.parent[v]) && NestingOk(c, s', c.parent[v])
    ensures RootOk(c, s')
  {
    var p := c.parent[v];
    assert v in c.Children(p);
    assert BarrierOk(c, s, p) && c.Child(v, p);
    if c.Agent(p) { assert NestingOk(c, s, p); }
  }

  lemma TokenSame(c: Tree, s: State, s': State)
    requires c.WellFormed() && Sized(c, s) && Sized(c, s') && TokenOk(c, s)
    requires s'.finalized == s.finalized && s'.wins == s.wins && s'.arrivals == s.arrivals
    requires forall v :: c.Agent(v) ==> (Carries(s'.pc[v]) <==> Carries(s.pc[v]))
    ensures TokenOk(c, s')
  {
    hide Carries;
  }

  lemma IncKeeps(c: Tree, s: State, s': State, v: int)
    requires Inv(c, s) && Sized(c, s') && DoInc(c, s, s', v)
    ensures Inv(c, s')
  {
    hide AgentsOk, ThreadsOk, BarriersOk, NestingsOk, BarrierOk, NestingOk, RootOk, TokenOk;
    IncAgents(c, s, s', v);
    IncBarrier(c, s, s', v);
    IncRest(c, s, s', v);
    BarriersSame(c, s, s', c.parent[v], c.parent[v]);
    NestingsSame(c, s, s', c.parent[v]);
    TokenSame(c, s, s');
  }

  // ---------------------------------------------------------------- return

  lemma ReturnRest(c: Tree, s: State, s': State, v: int)
    requires c.WellFormed() && Sized(c, s) && Sized(c, s') && ThreadsOk(c, s) && RootOk(c, s) && TokenOk(c, s)
    requires DoReturn(c, s, s', v)
    ensures RootOk(c, s') && TokenOk(c, s')
  {
    assert ThreadOk(c, s, v);
    if !s.pc[v].r { RestSame(c, s, s'); }
  }

  lemma ReturnKeeps(c: Tree, s: State, s': State, v: int)
    requires Inv(c, s) && Sized(c, s') && DoReturn(c, s, s', v)
    ensures Inv(c, s')
  {
    hide AgentsOk, ThreadsOk, BarriersOk, NestingsOk, BarrierOk, NestingOk, RootOk, TokenOk;
    ReturnAgents(c, s, s', v);
    ReturnRest(c, s, s', v);
    IdleBehind(c, s, v);
    AwaitedMoves(c, s, s', v);
    BarriersSame(c, s, s', c.parent[v], c.parent[v]);
    NestingsSame(c, s, s', v);
  }

  lemma ReturnAgents(c: Tree, s: State, s': State, v: int)
    requires c.WellFormed() && Sized(c, s) && Sized(c, s') && AgentsOk(c, s) && ThreadsOk(c, s)
    requires DoReturn(c, s, s', v)
    ensures AgentsOk(c, s') && ThreadsOk(c, s')
  {
    forall u | c.Agent(u) ensures AgentOk(c, s', u) { assert AgentOk(c, s, u); }
    forall u | c.Thread(u) ensures ThreadOk(c, s', u) { assert ThreadOk(c, s, u); }
  }

  lemma ReturnToAgents(c: Tree, s: State, s': State, v: int, w: int)
    requires c.WellFormed() && Sized(c, s) && Sized(c, s') && AgentsOk(c, s) && ThreadsOk(c, s)
    requires DoReturnTo(c, s, s', v, w)
    ensures AgentsOk(c, s') && ThreadsOk(c, s')
  {
    assert w in c.Children(v);
    forall u | c.Agent(u) ensures AgentOk(c, s', u) { assert AgentOk(c, s, u); }
    forall u | c.Thread(u) ensures ThreadOk(c, s', u) { assert ThreadOk(c, s, u); }
  }

  lemma ReturnToBarrier(c: Tree, s: State, s': State, v: int, w: int)
    requires c.WellFormed() && Sized(c, s) && Sized(c, s') && BarriersOk(c, s) && NestingsOk(c, s)
    requires DoReturnTo(c, s, s', v, w)
    ensures c.Inner(v) && BarrierOk(c, s', v) && NestingOk(c, s', v)
    ensures s.arrivals[v] == s.rounds[v] + 1
  {
    assert w in c.Children(v);
    assert BarrierOk(c, s, v) && NestingOk(c, s, v);
  }

  lemma ReturnToToken(c: Tree, s: State, s': State, v: int, w: int)
    requires c.WellFormed() && Sized(c, s) && Sized(c, s') && TokenOk(c, s)
    requires DoReturnTo(c, s, s', v, w) && s.arrivals[w] == s.arrivals[v]
    ensures TokenOk(c, s')
  {
    forall u | c.Agent(u)
      ensures Carries(s'.pc[u]) <==> u != v && (Carries(s.pc[u]) || (u == w && Carries(s.pc[v]))) {
    }
    hide Carries;
  }

  lemma RootSame(c: Tree, s: State, s': State)
    requires c.WellFormed() && Sized(c, s) && Sized(c, s') && RootOk(c, s)
    requires s'.finalized == s.finalized && s'.rounds == s.rounds
    requires forall v :: c.Agent(v) && c.parent[v] == c.Root() ==> (s'.pc[v].Inc? <==> s.pc[v].Inc?)
    ensures RootOk(c, s')
  {
  }

  lemma ReturnToBarriers(c: Tree, s: State, s': State, v: int, w: int)
    requires c.WellFormed() && Sized(c, s) && Sized(c, s')
    requires AgentsOk(c, s) && BarriersOk(c, s) && NestingsOk(c, s)
    requires DoReturnTo(c, s, s', v, w)
    ensures BarriersOk(c, s') && NestingsOk(c, s')
  {
    hide AgentsOk, BarriersOk, NestingsOk, BarrierOk, NestingOk;
    ReturnToBarrier(c, s, s', v, w);
    IdleBehind(c, s, v);
    AwaitedMoves(c, s, s', v);
    BarriersSame(c, s, s', v, c.parent[v]);
    NestingsSame(c, s, s', v);
  }

  lemma ReturnToKeeps(c: Tree, s: State, s': State, v: int, w: int)
    requires Inv(c, s) && Sized(c, s') && DoReturnTo(c, s, s', v, w)
    ensures Inv(c, s')
  {
    assert AgentOk(c, s, w);
    hide AgentsOk, ThreadsOk, BarriersOk, NestingsOk, BarrierOk, NestingOk, RootOk, TokenOk, AgentOk;
    ReturnToAgents(c, s, s', v, w);
    ReturnToBarrier(c, s, s', v, w);
    ReturnToBarriers(c, s, s', v, w);
    ReturnToToken(c, s, s', v, w);
    RootSame(c, s, s');
  }

  lemma StepKeeps(c: Tree, s: State, s': State, v: int)
    requires Inv(c, s) && Sized(c, s') && Step(c, s, s', v)
    ensures Inv(c, s')
  {
    hide AgentsOk, ThreadsOk, BarriersOk, NestingsOk, RootOk, TokenOk,
      DoCall, DoRead, DoSub, DoLeave, DoReset, DoFinalize, DoInc, DoReturn, DoReturnTo;
    if Move(c, s, s', v) { MoveKeeps(c, s, s', v); }
    else if DoSub(c, s, s', v) { SubKeeps(c, s, s', v); }
    else if DoReset(c, s, s', v) { ResetKeeps(c, s, s', v); }
    else if DoFinalize(c, s, s', v) { FinalizeKeeps(c, s, s', v); }
    else if DoInc(c, s, s', v) { IncKeeps(c, s, s', v); }
    else if DoReturn(c, s, s', v) { ReturnKeeps(c, s, s', v); }
    else {
      var w :| DoReturnTo(c, s, s', v, w);
      ReturnToKeeps(c, s, s', v, w);
    }
  }

  lemma {:induction false} RunKeeps(c: Tree, trace: seq<State>)
    requires c.WellFormed() && Run(c, trace)
    ensures forall k :: 0 <= k < |trace| ==> Inv(c, trace[k])
  {
    hide Inv, Init, Step;
    if |trace| == 1 {
      InitInv(c, trace[0]);
    } else {
      var n := |trace| - 1;
      assert Run(c, trace[..n]);
      RunKeeps(c, trace[..n]);
      assert Next(c, trace[n - 1], trace[n - 1 + 1]);
      var v :| Step(c, trace[n - 1], trace[n], v);
      assert Inv(c, trace[..n][n - 1]);
      StepKeeps(c, trace[n - 1], trace[n], v);
      forall k | 0 <= k < |trace| ensures Inv(c, trace[k]) {
        if k < n { assert trace[k] == trace[..n][k]; }
      }
    }
  }
}
