/** Barrier steps up to the arrival at a barrier, and what no step touches. */
module BarrierArrivals {
  import opened Barriers

  // ------------------------------------------------------------- untouched

  /** A barrier whose children stay where they are is not affected by a step. */
  lemma BarrierSame(c: Tree, s: State, s': State, b: int)
    requires c.WellFormed() && Sized(c, s) && Sized(c, s') && c.Inner(b) && BarrierOk(c, s, b)
    requires forall v :: c.Child(v, b) ==> s'.pc[v] == s.pc[v] && s'.arrivals[v] == s.arrivals[v]
    requires s'.cntr[b] == s.cntr[b] && s'.round[b] == s.round[b] && s'.rounds[b] == s.rounds[b]
    ensures BarrierOk(c, s', b)
  {
    assert Awaited(c, s', b) == Awaited(c, s, b) by {
      forall v | v in c.Children(b) ensures s'.arrivals[v] == s.arrivals[v] { assert c.Child(v, b); }
    }
    assert NoLast(c, s', b) ==> NoLast(c, s, b);
  }

  /** Only children of p and q move, and only p's atomics change. */
  ghost predicate Touches(c: Tree, s: State, s': State, p: int, q: int)
    requires c.WellFormed() && Sized(c, s)
  {
    && Sized(c, s')
    && (forall v :: c.Agent(v) && c.parent[v] != p && c.parent[v] != q ==>
          s'.pc[v] == s.pc[v] && s'.arrivals[v] == s.arrivals[v])
    && (forall b :: 0 <= b < |c.parent| && b != p ==>
          s'.cntr[b] == s.cntr[b] && s'.round[b] == s.round[b] && s'.rounds[b] == s.rounds[b])
  }

  lemma BarriersSame(c: Tree, s: State, s': State, p: int, q: int)
    requires c.WellFormed() && Sized(c, s) && BarriersOk(c, s) && Touches(c, s, s', p, q)
    requires c.Inner(p) ==> BarrierOk(c, s', p)
    requires c.Inner(q) ==> BarrierOk(c, s', q)
    ensures BarriersOk(c, s')
  {
    hide BarrierOk;
    forall b | c.Inner(b) ensures BarrierOk(c, s', b) {
      assert BarrierOk(c, s, b);
      if b != p && b != q { BarrierSame(c, s, s', b); }
    }
  }

  lemma NestingSame(c: Tree, s: State, s': State, b: int)
    requires c.WellFormed() && Sized(c, s) && Sized(c, s') && c.Inner(b) && c.Agent(b) && NestingOk(c, s, b)
    requires forall v :: c.Child(v, b) ==>
      (s'.pc[v] == Finalize <==> s.pc[v] == Finalize) && (s'.pc[v].Inc? <==> s.pc[v].Inc?)
    requires s'.arrivals[b] == s.arrivals[b] && s'.rounds[b] == s.rounds[b]
    requires (s'.pc[b] == Idle <==> s.pc[b] == Idle) && (Arrived(s'.pc[b]) <==> Arrived(s.pc[b]))
    ensures NestingOk(c, s', b)
  {
  }

  /** While a child is the last, every other child spins: no other child takes a step of its own. */
  lemma LastBlocks(c: Tree, s: State, v: int)
    requires c.WellFormed() && Sized(c, s) && BarriersOk(c, s) && c.Agent(v) && !Last(s.pc[v])
    requires s.arrivals[v] == s.rounds[c.parent[v]]
    ensures c.Inner(c.parent[v]) && NoLast(c, s, c.parent[v])
  {
    var b := c.parent[v];
    assert v in c.Children(b);
    assert BarrierOk(c, s, b);
    assert c.Child(v, b);
  }

  /** Nobody gains or loses true, and the root's rounds stay as they are. */
  lemma RestSame(c: Tree, s: State, s': State)
    requires c.WellFormed() && Sized(c, s) && Sized(c, s') && RootOk(c, s) && TokenOk(c, s)
    requires s'.finalized == s.finalized && s'.wins == s.wins && s'.rounds[c.Root()] == s.rounds[c.Root()]
    requires forall v :: c.Agent(v) ==>
      && (Carries(s'.pc[v]) <==> Carries(s.pc[v])) && (Carries(s.pc[v]) ==> s'.arrivals[v] == s.arrivals[v])
    requires forall v :: c.Agent(v) && c.parent[v] == c.Root() ==> (s'.pc[v].Inc? <==> s.pc[v].Inc?)
    ensures RootOk(c, s') && TokenOk(c, s')
  {
    hide Carries;
  }

  // -------------------------------------------- call, load, leave the loop

  ghost predicate Move(c: Tree, s: State, s': State, v: int)
    requires c.WellFormed() && Sized(c, s)
  {
    DoCall(c, s, s', v) || DoRead(c, s, s', v) || DoLeave(c, s, s', v)
  }

  lemma RoundByte(c: Tree, s: State, b: int)
    requires c.WellFormed() && Sized(c, s) && BarriersOk(c, s) && c.Inner(b)
    ensures s.round[b] == s.rounds[b] % 256
  {
    assert BarrierOk(c, s, b);
  }

  lemma MoveAgents(c: Tree, s: State, s': State, v: int)
    requires Inv(c, s) && Sized(c, s') && Move(c, s, s', v)
    ensures AgentsOk(c, s') && ThreadsOk(c, s')
    ensures s.arrivals[v] == s.rounds[c.parent[v]]
  {
    hide NestingsOk, BarrierOk, RootOk, TokenOk;
    var p := c.parent[v];
    assert v in c.Children(p);
    RoundByte(c, s, p);
    assert AgentOk(c, s, v);
    forall u | c.Agent(u) ensures AgentOk(c, s', u) { assert AgentOk(c, s, u); }
    forall u | c.Thread(u) ensures ThreadOk(c, s', u) { assert ThreadOk(c, s, u); }
  }

  lemma NestingsSame(c: Tree, s: State, s': State, p: int)
    requires c.WellFormed() && Sized(c, s) && Sized(c, s') && NestingsOk(c, s)
    requires forall v :: c.Agent(v) && c.parent[v] != p ==>
      (s'.pc[v] == Finalize <==> s.pc[v] == Finalize) && (s'.pc[v].Inc? <==> s.pc[v].Inc?)
    requires forall b :: c.Agent(b) && c.Inner(b) && b != p ==>
      && s'.arrivals[b] == s.arrivals[b] && s'.rounds[b] == s.rounds[b]
      && (s'.pc[b] == Idle <==> s.pc[b] == Idle) && (Arrived(s'.pc[b]) <==> Arrived(s.pc[b]))
    requires c.Inner(p) && c.Agent(p) ==> NestingOk(c, s', p)
    ensures NestingsOk(c, s')
  {
    hide NestingOk, Arrived;
    forall b | c.Inner(b) && c.Agent(b) ensures NestingOk(c, s', b) {
      assert NestingOk(c, s, b);
      if b != p { NestingSame(c, s, s', b); }
    }
  }

  /** A child that has not arrived, and still has not, may move: its barrier is not affected. */
  lemma AwaitedMoves(c: Tree, s: State, s': State, v: int)
    requires c.WellFormed() && Sized(c, s) && Sized(c, s') && BarriersOk(c, s) && c.Agent(v)
    requires var p := c.parent[v];
      && s.arrivals[v] == s.rounds[p] && !Last(s.pc[v]) && !Last(s'.pc[v])
      && s'.cntr[p] == s.cntr[p] && s'.round[p] == s.round[p] && s'.rounds[p] == s.rounds[p]
      && (forall u :: c.Child(u, p) ==> s'.arrivals[u] == s.arrivals[u] && (u != v ==> s'.pc[u] == s.pc[u]))
    ensures c.Inner(c.parent[v]) && BarrierOk(c, s', c.parent[v])
  {
    var p := c.parent[v];
    LastBlocks(c, s, v);
    assert BarrierOk(c, s, p);
    assert Awaited(c, s', p) == Awaited(c, s, p) by {
      forall u | u in c.Children(p) ensures s'.arrivals[u] == s.arrivals[u] { assert c.Child(u, p); }
    }
    assert NoLast(c, s', p);
  }

  lemma MoveFacts(c: Tree, s: State, s': State, v: int)
    requires c.WellFormed() && Sized(c, s) && Move(c, s, s', v)
    ensures c.Agent(v) && s' == s.(pc := s.pc[v := s'.pc[v]])
    ensures !Last(s.pc[v]) && !Last(s'.pc[v]) && !Carries(s.pc[v]) && !Carries(s'.pc[v])
    ensures c.Inner(v) ==>
      (s'.pc[v] == Idle <==> s.pc[v] == Idle) && (Arrived(s'.pc[v]) <==> Arrived(s.pc[v]))
  {
  }

  lemma MoveKeeps(c: Tree, s: State, s': State, v: int)
    requires Inv(c, s) && Sized(c, s') && Move(c, s, s', v)
    ensures Inv(c, s')
  {
    hide AgentsOk, ThreadsOk, BarriersOk, NestingsOk, BarrierOk, NestingOk, RootOk, TokenOk, Move, Carries, Arrived;
    MoveAgents(c, s, s', v);
    MoveFacts(c, s, s', v);
    AwaitedMoves(c, s, s', v);
    BarriersSame(c, s, s', c.parent[v], c.parent[v]);
    NestingsSame(c, s, s', c.Root());
    RestSame(c, s, s');
  }

  // ---------------------------------------------------------------- arrive

  lemma SubBarrier(c: Tree, s: State, s': State, v: int)
    requires c.WellFormed() && Sized(c, s) && Sized(c, s') && BarriersOk(c, s) && AgentsOk(c, s)
    requires DoSub(c, s, s', v)
    ensures c.Inner(c.parent[v]) && BarrierOk(c, s', c.parent[v])
  {
    var p := c.parent[v];
    assert AgentOk(c, s, v);
    LastBlocks(c, s, v);
    assert BarrierOk(c, s, p);
    assert v in Awaited(c, s, p);
    assert Awaited(c, s', p) == Awaited(c, s, p) - {v};
    if s.cntr[p] == 1 {
      forall w | c.Child(w, p) && w != v ensures s'.arrivals[w] == s'.rounds[p] + 1 && s'.pc[w].Spin? {
        assert w in c.Children(p);
        assert Awaited(c, s, p) - {v} == {};
        assert w !in Awaited(c, s, p);
        assert AgentOk(c, s, w);
      }
      assert c.Child(v, p) && Last(s'.pc[v]);
      assert !NoLast(c, s', p);
    } else {
      assert |Awaited(c, s', p)| == s'.cntr[p];
      assert NoLast(c, s', p);
    }
  }

  lemma SubAgents(c: Tree, s: State, s': State, v: int)
    requires c.WellFormed() && Sized(c, s) && Sized(c, s') && AgentsOk(c, s) && ThreadsOk(c, s)
    requires DoSub(c, s, s', v)
    ensures AgentsOk(c, s') && ThreadsOk(c, s')
  {
    forall u | c.Agent(u) ensures AgentOk(c, s', u) { assert AgentOk(c, s, u); }
    forall u | c.Thread(u) ensures ThreadOk(c, s', u) { assert ThreadOk(c, s, u); }
  }

  lemma SubNesting(c: Tree, s: State, s': State, v: int)
    requires c.WellFormed() && Sized(c, s) && Sized(c, s') && NestingsOk(c, s)
    requires DoSub(c, s, s', v)
    ensures c.Inner(v) ==> NestingOk(c, s', v)
  {
    if c.Inner(v) { assert NestingOk(c, s, v); }
  }

  lemma SubKeeps(c: Tree, s: State, s': State, v: int)
    requires Inv(c, s) && Sized(c, s') && DoSub(c, s, s', v)
    ensures Inv(c, s')
  {
    hide AgentsOk, ThreadsOk, BarriersOk, NestingsOk, BarrierOk, NestingOk, RootOk, TokenOk;
    SubBarrier(c, s, s', v);
    SubAgents(c, s, s', v);
    SubNesting(c, s, s', v);
    BarriersSame(c, s, s', c.parent[v], c.parent[v]);
    NestingsSame(c, s, s', v);
    RestSame(c, s, s');
  }
}
