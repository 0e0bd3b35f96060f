/** Waits end: once every thread is in the same wait, a bounded number of steps brings all of them out. */
module BarrierProgress {
  import opened Barriers
  import opened BarrierReturns
  import opened BarrierRounds

  // ------------------------------------------------------------- a measure

  /** The steps that a wait of this agent can take, those of the barriers above it included. */
  ghost function Cost(c: Tree, v: int): (n: nat)
    requires c.WellFormed() && c.Agent(v)
    ensures 6 <= n <= 6 * (|c.parent| - v)
    decreases |c.parent| - v
  {
    if c.parent[v] == c.Root() then 6 else 6 + Cost(c, c.parent[v])
  }

  ghost function Weight(c: Tree, v: int, pc: Pc): (n: nat)
    requires c.WellFormed() && c.Agent(v)
    ensures n <= Cost(c, v)
  {
    match pc
    case Idle => 0
    case Read => Cost(c, v)
    case Sub(_) => Cost(c, v) - 1
    case Reset => Cost(c, v) - 2
    case Finalize => 3
    case Spin(_) => 2
    case Inc(_) => 2
    case Done(_) => 1
  }

  /** The steps left for the first n agents. */
  ghost function Left(c: Tree, pc: seq<Pc>, n: nat): nat
    requires c.WellFormed() && |pc| == |c.parent| && n < |c.parent|
  {
    if n == 0 then 0 else Left(c, pc, n - 1) + Weight(c, n - 1, pc[n - 1])
  }

  lemma {:induction false} LeftUpdate(c: Tree, pc: seq<Pc>, n: nat, v: nat, now: Pc)
    requires c.WellFormed() && |pc| == |c.parent| && n < |c.parent| && c.Agent(v)
    ensures Left(c, pc[v := now], n) ==
            if v < n then Left(c, pc, n) - Weight(c, v, pc[v]) + Weight(c, v, now) else Left(c, pc, n)
  {
    hide Weight;
    if n > 0 { LeftUpdate(c, pc, n - 1, v, now); }
  }

  lemma {:induction false} LeftBound(c: Tree, pc: seq<Pc>, n: nat)
    requires c.WellFormed() && |pc| == |c.parent| && n < |c.parent|
    ensures Left(c, pc, n) <= 6 * |c.parent| * n
  {
    if n > 0 {
      LeftBound(c, pc, n - 1);
      assert 6 * |c.parent| * n == 6 * |c.parent| * (n - 1) + 6 * |c.parent|;
    }
  }

  ghost function Rank(c: Tree, s: State): nat
    requires c.WellFormed() && Sized(c, s)
  {
    Left(c, s.pc, |c.parent| - 1)
  }

  /** Every step but a call of wait lowers the measure. */
  lemma StepLowers(c: Tree, s: State, s': State, v: int)
    requires Inv(c, s) && Sized(c, s') && Step(c, s, s', v) && c.Agent(v) && s.pc[v] != Idle
    ensures Rank(c, s') < Rank(c, s)
  {
    hide AgentsOk, ThreadsOk, BarriersOk, RootOk, TokenOk, Left;
    var n, b := |c.parent| - 1, c.parent[v];
    LeftUpdate(c, s.pc, n, v, s'.pc[v]);
    if DoReset(c, s, s', v) {
      assert v in c.Children(b);
      if b != c.Root() {
        ResetIdle(c, s, v);
        LeftUpdate(c, s.pc[v := Finalize], n, b, Read);
      }
    } else if w :| DoReturnTo(c, s, s', v, w) {
      assert w in c.Children(v);
      LeftUpdate(c, s.pc[v := Idle], n, w, s'.pc[w]);
    }
  }

  lemma ResetIdle(c: Tree, s: State, v: int)
    requires Inv(c, s) && c.Agent(v) && s.pc[v] == Reset && c.parent[v] != c.Root()
    ensures s.pc[c.parent[v]] == Idle
  {
    hide AgentsOk, ThreadsOk, RootOk, TokenOk;
    var b := c.parent[v];
    assert v in c.Children(b) && c.Child(v, b);
    assert BarrierOk(c, s, b) && NestingOk(c, s, b);
  }

  // ------------------------------------------------------- always somebody

  /** Some agent that is in a wait can take a step of it. */
  ghost predicate Proceeds(c: Tree, s: State)
    requires c.WellFormed() && Sized(c, s)
  {
    exists v :: c.Agent(v) && s.pc[v] != Idle && CanStep(c, s, v)
  }

  /** Every thread has begun its wait number n (from 0 on); some may be back from it. */
  ghost predicate AllIn(c: Tree, s: State, n: nat)
    requires c.WellFormed() && Sized(c, s)
  {
    forall t :: c.Thread(t) ==> s.returned[t] == n + One(s.pc[t] == Idle)
  }

  ghost predicate AllOut(c: Tree, s: State, n: nat)
    requires c.WellFormed() && Sized(c, s)
  {
    forall t :: c.Thread(t) ==> s.pc[t] == Idle && s.returned[t] == n + 1
  }

  /** The finalizer has run for everyone who has arrived: then whoever waits still is let go, from
      the root downwards. */
  lemma {:induction false} LetGo(c: Tree, s: State, v: int)
    requires Inv(c, s) && c.Agent(v) && s.arrivals[v] == s.finalized && (s.pc[v].Spin? || s.pc[v] == Finalize)
    ensures Proceeds(c, s)
    decreases |c.parent| - v
  {
    hide ThreadsOk, TokenOk, CanStep;
    var b := c.parent[v];
    assert v in c.Children(b) && c.Child(v, b);
    assert BarrierOk(c, s, b) && AgentOk(c, s, v);
    if s.pc[v].Spin? && s.round[b] != s.pc[v].prev {
      Enabled(c, s, v);
    } else {
      var w := StillLast(c, s, v);
      if s.pc[w] != Finalize || b == c.Root() {
        Enabled(c, s, w);
      } else {
        LetGoAbove(c, s, w);
        if s.pc[b].Spin? || s.pc[b] == Finalize { LetGo(c, s, b); }
      }
    }
  }

  /** A barrier that has not let its agents go has a last one, since all have arrived. */
  lemma StillLast(c: Tree, s: State, v: int) returns (w: int)
    requires Inv(c, s) && c.Agent(v) && s.arrivals[v] == s.finalized
    requires s.pc[v] == Finalize || (s.pc[v].Spin? && s.round[c.parent[v]] == s.pc[v].prev)
    ensures c.Child(w, c.parent[v]) && Last(s.pc[w]) && s.arrivals[w] == s.finalized
  {
    hide ThreadsOk, TokenOk, NestingsOk;
    var b := c.parent[v];
    assert v in c.Children(b) && c.Child(v, b);
    assert BarrierOk(c, s, b) && AgentOk(c, s, v);
    if NoLast(c, s, b) {
      var u :| u in Awaited(c, s, b);
      ArrivalsAhead(c, s, u);
      assert false;
    }
    w :| c.Child(w, b) && Last(s.pc[w]);
    assert AgentOk(c, s, w);
  }

  /** The barrier of a last agent in its finalizer is in a wait for the same round. */
  lemma LetGoAbove(c: Tree, s: State, w: int)
    requires Inv(c, s) && c.Agent(w) && s.pc[w] == Finalize && s.arrivals[w] == s.finalized
    requires c.parent[w] != c.Root()
    ensures var b := c.parent[w];
      Proceeds(c, s) || ((s.pc[b].Spin? || s.pc[b] == Finalize) && s.arrivals[b] == s.finalized)
  {
    hide ThreadsOk, TokenOk, RootOk, CanStep;
    var b := c.parent[w];
    assert w in c.Children(b) && c.Child(w, b) && c.Agent(b);
    assert NestingOk(c, s, b) && AgentOk(c, s, w) && AgentOk(c, s, b);
    if s.pc[b].Done? {
      EnabledReturn(c, s, b, w);
    } else if !s.pc[b].Spin? && s.pc[b] != Finalize {
      Enabled(c, s, b);
    }
  }

  /** While a thread is in the wait that all have begun, some step of it is possible. */
  lemma SomebodyProceeds(c: Tree, s: State, n: nat, t: int)
    requires Inv(c, s) && AllIn(c, s, n) && c.Thread(t) && s.pc[t] != Idle
    ensures Proceeds(c, s)
  {
    hide TokenOk, RootOk, BarriersOk, NestingsOk, CanStep;
    if u :| c.Thread(u) && s.pc[u] == Idle {
      ThreadBounds(c, s, u);
      ThreadBounds(c, s, t);
      assert s.arrivals[t] == s.finalized == n + 1 && Arrived(s.pc[t]);
      if s.pc[t].Spin? || s.pc[t] == Finalize {
        LetGo(c, s, t);
      } else {
        Enabled(c, s, t);
      }
    } else {
      SomebodyMoves(c, s);
      var v :| c.Agent(v) && CanStep(c, s, v);
      if s.pc[v] == Idle { IdleStays(c, s, v); }
    }
  }

  lemma ThreadBounds(c: Tree, s: State, t: int)
    requires Inv(c, s) && c.Thread(t)
    ensures s.returned[t] <= s.finalized <= s.arrivals[t] == s.returned[t] + One(Arrived(s.pc[t]))
  {
    hide TokenOk, RootOk, BarriersOk, NestingsOk;
    assert t in c.Children(c.parent[t]);
    RoundsBehind(c, s, c.parent[t]);
    ArrivalsAhead(c, s, t);
    assert AgentOk(c, s, t) && ThreadOk(c, s, t);
  }

  lemma IdleStays(c: Tree, s: State, v: int)
    requires c.WellFormed() && Sized(c, s) && c.Agent(v) && CanStep(c, s, v) && s.pc[v] == Idle
    ensures c.Thread(v)
  {
  }

  // ------------------------------------------------------------- all waits

  /** A step of a wait. */
  ghost predicate Goes(c: Tree, s: State, s': State)
    requires c.WellFormed() && Sized(c, s)
  {
    exists v :: c.Agent(v) && s.pc[v] != Idle && Step(c, s, s', v)
  }

  /** From state k on nobody calls wait. */
  ghost predicate NoCalls(c: Tree, trace: seq<State>, k: nat)
    requires c.WellFormed() && Run(c, trace)
  {
    forall i: nat :: k <= i < |trace| - 1 ==> Goes(c, trace[i], trace[i + 1])
  }

  lemma InvAt(c: Tree, trace: seq<State>, i: nat)
    requires c.WellFormed() && Run(c, trace) && i < |trace|
    ensures Sized(c, trace[i]) && Inv(c, trace[i])
  {
    hide Inv;
    RunKeeps(c, trace);
  }

  lemma GoesOn(c: Tree, s: State, s': State, n: nat)
    requires Inv(c, s) && Sized(c, s') && Goes(c, s, s') && AllIn(c, s, n)
    ensures Rank(c, s') < Rank(c, s) && AllIn(c, s', n)
  {
    hide AgentsOk, ThreadsOk, BarriersOk, NestingsOk, RootOk, TokenOk, Rank, AllIn, Step;
    var v :| c.Agent(v) && s.pc[v] != Idle && Step(c, s, s', v);
    StepLowers(c, s, s', v);
    StepStaysIn(c, s, s', v, n);
  }

  lemma StepStaysIn(c: Tree, s: State, s': State, v: int, n: nat)
    requires Inv(c, s) && Sized(c, s') && Step(c, s, s', v) && c.Agent(v) && s.pc[v] != Idle && AllIn(c, s, n)
    ensures AllIn(c, s', n)
  {
    hide AgentsOk, ThreadsOk, BarriersOk, NestingsOk, RootOk, TokenOk;
    forall t | c.Thread(t) ensures s'.returned[t] == n + One(s'.pc[t] == Idle) {
      if DoReset(c, s, s', v) { assert v in c.Children(c.parent[v]); }
      if w :| DoReturnTo(c, s, s', v, w) { assert w in c.Children(v); }
    }
  }

  lemma {:induction false} RankFalls(c: Tree, trace: seq<State>, k: nat, i: nat, n: nat)
    requires c.WellFormed() && Run(c, trace) && k <= i < |trace| && NoCalls(c, trace, k) && AllIn(c, trace[k], n)
    ensures Rank(c, trace[i]) + (i - k) <= Rank(c, trace[k]) && AllIn(c, trace[i], n)
    decreases i
  {
    hide Inv, Rank, AllIn, Goes, Init, Next;
    if k < i {
      RankFalls(c, trace, k, i - 1, n);
      InvAt(c, trace, i - 1);
      assert Goes(c, trace[i - 1], trace[i - 1 + 1]);
      GoesOn(c, trace[i - 1], trace[i], n);
    }
  }

  /** Once every thread has begun the same wait, any run without further calls ends after a bounded number
      of steps, and it can go on until all threads are back from that wait, and only until then. */
  lemma EveryWaitEnds(c: Tree, trace: seq<State>, k: nat, n: nat)
    requires c.WellFormed() && Run(c, trace) && k < |trace| && NoCalls(c, trace, k) && AllIn(c, trace[k], n)
    ensures |trace| - 1 - k <= 6 * |c.parent| * (|c.parent| - 1)
    ensures !Proceeds(c, trace[|trace| - 1]) <==> AllOut(c, trace[|trace| - 1], n)
  {
    hide Inv, Run, NoCalls, Proceeds, AllIn, AllOut, Left;
    var last := |trace| - 1;
    InvAt(c, trace, last);
    InvAt(c, trace, k);
    RankFalls(c, trace, k, last, n);
    LeftBound(c, trace[k].pc, |c.parent| - 1);
    OutOrOn(c, trace[last], n);
  }

  lemma OutOrOn(c: Tree, s: State, n: nat)
    requires Inv(c, s) && AllIn(c, s, n)
    ensures !Proceeds(c, s) <==> AllOut(c, s, n)
  {
    hide AgentsOk, ThreadsOk, BarriersOk, NestingsOk, RootOk, TokenOk, Proceeds;
    if t :| c.Thread(t) && s.pc[t] != Idle {
      SomebodyProceeds(c, s, n, t);
    } else {
      forall v | c.Agent(v) ensures s.pc[v] == Idle { AllIdle(c, s, v); }
      NobodyProceeds(c, s);
    }
  }

  lemma NobodyProceeds(c: Tree, s: State)
    requires c.WellFormed() && Sized(c, s) && forall v :: c.Agent(v) ==> s.pc[v] == Idle
    ensures !Proceeds(c, s)
  {
    hide CanStep;
  }

  /** No barrier waits when no thread does. */
  lemma {:induction false} AllIdle(c: Tree, s: State, v: int)
    requires Inv(c, s) && c.Agent(v) && forall t :: c.Thread(t) ==> s.pc[t] == Idle
    ensures s.pc[v] == Idle
    decreases v
  {
    hide AgentsOk, ThreadsOk, RootOk, TokenOk;
    if c.Inner(v) {
      forall w | c.Child(w, v) ensures s.pc[w] == Idle { AllIdle(c, s, w); }
      assert NestingOk(c, s, v);
    }
  }
}
