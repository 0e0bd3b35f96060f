/** Barrier::wait and HierarchicBarrier::wait as a protocol over a tree, used over and over.

    The vertices of the tree are the waiting threads (its leaves) and the barriers (its inner
    vertices). Every vertex but the root is an agent that waits at its parent: a thread for
    itself, a barrier through the thread that was the last to arrive at it, which runs the
    parent's wait as the barrier's finalizer. Each access to an atomic is a step of its own. */
module Barriers {

  /** Program points of Barrier::wait, for one agent. */
  datatype Pc =
    | Idle
    | Read                  // prevRound = round.load()
    | Sub(prev: nat)        // prev = cntr.fetch_sub(1)
    | Spin(prev: nat)       // while (round == prevRound)
    | Reset                 // cntr = threadCount
    | Finalize              // r = finalizer()
    | Inc(r: bool)          // round++
    | Done(r: bool)         // return r

  /** Parents come after their children, the root last. threadCount is what each barrier was
      constructed with. */
  datatype Tree = Tree(parent: seq<nat>, threadCount: seq<nat>) {
    function Root(): int { |parent| - 1 }

    ghost predicate Child(v: int, b: int) { 0 <= v < |parent| - 1 && parent[v] == b }

    ghost function Children(b: int): set<int> { set v | 0 <= v < |parent| - 1 && parent[v] == b }

    ghost predicate Agent(v: int) { 0 <= v < |parent| - 1 }

    ghost predicate Inner(b: int) { 0 <= b < |parent| && Children(b) != {} }

    /** A worker thread waits here. */
    ghost predicate Thread(v: int) { Agent(v) && Children(v) == {} }

    ghost predicate WellFormed() {
      && |parent| >= 2 && |threadCount| == |parent|
      && (forall v :: 0 <= v < |parent| - 1 ==> v < parent[v] < |parent|)
      && (forall b :: 0 <= b < |parent| ==> threadCount[b] == |Children(b)|)
    }
  }

  const WORD: nat := 0x1_0000_0000_0000_0000

  /** cntr and the 8-bit round of each barrier and the point each agent has reached; then the
      history: arrivals[v] counts v's decrements of its parent's counter, rounds[b] the
      increments of b's round, finalized the runs of the root's finalizer, returned[t] the
      returns of thread t from wait, and wins lists the threads that got true, with the number of
      the wait they got it from. No step depends on the history. */
  datatype State = State(
    cntr: seq<nat>, round: seq<nat>, pc: seq<Pc>,
    arrivals: seq<nat>, rounds: seq<nat>,
    finalized: nat, returned: seq<nat>, wins: seq<Win>)

  datatype Win = Win(thread: nat, wait: nat)

  ghost predicate Sized(c: Tree, s: State) {
    && |s.cntr| == |c.parent| && |s.round| == |c.parent| && |s.pc| == |c.parent|
    && |s.arrivals| == |c.parent| && |s.rounds| == |c.parent| && |s.returned| == |c.parent|
  }

  ghost predicate Init(c: Tree, s: State) {
    && Sized(c, s)
    && s.cntr == c.threadCount
    && (forall v :: 0 <= v < |c.parent| ==>
          s.round[v] == 0 && s.pc[v] == Idle && s.arrivals[v] == 0 && s.rounds[v] == 0 && s.returned[v] == 0)
    && s.finalized == 0 && s.wins == []
  }

  // ------------------------------------------------------------------ steps

  ghost predicate DoCall(c: Tree, s: State, s': State, v: int)
    requires c.WellFormed() && Sized(c, s)
  {
    c.Thread(v) && s.pc[v] == Idle && s' == s.(pc := s.pc[v := Read])
  }

  ghost predicate DoRead(c: Tree, s: State, s': State, v: int)
    requires c.WellFormed() && Sized(c, s)
  {
    c.Agent(v) && s.pc[v] == Read && s' == s.(pc := s.pc[v := Sub(s.round[c.parent[v]])])
  }

  ghost predicate DoSub(c: Tree, s: State, s': State, v: int)
    requires c.WellFormed() && Sized(c, s)
  {
    && c.Agent(v) && s.pc[v].Sub?
    && var b := c.parent[v];
       var prev := s.cntr[b];
       s' == s.(cntr := s.cntr[b := (if prev == 0 then WORD else prev) - 1],
                pc := s.pc[v := if prev == 1 then Reset else Spin(s.pc[v].prev)],
                arrivals := s.arrivals[v := s.arrivals[v] + 1])
  }

  /** The loop leaves when the 8-bit round differs from the one read before arriving. */
  ghost predicate DoLeave(c: Tree, s: State, s': State, v: int)
    requires c.WellFormed() && Sized(c, s)
  {
    && c.Agent(v) && s.pc[v].Spin? && s.round[c.parent[v]] != s.pc[v].prev
    && s' == s.(pc := s.pc[v := Done(false)])
  }

  /** Below the root the finalizer is a wait at the parent, on behalf of the barrier. */
  ghost predicate DoReset(c: Tree, s: State, s': State, v: int)
    requires c.WellFormed() && Sized(c, s)
  {
    && c.Agent(v) && s.pc[v] == Reset
    && var b := c.parent[v];
       var pc := s.pc[v := Finalize];
       s' == s.(cntr := s.cntr[b := c.threadCount[b]],
                pc := if b == c.Root() then pc else pc[b := Read])
  }

  /** The caller's finalizer, at the root. */
  ghost predicate DoFinalize(c: Tree, s: State, s': State, v: int)
    requires c.WellFormed() && Sized(c, s)
  {
    && c.Agent(v) && c.parent[v] == c.Root() && s.pc[v] == Finalize
    && s' == s.(pc := s.pc[v := Inc(true)], finalized := s.finalized + 1)
  }

  ghost predicate DoInc(c: Tree, s: State, s': State, v: int)
    requires c.WellFormed() && Sized(c, s)
  {
    && c.Agent(v) && s.pc[v].Inc?
    && var b := c.parent[v];
       s' == s.(round := s.round[b := (s.round[b] + 1) % 256],
                pc := s.pc[v := Done(s.pc[v].r)],
                rounds := s.rounds[b := s.rounds[b] + 1])
  }

  ghost predicate DoReturn(c: Tree, s: State, s': State, v: int)
    requires c.WellFormed() && Sized(c, s)
  {
    && c.Thread(v) && s.pc[v].Done?
    && s' == s.(pc := s.pc[v := Idle],
                returned := s.returned[v := s.returned[v] + 1],
                wins := if s.pc[v].r then s.wins + [Win(v, s.returned[v])] else s.wins)
  }

  /** Barrier v's wait at its parent returns to w, the agent whose finalizer it was. */
  ghost predicate DoReturnTo(c: Tree, s: State, s': State, v: int, w: int)
    requires c.WellFormed() && Sized(c, s)
  {
    && c.Agent(v) && s.pc[v].Done? && c.Child(w, v) && s.pc[w] == Finalize
    && s' == s.(pc := s.pc[v := Idle][w := Inc(s.pc[v].r)])
  }

  ghost predicate Step(c: Tree, s: State, s': State, v: int)
    requires c.WellFormed() && Sized(c, s)
  {
    || DoCall(c, s, s', v) || DoRead(c, s, s', v) || DoSub(c, s, s', v) || DoLeave(c, s, s', v)
    || DoReset(c, s, s', v) || DoFinalize(c, s, s', v) || DoInc(c, s, s', v) || DoReturn(c, s, s', v)
    || exists w :: DoReturnTo(c, s, s', v, w)
  }

  ghost predicate Next(c: Tree, s: State, s': State)
    requires c.WellFormed() && Sized(c, s)
  {
    exists v :: Step(c, s, s', v)
  }

  ghost predicate Run(c: Tree, trace: seq<State>)
    requires c.WellFormed()
  {
    && |trace| > 0 && Init(c, trace[0])
    && (forall k :: 0 <= k < |trace| ==> Sized(c, trace[k]))
    && (forall k :: 0 <= k < |trace| - 1 ==> Next(c, trace[k], trace[k + 1]))
  }

  // -------------------------------------------------------------- invariant

  /** The last to arrive in the present round. */
  predicate Last(pc: Pc) { pc == Reset || pc == Finalize || pc.Inc? }

  /** Has arrived in the wait it is in. */
  predicate Arrived(pc: Pc) { pc.Spin? || Last(pc) || pc.Done? }

  function One(b: bool): nat { if b then 1 else 0 }

  /** A waiter is never more than one round behind, so that its 8-bit copy of the round tells
      whether its round is over. */
  ghost predicate AgentOk(c: Tree, s: State, v: int)
    requires c.WellFormed() && Sized(c, s) && c.Agent(v)
  {
    var n := s.rounds[c.parent[v]];
    var a := s.arrivals[v];
    match s.pc[v]
    case Idle => a == n
    case Read => a == n
    case Sub(prev) => a == n && prev == n % 256
    case Spin(prev) => 0 < a && a - 1 <= n <= a && prev == (a - 1) % 256
    case Reset => a == n + 1
    case Finalize => a == n + 1
    case Inc(_) => a == n + 1
    case Done(_) => a == n
  }

  /** The children that have not arrived in the present round. */
  ghost function Awaited(c: Tree, s: State, b: int): set<int>
    requires c.WellFormed() && Sized(c, s) && 0 <= b < |c.parent|
  {
    set v | v in c.Children(b) && s.arrivals[v] == s.rounds[b]
  }

  ghost predicate NoLast(c: Tree, s: State, b: int)
    requires c.WellFormed() && Sized(c, s)
  {
    forall v :: c.Child(v, b) ==> !Last(s.pc[v])
  }

  ghost predicate BarrierOk(c: Tree, s: State, b: int)
    requires c.WellFormed() && Sized(c, s) && c.Inner(b)
  {
    && s.round[b] == s.rounds[b] % 256
    && (NoLast(c, s, b) ==> s.cntr[b] == |Awaited(c, s, b)| && Awaited(c, s, b) != {})
    && (forall v :: c.Child(v, b) && Last(s.pc[v]) ==>
          && (s.pc[v] != Reset ==> s.cntr[b] == c.threadCount[b])
          && (forall w :: c.Child(w, b) && w != v ==> s.arrivals[w] == s.rounds[b] + 1 && s.pc[w].Spin?))
  }

  /** A barrier waits at its parent exactly while its last child runs its finalizer. */
  ghost predicate NestingOk(c: Tree, s: State, b: int)
    requires c.WellFormed() && Sized(c, s) && c.Inner(b) && c.Agent(b)
  {
    && ((forall v :: c.Child(v, b) ==> s.pc[v] != Finalize && !s.pc[v].Inc?) ==>
          s.pc[b] == Idle && s.arrivals[b] == s.rounds[b])
    && (forall v :: c.Child(v, b) && s.pc[v] == Finalize ==>
          s.pc[b] != Idle && s.arrivals[b] == s.rounds[b] + One(Arrived(s.pc[b])))
    && (forall v :: c.Child(v, b) && s.pc[v].Inc? ==> s.pc[b] == Idle && s.arrivals[b] == s.rounds[b] + 1)
  }

  ghost predicate RootOk(c: Tree, s: State)
    requires c.WellFormed() && Sized(c, s)
  {
    var r := c.Root();
    && ((forall v :: c.Child(v, r) ==> !s.pc[v].Inc?) ==> s.finalized == s.rounds[r])
    && (forall v :: c.Child(v, r) && s.pc[v].Inc? ==> s.finalized == s.rounds[r] + 1)
  }

  ghost predicate ThreadOk(c: Tree, s: State, v: int)
    requires c.WellFormed() && Sized(c, s) && c.Thread(v)
  {
    s.arrivals[v] == s.returned[v] + One(Arrived(s.pc[v]))
  }

  /** Carries the finalizer's true down to a thread. */
  predicate Carries(pc: Pc) { (pc.Inc? || pc.Done?) && pc.r }

  ghost predicate TokenOk(c: Tree, s: State)
    requires c.WellFormed() && Sized(c, s)
  {
    && (forall v, w :: c.Agent(v) && c.Agent(w) && Carries(s.pc[v]) && Carries(s.pc[w]) ==> v == w)
    && (forall v :: c.Agent(v) && Carries(s.pc[v]) ==> s.arrivals[v] == s.finalized && |s.wins| + 1 == s.finalized)
    && ((forall v :: c.Agent(v) ==> !Carries(s.pc[v])) ==> |s.wins| == s.finalized)
    && (forall k :: 0 <= k < |s.wins| ==> s.wins[k].wait == k)
  }

  ghost predicate AgentsOk(c: Tree, s: State)
    requires c.WellFormed() && Sized(c, s)
  {
    forall v :: c.Agent(v) ==> AgentOk(c, s, v)
  }

  ghost predicate BarriersOk(c: Tree, s: State)
    requires c.WellFormed() && Sized(c, s)
  {
    forall b :: c.Inner(b) ==> BarrierOk(c, s, b)
  }

  ghost predicate NestingsOk(c: Tree, s: State)
    requires c.WellFormed() && Sized(c, s)
  {
    forall b :: c.Inner(b) && c.Agent(b) ==> NestingOk(c, s, b)
  }

  ghost predicate ThreadsOk(c: Tree, s: State)
    requires c.WellFormed() && Sized(c, s)
  {
    forall v :: c.Thread(v) ==> ThreadOk(c, s, v)
  }

  ghost predicate Inv(c: Tree, s: State) {
    && c.WellFormed() && Sized(c, s)
    && AgentsOk(c, s) && BarriersOk(c, s) && NestingsOk(c, s) && ThreadsOk(c, s)
    && RootOk(c, s) && TokenOk(c, s)
  }

  lemma InitInv(c: Tree, s: State)
    requires c.WellFormed() && Init(c, s)
    ensures Inv(c, s)
  {
    hide BarrierOk;
    forall b | c.Inner(b) ensures BarrierOk(c, s, b) {
      InitBarrier(c, s, b);
    }
  }

  lemma InitBarrier(c: Tree, s: State, b: int)
    requires c.WellFormed() && Init(c, s) && c.Inner(b)
    ensures BarrierOk(c, s, b)
  {
    assert Awaited(c, s, b) == c.Children(b);
  }
}
