/** The shape of the barrier tree: HierarchicBarrier::create and destroy, and the assignment of
    workers to barriers in WorkerGroup::run. */
module BarrierTree {
  import opened Barriers

  const PER_BARRIER: nat := 8

  // --------------------------------------------------------- specification

  /** Barriers needed for n waiters, and how many wait at the i-th. */
  function Groups(n: nat): nat { (n + 7) / 8 }

  function Members(n: nat, i: nat): nat
    requires n > 0 && i < Groups(n)
  {
    if i < n / 8 then 8 else n % 8
  }

  /** All barriers of a tree for n waiters. */
  function Size(n: nat): nat
  {
    if n <= 8 then 1 else Groups(n) + Size(Groups(n))
  }

  /** Parents of n vertices numbered from base and of all barriers above them. */
  function Parents(n: nat, base: nat): (s: seq<nat>)
    ensures |s| == n + Size(n)
    decreases n
  {
    seq(n, i requires 0 <= i < n => base + n + i / 8) + (if n <= 8 then [base + n] else Parents(Groups(n), base + n))
  }

  function Counts(n: nat): (s: seq<nat>)
    requires n > 0
    ensures |s| == Size(n)
  {
    if n <= 8 then [n]
    else seq(Groups(n), i requires 0 <= i < Groups(n) => Members(n, i)) + Counts(Groups(n))
  }

  /** The tree for n threads: the threads first, then the barriers level by level. */
  function TreeFor(n: nat): Tree
    requires n > 0
  {
    Tree(Parents(n, 0), seq(n, i => 0) + Counts(n))
  }

  /** First child of the k-th vertex of a level of n and everything above it. */
  function FirstChild(n: nat, k: nat): nat
    requires n > 0 && n <= k < n + Size(n)
    decreases n
  {
    if n <= 8 || k < n + Groups(n) then 8 * (k - n) else n + FirstChild(Groups(n), k - n)
  }

  lemma SizeAtLeast(n: nat)
    requires n > 0
    ensures n <= 8 ==> Groups(n) == 1
    ensures Groups(n) <= Size(n)
  {
  }

  lemma GroupOf(n: nat, j: nat, i: nat)
    requires j < n && i < Groups(n)
    ensures j / 8 == i <==> 8 * i <= j < 8 * i + Members(n, i)
    ensures j / 8 < Groups(n)
  {
  }

  lemma GroupEnds(n: nat, i: nat)
    requires n > 0 && i < Groups(n)
    ensures 8 * i + Members(n, i) <= n && Members(n, i) > 0
  {
  }

  lemma AllMembers(n: nat)
    requires 0 < n <= 8
    ensures Groups(n) == 1 && Members(n, 0) == n
  {
  }

  lemma ParentsAt(n: nat, base: nat, j: nat)
    requires n > 0 && j < n + Size(n)
    ensures j < n ==> Parents(n, base)[j] == base + n + j / 8
    ensures j >= n && n > 8 ==> Parents(n, base)[j] == Parents(Groups(n), base + n)[j - n]
  {
  }

  lemma CountsAt(n: nat, k: nat)
    requires n > 0 && k < Size(n)
    ensures k < Groups(n) ==> Counts(n)[k] == Members(n, k)
    ensures k >= Groups(n) ==> n > 8 && Counts(n)[k] == Counts(Groups(n))[k - Groups(n)]
  {
    SizeAtLeast(n);
  }

  lemma {:induction false} ParentsAbove(n: nat, base: nat, j: nat)
    requires n > 0 && j < n + Size(n) - 1
    ensures base + n <= Parents(n, base)[j] < base + n + Size(n) && base + j < Parents(n, base)[j]
    decreases n
  {
    hide Parents;
    SizeAtLeast(n);
    ParentsAt(n, base, j);
    if j < n {
      GroupOf(n, j, 0);
    } else {
      ParentsAbove(Groups(n), base + n, j - n);
    }
  }

  lemma {:induction false} CountsPositive(n: nat, k: nat)
    requires n > 0 && k < Size(n)
    ensures Counts(n)[k] > 0
    ensures FirstChild(n, n + k) + Counts(n)[k] <= n + Size(n) - 1
    decreases n
  {
    hide Counts;
    SizeAtLeast(n);
    CountsAt(n, k);
    if k < Groups(n) {
      GroupEnds(n, k);
    } else {
      CountsPositive(Groups(n), k - Groups(n));
    }
  }

  /** The children of a vertex are numbered consecutively. */
  lemma {:induction false} ChildrenAdjacent(n: nat, base: nat, k: nat, j: nat)
    requires n > 0 && n <= k < n + Size(n) && j < n + Size(n) - 1
    ensures Parents(n, base)[j] == base + k <==> FirstChild(n, k) <= j < FirstChild(n, k) + Counts(n)[k - n]
    decreases n
  {
    hide Parents, Counts, Members;
    SizeAtLeast(n);
    var m := Groups(n);
    ParentsAt(n, base, j);
    CountsAt(n, k - n);
    if j < n {
      GroupOf(n, j, 0);
      if k < n + m { GroupOf(n, j, k - n); }
    } else {
      ParentsAbove(m, base + n, j - n);
      if k < n + m {
        GroupEnds(n, k - n);
      } else {
        ChildrenAdjacent(m, base + n, k - n, j - n);
      }
    }
  }

  function Interval(lo: int, count: nat): (s: set<int>)
    ensures |s| == count
    ensures forall j :: j in s <==> lo <= j < lo + count
  {
    if count == 0 then {} else Interval(lo, count - 1) + {lo + count - 1}
  }

  lemma Childless(n: nat, b: nat)
    requires n > 0 && b < n
    ensures TreeFor(n).Children(b) == {}
  {
    var c := TreeFor(n);
    forall j | j in c.Children(b) ensures false {
      ParentsAbove(n, 0, j);
    }
  }

  lemma ChildrenOf(n: nat, b: nat)
    requires n > 0 && n <= b < n + Size(n)
    ensures |TreeFor(n).Children(b)| == Counts(n)[b - n] > 0
  {
    hide Parents, Counts, FirstChild;
    var c := TreeFor(n);
    var lo, count := FirstChild(n, b), Counts(n)[b - n];
    CountsPositive(n, b - n);
    forall j: int | 0 <= j < |c.parent| - 1 ensures j in c.Children(b) <==> j in Interval(lo, count) {
      ChildrenAdjacent(n, 0, b, j);
    }
    assert c.Children(b) == Interval(lo, count);
  }

  /** For every number of threads the tree is well formed: one root, every other vertex below its
      parent, and each barrier constructed with the number of agents that wait at it. */
  lemma TreeIsWellFormed(n: nat)
    requires n > 0
    ensures TreeFor(n).WellFormed()
    ensures forall t :: 0 <= t < n ==> TreeFor(n).Thread(t) && TreeFor(n).parent[t] == n + t / 8
    ensures forall b :: n <= b < n + Size(n) ==> TreeFor(n).Inner(b)
  {
    hide Parents, Counts;
    var c := TreeFor(n);
    forall j | 0 <= j < |c.parent| - 1 ensures j < c.parent[j] < |c.parent| {
      ParentsAbove(n, 0, j);
    }
    forall b: int | 0 <= b < |c.parent|
      ensures c.threadCount[b] == |c.Children(b)| && (b >= n <==> c.Children(b) != {}) {
      if b < n { Childless(n, b); } else { ChildrenOf(n, b); }
    }
    forall t: int | 0 <= t < n ensures c.parent[t] == n + t / 8 {
      ParentsAt(n, 0, t);
    }
  }

  // ---------------------------------------------------------------- memory

  class HierarchicBarrier {
    const threadCount: nat
    const parent: HierarchicBarrier?

    constructor (nrThreads: nat, p: HierarchicBarrier?)
      ensures threadCount == nrThreads && parent == p
    {
      threadCount, parent := nrThreads, p;
    }
  }

  /** The barriers that have been allocated and not freed. */
  class Heap {
    ghost var live: set<HierarchicBarrier>

    constructor ()
      ensures live == {}
    {
      live := {};
    }

    method Allocate(nrThreads: nat, p: HierarchicBarrier?) returns (b: HierarchicBarrier)
      requires p != null ==> p in live
      modifies this
      ensures fresh(b) && b.threadCount == nrThreads && b.parent == p
      ensures live == old(live) + {b}
    {
      b := new HierarchicBarrier(nrThreads, p);
      live := live + {b};
    }

    /** Only live memory may be freed; freeing null does nothing. */
    method Free(b: HierarchicBarrier?)
      requires b != null ==> b in live
      modifies this
      ensures live == old(live) - {b}
    {
      live := live - {b};
    }
  }

  /** `nodes` are the barriers of the tree for n waiters, level by level. */
  ghost predicate Built(nodes: seq<HierarchicBarrier>, n: nat)
    requires n > 0
    decreases n
  {
    SizeAtLeast(n);
    && |nodes| == Size(n)
    && if n <= 8 then nodes[0].threadCount == n && nodes[0].parent == null
       else
         var m := Groups(n);
         SizeAtLeast(m);
         && (forall i :: 0 <= i < m ==> nodes[i].threadCount == Members(n, i) && nodes[i].parent == nodes[m + i / 8])
         && Built(nodes[m..], m)
  }

  ghost predicate Distinct(nodes: seq<HierarchicBarrier>) {
    forall i, j :: 0 <= i < j < |nodes| ==> nodes[i] != nodes[j]
  }

  ghost function Elements(nodes: seq<HierarchicBarrier>): set<HierarchicBarrier> {
    set b | b in nodes
  }

  lemma BuiltLevel(nodes: seq<HierarchicBarrier>, n: nat)
    requires n > 0 && Built(nodes, n)
    ensures |nodes| == Size(n) && Groups(n) <= Size(n)
    ensures n <= 8 ==> nodes[0].threadCount == n && nodes[0].parent == null
    ensures n > 8 ==> Groups(n) + Size(Groups(n)) == Size(n) && Built(nodes[Groups(n)..], Groups(n))
  {
    SizeAtLeast(n);
  }

  lemma BuiltAt(nodes: seq<HierarchicBarrier>, n: nat, k: nat)
    requires n > 8 && Built(nodes, n) && k < Groups(n)
    ensures k < |nodes| && Groups(n) + k / 8 < |nodes|
    ensures nodes[k].threadCount == Members(n, k) && nodes[k].parent == nodes[Groups(n) + k / 8]
  {
    SizeAtLeast(n);
    SizeAtLeast(Groups(n));
  }

  lemma NoNodes()
    ensures Distinct([]) && Elements([]) == {}
  {
  }

  lemma Append(nodes: seq<HierarchicBarrier>, b: HierarchicBarrier)
    requires Distinct(nodes) && b !in nodes
    ensures Distinct(nodes + [b]) && Elements(nodes + [b]) == Elements(nodes) + {b}
  {
  }

  lemma StackDistinct(level: seq<HierarchicBarrier>, above: seq<HierarchicBarrier>)
    requires Distinct(level) && Distinct(above) && forall b :: b in level ==> b !in above
    ensures Distinct(level + above) && Elements(level + above) == Elements(level) + Elements(above)
  {
    var nodes, m := level + above, |level|;
    forall i, j | 0 <= i < j < |nodes| ensures nodes[i] != nodes[j] {
      if i < m <= j {
        assert nodes[i] in level && nodes[j] in above;
      } else if j < m {
        assert level[i] != level[j];
      } else {
        assert above[i - m] != above[j - m];
      }
    }
    assert Elements(nodes) == Elements(level) + Elements(above);
  }

  lemma StackBuilt(level: seq<HierarchicBarrier>, above: seq<HierarchicBarrier>, n: nat)
    requires n > 8 && |level| == Groups(n) && Built(above, |level|)
    requires Groups(|level|) <= |above|
    requires forall i :: 0 <= i < |level| ==> level[i].threadCount == Members(n, i) && level[i].parent == above[i / 8]
    ensures Built(level + above, n)
  {
    hide Members;
    var nodes, m := level + above, |level|;
    assert nodes[m..] == above;
    SizeAtLeast(n);
    SizeAtLeast(m);
    assert |above| == Size(m);
    forall i | 0 <= i < m ensures nodes[i] == level[i] && i / 8 < |above| && nodes[m + i / 8] == above[i / 8] {
    }
  }

  /** One level: full barriers, then the barrier for the rest, below the level already built. */
  method CreateLevel(heap: Heap, nrThreads: nat, parentLevel: seq<HierarchicBarrier>)
    returns (result: seq<HierarchicBarrier>)
    requires nrThreads > PER_BARRIER && |parentLevel| == Groups(Groups(nrThreads))
    requires forall b :: b in parentLevel ==> b in heap.live
    modifies heap
    ensures |result| == Groups(nrThreads)
    ensures forall i :: 0 <= i < |result| ==>
      result[i].threadCount == Members(nrThreads, i) && result[i].parent == parentLevel[i / 8]
    ensures Distinct(result) && forall b :: b in result ==> fresh(b)
    ensures heap.live == old(heap.live) + Elements(result)
  {
    hide Distinct, Elements;
    var nrBarriersFull := nrThreads / PER_BARRIER;
    var threadsInRestBarrier := nrThreads % PER_BARRIER;
    result := [];
    NoNodes();
    var parent: int := -1;
    var i := 0;
    while i < nrBarriersFull
      invariant i <= nrBarriersFull && |result| == i
      invariant parent == (if i == 0 then -1 else (i - 1) / 8)
      invariant forall k :: 0 <= k < i ==> result[k].threadCount == 8 && result[k].parent == parentLevel[k / 8]
      invariant Distinct(result) && forall b :: b in result ==> fresh(b)
      invariant heap.live == old(heap.live) + Elements(result)
    {
      if i % PER_BARRIER == 0 { parent := parent + 1; }
      assert parent == i / 8;
      var b := heap.Allocate(PER_BARRIER, parentLevel[parent]);
      Append(result, b);
      result := result + [b];
      i := i + 1;
    }
    if threadsInRestBarrier != 0 {
      var b := heap.Allocate(threadsInRestBarrier, parentLevel[|parentLevel| - 1]);
      Append(result, b);
      result := result + [b];
    }
  }

  lemma InLevel(nodes: seq<HierarchicBarrier>, i: nat)
    requires i < |nodes|
    ensures nodes[i] in Elements(nodes)
  {
  }

  lemma OneBarrier(b: HierarchicBarrier)
    ensures Distinct([b]) && Elements([b]) == {b}
    ensures b.parent == null && 0 < b.threadCount <= 8 ==> Built([b], b.threadCount)
  {
  }

  method Create(heap: Heap, nrThreads: nat)
    returns (result: seq<HierarchicBarrier>, ghost nodes: seq<HierarchicBarrier>)
    requires nrThreads > 0
    modifies heap
    ensures Built(nodes, nrThreads) && Distinct(nodes)
    ensures Groups(nrThreads) <= |nodes| && result == nodes[..Groups(nrThreads)]
    ensures forall b :: b in nodes ==> fresh(b)
    ensures heap.live == old(heap.live) + Elements(nodes)
    decreases nrThreads
  {
    hide Distinct, Built, Members, Elements;
    if nrThreads <= PER_BARRIER {
      var b := heap.Allocate(nrThreads, null);
      OneBarrier(b);
      result := [b];
      nodes := [b];
      return;
    }
    var nrBarriers := nrThreads / PER_BARRIER + (if nrThreads % PER_BARRIER > 0 then 1 else 0);
    var parentLevel;
    ghost var above;
    parentLevel, above := Create(heap, nrBarriers);
    forall i: nat | i < |parentLevel| ensures parentLevel[i] in heap.live { InLevel(above, i); }
    result := CreateLevel(heap, nrThreads, parentLevel);
    StackDistinct(result, above);
    StackBuilt(result, above, nrThreads);
    nodes := result + above;
  }

  lemma Split(nodes: seq<HierarchicBarrier>, m: nat)
    requires m <= |nodes| && Distinct(nodes)
    ensures Elements(nodes) == Elements(nodes[..m]) + Elements(nodes[m..])
    ensures Elements(nodes[..m]) !! Elements(nodes[m..])
    ensures Distinct(nodes[m..]) && Distinct(nodes[..m])
  {
    assert nodes == nodes[..m] + nodes[m..];
  }

  /** The distinct parents of a level, read while the level is live. */
  method ParentsOf(heap: Heap, these: seq<HierarchicBarrier?>, ghost nodes: seq<HierarchicBarrier>, ghost n: nat)
    returns (parents: seq<HierarchicBarrier?>)
    requires n > 0 && Built(nodes, n)
    requires Groups(n) <= |nodes| && these == nodes[..Groups(n)]
    requires Elements(nodes) <= heap.live
    ensures |parents| == Groups(|these|)
    ensures n <= 8 ==> parents == [null]
    ensures n > 8 ==> Groups(|these|) <= |nodes[|these|..]| && parents == nodes[|these|..][..Groups(|these|)]
  {
    hide Built, Size, Elements;
    BuiltLevel(nodes, n);
    parents := [];
    var i := 0;
    while i < |these|
      invariant i % 8 == 0 && |parents| == i / 8 && (i - 8 < |these| || i == 0)
      invariant n <= 8 ==> forall k :: 0 <= k < |parents| ==> parents[k] == null
      invariant n > 8 ==> |these| + |parents| <= |nodes| && parents == nodes[|these|..|these| + |parents|]
    {
      InLevel(nodes, i);
      if n > 8 { BuiltAt(nodes, n, i); }
      parents := parents + [these[i].parent];
      i := i + PER_BARRIER;
    }
  }

  method FreeAll(heap: Heap, these: seq<HierarchicBarrier?>, ghost nodes: seq<HierarchicBarrier>)
    requires these == nodes && Distinct(nodes) && Elements(nodes) <= heap.live
    modifies heap
    ensures heap.live == old(heap.live) - Elements(nodes)
  {
    var i := 0;
    while i < |these|
      invariant i <= |these|
      invariant heap.live == old(heap.live) - Elements(nodes[..i])
    {
      assert Elements(nodes[..i + 1]) == Elements(nodes[..i]) + {nodes[i]};
      assert nodes[i] in Elements(nodes);
      heap.Free(these[i]);
      i := i + 1;
    }
    assert nodes[..i] == nodes;
  }

  /** Destroying the tree reads only barriers that are live, frees every barrier exactly once, and
      frees nothing else. */
  method Destroy(heap: Heap, these: seq<HierarchicBarrier?>, ghost nodes: seq<HierarchicBarrier>, ghost n: nat)
    requires n > 0 && Built(nodes, n) && Distinct(nodes)
    requires Groups(n) <= |nodes| && these == nodes[..Groups(n)]
    requires Elements(nodes) <= heap.live
    modifies heap
    ensures heap.live == old(heap.live) - Elements(nodes)
    decreases n
  {
    ghost var m := Groups(n);
    var parents := ParentsOf(heap, these, nodes, n);
    FreeAll(heap, these, nodes[..m]);
    Split(nodes, m);
    if |parents| > 1 {
      assert parents == nodes[m..][..Groups(m)];
      Destroy(heap, parents, nodes[m..], m);
    } else {
      heap.Free(parents[|parents| - 1]);
    }
  }

  /** What create builds is the tree of the specification: the same counts, the same parents. */
  lemma {:induction false} BuiltIsTree(nodes: seq<HierarchicBarrier>, n: nat, base: nat, k: nat)
    requires n > 0 && Built(nodes, n) && k < Size(n)
    ensures |nodes| == Size(n) && nodes[k].threadCount == Counts(n)[k]
    ensures k == Size(n) - 1 ==> nodes[k].parent == null
    ensures k < Size(n) - 1 ==>
      var p := Parents(n, base)[n + k];
      base + n <= p && p < base + n + Size(n) && nodes[k].parent == nodes[p - base - n]
    decreases n
  {
    hide Parents, Counts, Built, Members;
    var m := Groups(n);
    BuiltLevel(nodes, n);
    ParentsAt(n, base, n + k);
    CountsAt(n, k);
    if n > 8 {
      SizeAtLeast(m);
      ParentsAt(m, base + n, k);
      if k >= m {
        BuiltIsTree(nodes[m..], m, base + n, k - m);
      } else {
        BuiltAt(nodes, n, k);
      }
    } else {
      assert Size(n) == 1 && k == 0 && m == 1;
      AllMembers(n);
    }
  }

  /** The barrier of each worker in WorkerGroup::run; the calling thread is the last one. */
  method AssignWorkers(size: nat, barriers: seq<HierarchicBarrier>) returns (leaves: seq<HierarchicBarrier>)
    requires size > 0 && |barriers| == Groups(size)
    ensures |leaves| == size
    ensures forall t :: 0 <= t < size ==> leaves[t] == barriers[t / 8]
  {
    var group: int := -1;
    leaves := [];
    var i := 0;
    while i < size - 1
      invariant i <= size - 1 && |leaves| == i
      invariant group == (if i == 0 then -1 else (i - 1) / 8)
      invariant forall t :: 0 <= t < i ==> leaves[t] == barriers[t / 8]
    {
      if i % PER_BARRIER == 0 { group := group + 1; }
      assert group == i / 8 < |barriers|;
      leaves := leaves + [barriers[group]];
      i := i + 1;
    }
    leaves := leaves + [barriers[|barriers| - 1]];
  }

  /** Worker t waits where the specification puts it. */
  ghost predicate AtLeaf(nodes: seq<HierarchicBarrier>, n: nat, t: nat, leaf: HierarchicBarrier)
    requires n > 0 && t < n && |nodes| == Size(n)
  {
    n <= TreeFor(n).parent[t] < n + |nodes| && leaf == nodes[TreeFor(n).parent[t] - n]
  }

  /** Barrier k and its parent are where the specification puts them. */
  ghost predicate InTree(nodes: seq<HierarchicBarrier>, n: nat, k: nat)
    requires n > 0 && k < |nodes| == Size(n)
  {
    var c := TreeFor(n);
    && nodes[k].threadCount == c.threadCount[n + k]
    && (k == |nodes| - 1 ==> nodes[k].parent == null)
    && (k < |nodes| - 1 ==> n <= c.parent[n + k] < n + |nodes| && nodes[k].parent == nodes[c.parent[n + k] - n])
  }

  /** A group of workers: build the tree, let every worker wait at its leaf, free the tree. */
  method RunGroup(heap: Heap, size: nat) returns (leaves: seq<HierarchicBarrier>, ghost nodes: seq<HierarchicBarrier>)
    requires size > 0
    modifies heap
    ensures heap.live == old(heap.live)
    ensures |leaves| == size && |nodes| == Size(size) && TreeFor(size).WellFormed()
    ensures forall t :: 0 <= t < size ==> AtLeaf(nodes, size, t, leaves[t])
    ensures forall k :: 0 <= k < |nodes| ==> InTree(nodes, size, k)
  {
    hide Parents, Counts, Distinct, Built;
    var barriers;
    barriers, nodes := Create(heap, size);
    BuiltLevel(nodes, size);
    leaves := AssignWorkers(size, barriers);
    Destroy(heap, barriers, nodes, size);
    TreeIsWellFormed(size);
    forall t: nat | t < size ensures AtLeaf(nodes, size, t, leaves[t]) {
      ParentsAt(size, 0, t);
      GroupOf(size, t, 0);
    }
    forall k: nat | k < |nodes| ensures InTree(nodes, size, k) {
      BuiltIsTree(nodes, size, 0, k);
    }
  }
}
