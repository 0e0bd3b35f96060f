/** The probe side of query 1.1: the lineorder scan of a single worker, and the Select on it. Every
    column the plan reads has a pointer of its own, which the scan moves from vector to vector. */
module Q11Probe {
  import opened Primitives
  import opened Q11
  import Scans

  /** The lineorder scan of a single worker: only its own calls have moved the counter. */
  ghost predicate Alone(scan: Scans.Scan)
    reads scan, scan.shared, scan.columns
  {
    && scan.Valid()
    && if scan.needsInit then scan.State() == Scans.Start(scan.Settings()) && scan.shared.pos == 0
       else scan.shared.pos == scan.currentChunk + 1
  }

  /** Where the next vector begins. */
  ghost function Ahead(scan: Scans.Scan): nat
    reads scan
  {
    if scan.needsInit then 0 else scan.lastOffset + scan.vecSize
  }

  lemma NoSkip(p: Scans.Plan, l: Scans.Local, pos: nat)
    requires Scans.Callable(p, l, pos)
    requires if l.needsInit then l == Scans.Start(p) && pos == 0 else pos == l.currentChunk + 1
    ensures l.lastOffset + Scans.Times(Scans.Steps(p, l, pos), p.vecSize) ==
            if l.needsInit then 0 else l.lastOffset + p.vecSize
  {
    assert Scans.Times(0, p.chunkSize) == 0 && Scans.Times(0, p.vecSize) == 0 && Scans.Times(1, p.vecSize) == p.vecSize;
  }

  /** A worker that scans alone gets one vector after the other. */
  method NextVector(scan: Scans.Scan) returns (n: nat)
    requires Alone(scan)
    modifies scan`needsInit, scan`vecInChunk, scan`currentChunk, scan`lastOffset, scan.shared, scan.columns
    ensures n ==
            if old(Ahead(scan)) >= scan.nrTuples then 0 else Scans.Min(scan.nrTuples - old(Ahead(scan)), scan.vecSize)
    ensures scan.Valid()
    ensures n > 0 ==> Alone(scan) && scan.lastOffset == old(Ahead(scan)) && !scan.needsInit
  {
    hide Scans.Scan.Aligned, Scans.Scan.Wired, Scans.Times;
    NoSkip(scan.Settings(), scan.State(), scan.shared.pos);
    hide Scans.Steps;
    n := scan.Next();
  }

  /** The buffers of the three selections. */
  datatype Buffers = Buffers(qty: array<nat>, low: array<nat>, high: array<nat>)

  ghost predicate Roomy(b: Buffers, n: nat) {
    && b.qty.Length == n && b.low.Length == n && b.high.Length == n
    && b.qty != b.low && b.low != b.high && b.qty != b.high
  }

  function Less(): (int, int) -> bool { (a: int, b: int) => a < b }
  function GreaterEqual(): (int, int) -> bool { (a: int, b: int) => a >= b }
  function LessEqual(): (int, int) -> bool { (a: int, b: int) => a <= b }

  /** The tests on the tuples from `at` on. */
  function WantedFrom(lo: Lineorder, c: Constants, at: nat): nat -> bool {
    (i: nat) => Wanted(lo, c, at + i)
  }

  lemma AllTests(lo: Lineorder, c: Constants, at: nat, n: nat)
    requires lo.Valid()
    ensures var t1, t2, t3 := Test(lo.quantity, at, Less(), c.quantityMax),
                              Test(lo.discount, at, GreaterEqual(), c.discountMin),
                              Test(lo.discount, at, LessEqual(), c.discountMax);
      Passing(BothTests(BothTests(t1, t2), t3), Upto(n)) == Passing(WantedFrom(lo, c, at), Upto(n))
  {
    hide Passing;
    var p := BothTests(BothTests(Test(lo.quantity, at, Less(), c.quantityMax),
                                 Test(lo.discount, at, GreaterEqual(), c.discountMin)),
                       Test(lo.discount, at, LessEqual(), c.discountMax));
    forall i: nat | i < n ensures p(Upto(n)[i]) <==> WantedFrom(lo, c, at)(Upto(n)[i]) {
      assert Upto(n)[i] == i;
    }
    SameTests(p, WantedFrom(lo, c, at), Upto(n));
  }

  lemma Narrowed(p: nat -> bool, ids: seq<nat>, r: seq<nat>, n: nat)
    requires r == Passing(p, ids) && forall i :: 0 <= i < |ids| ==> ids[i] < n
    ensures forall i :: 0 <= i < |r| ==> r[i] < n
  {
    PassingMembers(p, ids);
    forall i | 0 <= i < |r| ensures r[i] < n { assert r[i] in r; }
  }

  lemma {:induction false} SameTests(p: nat -> bool, q: nat -> bool, ids: seq<nat>)
    requires forall i :: 0 <= i < |ids| ==> (p(ids[i]) <==> q(ids[i]))
    ensures Passing(p, ids) == Passing(q, ids)
  {
    if ids != [] { SameTests(p, q, ids[..|ids| - 1]); }
  }

  function Range(from: nat, to: nat): (r: seq<nat>)
    requires from <= to
    ensures |r| == to - from && forall i :: 0 <= i < to - from ==> r[i] == from + i
  {
    seq(to - from, i requires 0 <= i => from + i)
  }

  /** Selected positions as tuples of the table. */
  function Tuples(at: nat, sel: seq<nat>): (r: seq<nat>)
    ensures |r| == |sel| && forall i :: 0 <= i < |sel| ==> r[i] == at + sel[i]
  {
    seq(|sel|, i requires 0 <= i < |sel| => at + sel[i])
  }

  lemma NothingPasses(lo: Lineorder, c: Constants, from: nat)
    ensures Passing(WantedFrom(lo, c, 0), Range(from, from)) == []
  {
  }

  lemma PassRangeStep(p: nat -> bool, from: nat, to: nat)
    requires from <= to
    ensures Passing(p, Range(from, to + 1)) == Passing(p, Range(from, to)) + if p(to) then [to] else []
  {
    assert Range(from, to + 1)[..to - from] == Range(from, to);
  }

  lemma PassUptoStep(p: nat -> bool, n: nat)
    ensures Passing(p, Upto(n + 1)) == Passing(p, Upto(n)) + if p(n) then [n] else []
    ensures Passing(p, Upto(0)) == []
  {
    assert Upto(n + 1)[..n] == Upto(n);
  }

  lemma TuplesConcat(at: nat, a: seq<nat>, b: seq<nat>)
    ensures Tuples(at, a + b) == Tuples(at, a) + Tuples(at, b)
  {
  }

  lemma {:induction false} TuplesPass(lo: Lineorder, c: Constants, at: nat, n: nat)
    ensures Tuples(at, Passing(WantedFrom(lo, c, at), Upto(n))) == Passing(WantedFrom(lo, c, 0), Range(at, at + n))
  {
    hide Wanted, Passing;
    if n > 0 {
      TuplesPass(lo, c, at, n - 1);
      PassUptoStep(WantedFrom(lo, c, at), n - 1);
      PassRangeStep(WantedFrom(lo, c, 0), at, at + n - 1);
      TuplesConcat(at, Passing(WantedFrom(lo, c, at), Upto(n - 1)),
                   if WantedFrom(lo, c, at)(n - 1) then [n - 1] else []);
      assert Tuples(at, [n - 1]) == [at + n - 1];
    } else {
      PassUptoStep(WantedFrom(lo, c, at), 0);
      NothingPasses(lo, c, at);
    }
  }

  lemma PassRange(lo: Lineorder, c: Constants, from: nat, a: nat, b: nat)
    requires from <= a <= b
    ensures Passing(WantedFrom(lo, c, 0), Range(from, b)) ==
            Passing(WantedFrom(lo, c, 0), Range(from, a)) + Passing(WantedFrom(lo, c, 0), Range(a, b))
  {
    hide Passing;
    PassingConcat(WantedFrom(lo, c, 0), Range(from, a), Range(a, b));
    assert Range(from, b) == Range(from, a) + Range(a, b);
  }

  /** How many tuples the scan has been through. */
  ghost function Seen(scan: Scans.Scan): nat
    reads scan
  {
    Scans.Min(Ahead(scan), scan.nrTuples)
  }

  /** The vector the scan stands on selects these. */
  ghost predicate Selects(scan: Scans.Scan, lo: Lineorder, c: Constants, sel: seq<nat>)
    reads scan
    requires scan.lastOffset <= scan.nrTuples
  {
    sel == Passing(WantedFrom(lo, c, scan.lastOffset), Upto(Scans.Min(scan.nrTuples - scan.lastOffset, scan.vecSize)))
  }

  // ------------------------------------------------------------ pointers

  /** The column pointers of the plan, in the order in which its operations are added. */
  const QUANTITY: nat := 0
  const DISCOUNT_LOW: nat := 1
  const DISCOUNT_HIGH: nat := 2
  const ORDERDATE_HASH: nat := 3
  const ORDERDATE_KEY: nat := 4
  const EXTENDEDPRICE: nat := 5
  const DISCOUNT: nat := 6
  const POINTERS: nat := 7

  /** Values are four or eight bytes wide. */
  function SizeOf(column: nat): nat {
    if column == QUANTITY || column == ORDERDATE_HASH || column == ORDERDATE_KEY then 4 else 8
  }

  /** The pointers are registered with the scan, each starting at the address of its column. */
  ghost predicate Registered(scan: Scans.Scan, addresses: seq<int>)
    reads scan
  {
    && |addresses| == POINTERS == |scan.consumers| == |scan.typeSize| && scan.base == addresses
    && POINTERS <= scan.columns.Length
    && forall k :: 0 <= k < POINTERS ==> scan.consumers[k].column == k && scan.typeSize[k] == SizeOf(k)
  }

  /** Column(lineorder, ...) of every operation of the plan. */
  method Register(scan: Scans.Scan) returns (addresses: seq<int>)
    requires scan.Valid() && scan.consumers == [] && scan.lastOffset == 0 && POINTERS <= scan.columns.Length
    modifies scan`consumers, scan`base, scan`typeSize
    ensures scan.Valid() && Registered(scan, addresses)
  {
    hide Scans.Scan.Aligned, Scans.Scan.Wired, Scans.Scan.Valid;
    addresses := [];
    RegisteredNone(scan);
    for k := 0 to POINTERS
      invariant scan.Valid() && |scan.consumers| == |scan.base| == |scan.typeSize| == k && scan.base == addresses
      invariant forall m :: 0 <= m < k ==> scan.consumers[m].column == m && scan.typeSize[m] == SizeOf(m)
    {
      scan.AddConsumer(k, SizeOf(k));
      NoOffset(SizeOf(k));
      addresses := addresses + [scan.columns[k]];
    }
  }

  lemma RegisteredNone(scan: Scans.Scan)
    requires scan.Valid() && scan.consumers == []
    ensures scan.base == [] && scan.typeSize == []
  {
  }

  lemma NoOffset(size: nat)
    ensures Scans.Times(0, size) == 0
  {
  }

  lemma Distance(base: int, offset: nat, k: nat)
    ensures (base + Scans.Times(offset, SizeOf(k)) - base) / SizeOf(k) == offset
  {
  }

  // -------------------------------------------------------------- Select

  class LineorderSelect {
    const lo: Lineorder
    const c: Constants
    const branchFree: bool
    const scan: Scans.Scan
    const sel: Buffers
    const addresses: seq<int>

    constructor (lo: Lineorder, c: Constants, branchFree: bool, scan: Scans.Scan, sel: Buffers, addresses: seq<int>)
      ensures this.lo == lo && this.c == c && this.branchFree == branchFree && this.scan == scan && this.sel == sel
      ensures this.addresses == addresses
    {
      this.lo, this.c, this.branchFree, this.scan, this.sel, this.addresses := lo, c, branchFree, scan, sel, addresses;
    }

    /** The pointers stand at the vector returned last, also when the scan has ended. */
    ghost predicate Standing()
      reads scan, scan.columns
    {
      && lo.Valid() && scan.nrTuples == |lo.orderdate| && Roomy(sel, scan.vecSize)
      && scan.columns as object !in {sel.qty, sel.low, sel.high}
      && scan.Valid() && Registered(scan, addresses)
    }

    ghost predicate Valid()
      reads scan, scan.shared, scan.columns
    {
      Standing() && Alone(scan)
    }

    /** The place in its column at which pointer k stands. */
    method At(k: nat) returns (at: nat)
      requires Standing() && k < POINTERS
      ensures at == scan.lastOffset
    {
      Distance(addresses[k], scan.lastOffset, k);
      assert scan.Aligned(|scan.consumers|, scan.lastOffset);
      assert scan.columns[scan.consumers[k].column] == scan.base[k] + Scans.Times(scan.lastOffset, scan.typeSize[k]);
      at := (scan.columns[k] - addresses[k]) / SizeOf(k);
    }

    /** condition->evaluate: each operation narrows the selection vector of the one before. All three
        have a variant without branches. */
    method Evaluate(n: nat) returns (found: nat)
      requires Standing() && scan.lastOffset + n <= |lo.orderdate| && n <= scan.vecSize
      modifies sel.qty, sel.low, sel.high
      ensures Standing() && found <= n && sel.high[..found] == Passing(WantedFrom(lo, c, scan.lastOffset), Upto(n))
    {
      hide Passing, Test, Wanted, WantedFrom, Registered, Scans.Scan.Valid;
      var at1 := At(QUANTITY);
      var at2 := At(DISCOUNT_LOW);
      var at3 := At(DISCOUNT_HIGH);
      ghost var t1 := Test(lo.quantity, at1, Less(), c.quantityMax);
      ghost var t2 := Test(lo.discount, at2, GreaterEqual(), c.discountMin);
      ghost var t3 := Test(lo.discount, at3, LessEqual(), c.discountMax);
      if branchFree {
        found := SelColValBf(n, sel.qty, lo.quantity, at1, Less(), c.quantityMax);
        Narrowed(t1, Upto(n), sel.qty[..found], n);
        found := SelSelColValBf(found, sel.qty, sel.low, lo.discount, at2, GreaterEqual(), c.discountMin);
        PassingBoth(t1, t2, Upto(n));
        Narrowed(BothTests(t1, t2), Upto(n), sel.low[..found], n);
        found := SelSelColValBf(found, sel.low, sel.high, lo.discount, at3, LessEqual(), c.discountMax);
      } else {
        found := SelColVal(n, sel.qty, lo.quantity, at1, Less(), c.quantityMax);
        Narrowed(t1, Upto(n), sel.qty[..found], n);
        found := SelSelColVal(found, sel.qty, sel.low, lo.discount, at2, GreaterEqual(), c.discountMin);
        PassingBoth(t1, t2, Upto(n));
        Narrowed(BothTests(t1, t2), Upto(n), sel.low[..found], n);
        found := SelSelColVal(found, sel.low, sel.high, lo.discount, at3, LessEqual(), c.discountMax);
      }
      PassingBoth(BothTests(t1, t2), t3, Upto(n));
      AllTests(lo, c, at1, n);
    }

    /** Select::next: skips vectors in which nothing passes. */
    method Next() returns (n: nat)
      requires Valid()
      modifies scan`needsInit, scan`vecInChunk, scan`currentChunk, scan`lastOffset, scan.shared, scan.columns
      modifies sel.qty, sel.low, sel.high
      ensures Standing() && n <= scan.vecSize
      ensures n == 0 ==> Passing(WantedFrom(lo, c, 0), Range(old(Seen(scan)), scan.nrTuples)) == []
      ensures n > 0 ==>
        && Valid() && !scan.needsInit && old(Seen(scan)) <= scan.lastOffset < scan.nrTuples
        && Selects(scan, lo, c, sel.high[..n])
        && Passing(WantedFrom(lo, c, 0), Range(old(Seen(scan)), scan.lastOffset)) == []
    {
      hide Passing, Wanted, WantedFrom, Scans.Scan.Aligned, Scans.Scan.Wired, Range;
      ghost var start := Seen(scan);
      n := 0;
      NothingPasses(lo, c, start);
      while true
        invariant Valid() && start <= Seen(scan)
        invariant Passing(WantedFrom(lo, c, 0), Range(start, Seen(scan))) == []
        decreases scan.nrTuples - Ahead(scan)
      {
        n := NextVector(scan);
        if n == 0 { return; }
        ghost var m := n;
        n := Evaluate(n);
        if n > 0 { return; }
        TuplesPass(lo, c, scan.lastOffset, m);
        PassRange(lo, c, start, scan.lastOffset, scan.lastOffset + m);
      }
    }
  }
}
