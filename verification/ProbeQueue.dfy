/** What a batched join does with the chains it has not finished, as functions: chains
    wait in a first-in-first-out queue, and a visit to the front reports its entry,
    then parks the rest of its chain at the back. */
module ProbeQueue {
  import opened Hashmap

  /** A chain to follow for probe tuple `id`, starting at `entry`; also the report that
      `entry` is a match of `id`. */
  datatype Probe = Probe(id: nat, entry: Word)

  type Heap = map<Word, EntryHeader>

  ghost predicate Walkable(heap: Heap, q: seq<Probe>) {
    forall i :: 0 <= i < |q| ==> Starts(heap, q[i])
  }

  ghost predicate Starts(heap: Heap, x: Probe) {
    x.entry != END && Finite(heap, x.entry)
  }

  function Park(heap: Heap, x: Probe): seq<Probe>
    requires x.entry in heap
  {
    if heap[x.entry].next != END then [Probe(x.id, heap[x.entry].next)] else []
  }

  function Report(emit: Probe -> bool, x: Probe): seq<Probe> {
    if emit(x) then [x] else []
  }

  lemma Parkable(heap: Heap, x: Probe)
    requires Starts(heap, x)
    ensures x.entry in heap && Walkable(heap, Park(heap, x))
  {
    ChainStep(heap, x.entry);
  }

  /** The reports of visiting the chains of `q` in order. */
  function Reports(emit: Probe -> bool, q: seq<Probe>): (r: seq<Probe>)
    ensures |r| <= |q|
  {
    if q == [] then [] else Reports(emit, q[..|q| - 1]) + Report(emit, q[|q| - 1])
  }

  /** The rests of the chains of `q`, in order. */
  ghost function Parks(heap: Heap, q: seq<Probe>): (r: seq<Probe>)
    requires Walkable(heap, q)
    ensures Walkable(heap, r) && |r| <= |q|
  {
    if q == [] then []
    else
      Parkable(heap, q[|q| - 1]);
      Parks(heap, q[..|q| - 1]) + Park(heap, q[|q| - 1])
  }

  /** Visit the k chains at the front of the queue. */
  ghost function Round(heap: Heap, emit: Probe -> bool, q: seq<Probe>, k: nat): (r: (seq<Probe>, seq<Probe>))
    requires Walkable(heap, q) && k <= |q|
    ensures Walkable(heap, r.1)
    ensures |r.0| <= k && |r.1| <= |q|
  {
    (Reports(emit, q[..k]), q[k..] + Parks(heap, q[..k]))
  }

  /** Entries still to be visited. */
  ghost function Length(heap: Heap, q: seq<Probe>): nat
    requires Walkable(heap, q)
  {
    if q == [] then 0 else |Chain(heap, q[0].entry)| + Length(heap, q[1..])
  }

  /** The rest of a joinAllParallel call once the fresh probes are done: whole passes over
      the queue as long as every parked chain may still fill a slot of the output, and a
      last partial pass otherwise. */
  ghost function Drain(heap: Heap, emit: Probe -> bool, q: seq<Probe>, space: nat): (r: (seq<Probe>, seq<Probe>))
    requires Walkable(heap, q)
    ensures Walkable(heap, r.1)
    ensures |r.0| <= space && |r.1| <= |q|
    decreases Length(heap, q)
  {
    if q == [] then ([], [])
    else if |q| > space then Round(heap, emit, q, space)
    else
      ParksShorten(heap, q);
      var o := Reports(emit, q);
      var (o2, q2) := Drain(heap, emit, Parks(heap, q), space - |o|);
      (o + o2, q2)
  }

  lemma {:induction false} LengthConcat(heap: Heap, q: seq<Probe>, r: seq<Probe>)
    requires Walkable(heap, q) && Walkable(heap, r)
    ensures Walkable(heap, q + r)
    ensures Length(heap, q + r) == Length(heap, q) + Length(heap, r)
  {
    if q == [] {
      assert q + r == r;
    } else {
      assert (q + r)[1..] == q[1..] + r;
      LengthConcat(heap, q[1..], r);
    }
  }

  lemma {:induction false} ParksShorten(heap: Heap, q: seq<Probe>)
    requires Walkable(heap, q)
    ensures Length(heap, Parks(heap, q)) + |q| == Length(heap, q)
  {
    if q != [] {
      var n := |q| - 1;
      var x := q[n];
      ParksShorten(heap, q[..n]);
      assert q == q[..n] + [x];
      LengthConcat(heap, q[..n], [x]);
      Parkable(heap, x);
      LengthConcat(heap, Parks(heap, q[..n]), Park(heap, x));
      ChainStep(heap, x.entry);
      ChainStep(heap, heap[x.entry].next);
      assert [x][1..] == [];
      assert Park(heap, x) != [] ==> Park(heap, x)[1..] == [];
    }
  }

  /** Each visit uses up exactly one entry. */
  lemma RoundShortens(heap: Heap, emit: Probe -> bool, q: seq<Probe>, k: nat)
    requires Walkable(heap, q) && k <= |q|
    ensures Length(heap, Round(heap, emit, q, k).1) + k == Length(heap, q)
  {
    hide Finite, Length, Parks, Reports;
    ParksShorten(heap, q[..k]);
    LengthConcat(heap, q[k..], Parks(heap, q[..k]));
    LengthConcat(heap, q[..k], q[k..]);
    assert q == q[..k] + q[k..];
  }

  // ------------------------------------------------------------ conservation

  /** How often `y` occurs in `s`. */
  function Times<T(==)>(s: seq<T>, y: T): nat {
    if s == [] then 0 else (if s[0] == y then 1 else 0) + Times(s[1..], y)
  }

  lemma {:induction false} TimesMultiset<T>(s: seq<T>, y: T)
    ensures multiset(s)[y] == Times(s, y)
  {
    if s != [] {
      TimesMultiset(s[1..], y);
      assert s == [s[0]] + s[1..];
    }
  }

  lemma Associate(a: seq<Probe>, b: seq<Probe>, c: seq<Probe>)
    ensures a + (b + c) == (a + b) + c
    ensures b == [] ==> a + b == a
  {
  }

  /** How often the parked chains still lead to the match `y`. */
  ghost function Owed(heap: Heap, q: seq<Probe>, y: Probe): nat
    requires Walkable(heap, q)
  {
    if q == [] then 0 else Leads(heap, q[0], y) + Owed(heap, q[1..], y)
  }

  ghost function Leads(heap: Heap, x: Probe, y: Probe): nat
    requires Finite(heap, x.entry)
  {
    if x.id == y.id then Times(Chain(heap, x.entry), y.entry) else 0
  }

  lemma {:induction false} TimesConcat<T>(s: seq<T>, t: seq<T>, y: T)
    ensures Times(s + t, y) == Times(s, y) + Times(t, y)
  {
    if s == [] {
      assert s + t == t;
    } else {
      assert (s + t)[1..] == s[1..] + t;
      TimesConcat(s[1..], t, y);
    }
  }

  lemma {:induction false} OwedConcat(heap: Heap, q: seq<Probe>, r: seq<Probe>, y: Probe)
    requires Walkable(heap, q) && Walkable(heap, r)
    ensures Walkable(heap, q + r)
    ensures Owed(heap, q + r, y) == Owed(heap, q, y) + Owed(heap, r, y)
  {
    if q == [] {
      assert q + r == r;
    } else {
      assert (q + r)[1..] == q[1..] + r;
      OwedConcat(heap, q[1..], r, y);
    }
  }

  /** One visit moves one match from owed to reported. */
  lemma VisitConserves(heap: Heap, emit: Probe -> bool, x: Probe, y: Probe)
    requires Starts(heap, x)
    ensures x.entry in heap && Walkable(heap, Park(heap, x))
    ensures emit(y) ==> Leads(heap, x, y) == Times(Report(emit, x), y) + Owed(heap, Park(heap, x), y)
    ensures Owed(heap, Park(heap, x), y) <= Leads(heap, x, y)
  {
    Parkable(heap, x);
    assert Starts(heap, x);
    ChainStep(heap, x.entry);
    var next := heap[x.entry].next;
    ChainStep(heap, next);
    assert Chain(heap, x.entry)[1..] == Chain(heap, next);
    var c := Chain(heap, x.entry);
    assert Times(c, y.entry) == (if c[0] == y.entry then 1 else 0) + Times(c[1..], y.entry);
    assert emit(y) ==> Times(Report(emit, x), y) == if x == y then 1 else 0 by {
      assert Report(emit, x) != [] ==> Report(emit, x)[1..] == [];
    }
    assert Park(heap, x) != [] ==> Park(heap, x)[1..] == [];
  }

  lemma {:induction false} VisitsConserve(heap: Heap, emit: Probe -> bool, q: seq<Probe>, y: Probe)
    requires Walkable(heap, q)
    ensures emit(y) ==> Times(Reports(emit, q), y) + Owed(heap, Parks(heap, q), y) == Owed(heap, q, y)
    ensures !emit(y) ==> Times(Reports(emit, q), y) == 0
    ensures Owed(heap, Parks(heap, q), y) <= Owed(heap, q, y)
  {
    if q != [] {
      var n := |q| - 1;
      var x := q[n];
      VisitsConserve(heap, emit, q[..n], y);
      VisitConserves(heap, emit, x, y);
      assert q == q[..n] + [x];
      OwedConcat(heap, q[..n], [x], y);
      OwedConcat(heap, Parks(heap, q[..n]), Park(heap, x), y);
      TimesConcat(Reports(emit, q[..n]), Report(emit, x), y);
      assert [x][1..] == [];
    }
  }

  /** Visiting chains loses no match and invents none: a match that would be reported moves
      from owed to reported, and only matches that pass the test are reported. */
  lemma RoundConserves(heap: Heap, emit: Probe -> bool, q: seq<Probe>, k: nat, y: Probe)
    requires Walkable(heap, q) && k <= |q|
    ensures var (o, q') := Round(heap, emit, q, k);
            && (emit(y) ==> Times(o, y) + Owed(heap, q', y) == Owed(heap, q, y))
            && (!emit(y) ==> Times(o, y) == 0)
            && Owed(heap, q', y) <= Owed(heap, q, y)
  {
    hide Finite, Owed, Parks, Reports;
    VisitsConserve(heap, emit, q[..k], y);
    OwedConcat(heap, q[k..], Parks(heap, q[..k]), y);
    OwedConcat(heap, q[..k], q[k..], y);
    assert q == q[..k] + q[k..];
  }

  /** A call hands over exactly what it takes off the debt. */
  lemma {:induction false} DrainConserves(heap: Heap, emit: Probe -> bool, q: seq<Probe>, space: nat, y: Probe)
    requires Walkable(heap, q)
    ensures var (o, q') := Drain(heap, emit, q, space);
            && (emit(y) ==> Times(o, y) + Owed(heap, q', y) == Owed(heap, q, y))
            && (!emit(y) ==> Times(o, y) == 0)
            && Owed(heap, q', y) <= Owed(heap, q, y)
    decreases Length(heap, q)
  {
    hide Finite, Walkable, Owed, Length, Parks, Reports;
    if q == [] {
    } else if |q| > space {
      RoundConserves(heap, emit, q, space, y);
    } else {
      var o := Reports(emit, q);
      ParksShorten(heap, q);
      VisitsConserve(heap, emit, q, y);
      DrainConserves(heap, emit, Parks(heap, q), space - |o|, y);
      TimesConcat(o, Drain(heap, emit, Parks(heap, q), space - |o|).0, y);
    }
  }

  /** With room for the whole queue a call makes progress; if it reports nothing, nothing
      is left. */
  lemma {:induction false} DrainProgress(heap: Heap, emit: Probe -> bool, q: seq<Probe>, space: nat)
    requires Walkable(heap, q)
    ensures Length(heap, Drain(heap, emit, q, space).1) <= Length(heap, q)
    ensures q != [] && space > 0 ==> Length(heap, Drain(heap, emit, q, space).1) < Length(heap, q)
    ensures |q| <= space && Drain(heap, emit, q, space).0 == [] ==> Drain(heap, emit, q, space).1 == []
    decreases Length(heap, q)
  {
    hide Finite, Walkable, Length, Parks, Reports;
    if q == [] {
    } else if |q| > space {
      RoundShortens(heap, emit, q, space);
    } else {
      ParksShorten(heap, q);
      DrainProgress(heap, emit, Parks(heap, q), space - |Reports(emit, q)|);
    }
  }
}
