/** The vectorised plan of query 1.1: HashJoin, Project and FixedAggr over the probe side, one batch at
    a time. The join pulls its vectors from the Select, whose buffers and pointers stay on a vector
    until all batches of it are delivered. */
module Q11Plan {
  import opened Bits
  import opened Hashmap
  import opened ProbeQueue
  import opened JoinSpec
  import opened HashJoin
  import opened BuildSide
  import opened Primitives
  import opened Q11
  import opened Q11Probe
  import Scans

  // ------------------------------------------------------------- vectors

  /** A vector as the join gets it from the Select: which tuples of the table it selects. */
  ghost predicate FromTable(lo: Lineorder, vector: Vector<int>, at: nat) {
    forall j :: 0 <= j < |vector.sel| ==>
      && at + vector.sel[j] < |lo.orderdate| && vector.sel[j] < |vector.keys|
      && vector.keys[vector.sel[j]] == lo.orderdate[at + vector.sel[j]]
  }

  /** All selected tuples, vector by vector. */
  ghost function Selected(vectors: seq<Vector<int>>, offsets: seq<nat>): seq<nat>
    requires |vectors| == |offsets|
  {
    if vectors == [] then []
    else
      var n := |vectors| - 1;
      Selected(vectors[..n], offsets[..n]) + Tuples(offsets[n], vectors[n].sel)
  }

  lemma SelectedMore(vectors: seq<Vector<int>>, offsets: seq<nat>, vector: Vector<int>, at: nat)
    requires |vectors| == |offsets|
    ensures Selected(vectors + [vector], offsets + [at]) == Selected(vectors, offsets) + Tuples(at, vector.sel)
  {
    assert (vectors + [vector])[..|vectors|] == vectors && (offsets + [at])[..|vectors|] == offsets;
  }

  lemma DeliveredMore(lo: Lineorder, c: Constants, vectors: seq<Vector<int>>, offsets: seq<nat>, vector: Vector<int>,
                      seen: nat, at: nat, len: nat)
    requires |vectors| == |offsets| && seen <= at
    requires Selected(vectors, offsets) == Passing(WantedFrom(lo, c, 0), Range(0, seen))
    requires Passing(WantedFrom(lo, c, 0), Range(seen, at)) == []
    requires vector.sel == Passing(WantedFrom(lo, c, at), Upto(len))
    ensures Selected(vectors + [vector], offsets + [at]) == Passing(WantedFrom(lo, c, 0), Range(0, at + len))
  {
    hide Passing, Wanted, WantedFrom, Selected, Range;
    TuplesPass(lo, c, at, len);
    PassRange(lo, c, 0, seen, at);
    PassRange(lo, c, 0, at, at + len);
    SelectedMore(vectors, offsets, vector, at);
  }

  lemma NothingSelected()
    ensures Selected([], []) == []
  {
  }

  // -------------------------------------------------------------- the plan

  /** What a match adds. */
  ghost function MatchPrice(lo: Lineorder, vector: Vector<int>, at: nat, y: Probe): int {
    if y.id < |vector.sel| then Price(lo, at + vector.sel[y.id]) else 0
  }

  ghost function BatchTotal(lo: Lineorder, vector: Vector<int>, at: nat, s: seq<Probe>): int {
    if s == [] then 0
    else BatchTotal(lo, vector, at, s[..|s| - 1]) + MatchPrice(lo, vector, at, s[|s| - 1])
  }

  ghost function LogTotal(lo: Lineorder, vectors: seq<Vector<int>>, offsets: seq<nat>, log: seq<seq<Probe>>): int
    requires |vectors| == |offsets| == |log|
  {
    if log == [] then 0
    else
      var n := |log| - 1;
      LogTotal(lo, vectors[..n], offsets[..n], log[..n]) + BatchTotal(lo, vectors[n], offsets[n], log[n])
  }

  lemma {:induction false} BatchTotalConcat(lo: Lineorder, vector: Vector<int>, at: nat, a: seq<Probe>, b: seq<Probe>)
    ensures BatchTotal(lo, vector, at, a + b) == BatchTotal(lo, vector, at, a) + BatchTotal(lo, vector, at, b)
  {
    if b == [] {
      assert a + b == a;
    } else {
      assert (a + b)[..|a + b| - 1] == a + b[..|b| - 1];
      BatchTotalConcat(lo, vector, at, a, b[..|b| - 1]);
    }
  }

  lemma {:induction false} LogTotalUpdate(lo: Lineorder, vectors: seq<Vector<int>>, offsets: seq<nat>,
                                         log: seq<seq<Probe>>, v: nat, out: seq<Probe>)
    requires |vectors| == |offsets| == |log| && v < |log|
    ensures LogTotal(lo, vectors, offsets, log[v := log[v] + out]) ==
            LogTotal(lo, vectors, offsets, log) + BatchTotal(lo, vectors[v], offsets[v], out)
  {
    var n := |log| - 1;
    var log' := log[v := log[v] + out];
    if v == n {
      assert log'[..n] == log[..n];
      BatchTotalConcat(lo, vectors[v], offsets[v], log[v], out);
    } else {
      assert log'[..n] == log[..n][v := log[v] + out];
      LogTotalUpdate(lo, vectors[..n], offsets[..n], log[..n], v, out);
    }
  }

  /** The projection of a batch, added up. */
  lemma {:induction false} ProjectedTotal(lo: Lineorder, vector: Vector<int>, at: nat, out: seq<Probe>,
                                          values: seq<int>)
    requires |values| == |out|
    requires forall i :: 0 <= i < |out| ==> values[i] == MatchPrice(lo, vector, at, out[i])
    ensures Total(values) == BatchTotal(lo, vector, at, out)
  {
    if out != [] { ProjectedTotal(lo, vector, at, out[..|out| - 1], values[..|out| - 1]); }
  }

  // --------------------------------------------------- what the matches add

  function CountId(s: seq<Probe>, id: nat): nat {
    if s == [] then 0 else (if s[0].id == id then 1 else 0) + CountId(s[1..], id)
  }

  lemma {:induction false} NoneOfId(s: seq<Probe>, id: nat)
    requires forall y: Probe :: y.id == id ==> Times(s, y) == 0
    ensures CountId(s, id) == 0
  {
    if s != [] {
      assert Times(s, s[0]) > 0;
      forall y: Probe | y.id == id ensures Times(s[1..], y) == 0 {
        assert Times(s, y) == 0;
      }
      NoneOfId(s[1..], id);
    }
  }

  lemma {:induction false} OneOfId(s: seq<Probe>, id: nat, y0: Probe)
    requires y0.id == id && forall y: Probe :: y.id == id ==> Times(s, y) == if y == y0 then 1 else 0
    ensures CountId(s, id) == 1
  {
    assert Times(s, y0) == 1;
    if s[0].id == id {
      assert Times(s, s[0]) > 0;
      forall y: Probe | y.id == id ensures Times(s[1..], y) == 0 {
        assert Times(s, y) == if y == y0 then 1 else 0;
      }
      NoneOfId(s[1..], id);
    } else {
      forall y: Probe | y.id == id ensures Times(s[1..], y) == if y == y0 then 1 else 0 {
        assert Times(s, y) == if y == y0 then 1 else 0;
      }
      OneOfId(s[1..], id, y0);
    }
  }

  /** BatchTotal of the matches of the first n tuples of the vector. */
  ghost function Below(lo: Lineorder, vector: Vector<int>, at: nat, s: seq<Probe>, n: nat): int {
    if s == [] then 0
    else (if s[0].id < n then MatchPrice(lo, vector, at, s[0]) else 0) + Below(lo, vector, at, s[1..], n)
  }

  lemma {:induction false} BelowStep(lo: Lineorder, vector: Vector<int>, at: nat, s: seq<Probe>, n: nat)
    requires n < |vector.sel|
    ensures Below(lo, vector, at, s, n + 1) ==
            Below(lo, vector, at, s, n) + CountId(s, n) * Price(lo, at + vector.sel[n])
  {
    if s != [] {
      BelowStep(lo, vector, at, s[1..], n);
      var k, x: int := CountId(s[1..], n), Price(lo, at + vector.sel[n]);
      assert (1 + k) * x == x + k * x;
    }
  }

  lemma {:induction false} BelowNone(lo: Lineorder, vector: Vector<int>, at: nat, s: seq<Probe>)
    ensures Below(lo, vector, at, s, 0) == 0
  {
    if s != [] { BelowNone(lo, vector, at, s[1..]); }
  }

  lemma {:induction false} BelowAll(lo: Lineorder, vector: Vector<int>, at: nat, s: seq<Probe>, n: nat)
    requires forall j :: 0 <= j < |s| ==> s[j].id < n
    ensures Below(lo, vector, at, s, n) == BatchTotal(lo, vector, at, s)
  {
    if s != [] {
      BelowAll(lo, vector, at, s[1..], n);
      BatchTotalConcat(lo, vector, at, [s[0]], s[1..]);
      assert s == [s[0]] + s[1..];
      assert [s[0]][..0] == [];
      assert BatchTotal(lo, vector, at, [s[0]]) == MatchPrice(lo, vector, at, s[0]);
    }
  }

  ghost function Shares(lo: Lineorder, dates: set<int>, tuples: seq<nat>): int {
    if tuples == [] then 0
    else Shares(lo, dates, tuples[..|tuples| - 1]) + Share(lo, dates, tuples[|tuples| - 1])
  }

  lemma {:induction false} SharesConcat(lo: Lineorder, dates: set<int>, a: seq<nat>, b: seq<nat>)
    ensures Shares(lo, dates, a + b) == Shares(lo, dates, a) + Shares(lo, dates, b)
  {
    if b == [] {
      assert a + b == a;
    } else {
      assert (a + b)[..|a + b| - 1] == a + b[..|b| - 1];
      SharesConcat(lo, dates, a, b[..|b| - 1]);
    }
  }

  /** Every tuple of a vector is matched once if its date is selected, and else not at all. */
  lemma MatchesOfTuple(hj: Hashjoin<int>, log: seq<seq<Probe>>, dates: set<int>, v: nat, n: nat)
    requires hj.Static() && hj.Fed() && hj.ExactlyOnce(log) && BuildsDates(hj.work, hj.buildKeys, dates)
    requires v < |hj.vectors| && n < |hj.vectors[v].sel|
    requires hj.vectors[v].sel[n] < |hj.vectors[v].keys| && n < |hj.vectors[v].hashes|
    ensures CountId(log[v], n) == if hj.vectors[v].keys[hj.vectors[v].sel[n]] in dates then 1 else 0
  {
    hide Table.Holds;
    var key := hj.vectors[v].keys[hj.vectors[v].sel[n]];
    if key in dates {
      var e :| e in hj.work && hj.buildKeys[e] == key;
      forall y: Probe | y.id == n ensures Times(log[v], y) == if y == Probe(n, e) then 1 else 0 {
        assert hj.KeyMatch(hj.vectors, v, y) <==> y == Probe(n, e);
      }
      OneOfId(log[v], n, Probe(n, e));
    } else {
      forall y: Probe | y.id == n ensures Times(log[v], y) == 0 {
        assert !hj.KeyMatch(hj.vectors, v, y);
      }
      NoneOfId(log[v], n);
    }
  }

  lemma {:induction false} VectorShares(hj: Hashjoin<int>, log: seq<seq<Probe>>, lo: Lineorder, dates: set<int>,
                                       at: nat, v: nat, n: nat)
    requires hj.Static() && hj.Fed() && hj.ExactlyOnce(log) && BuildsDates(hj.work, hj.buildKeys, dates)
    requires v < |hj.vectors| && FromTable(lo, hj.vectors[v], at) && n <= |hj.vectors[v].sel|
    requires |hj.vectors[v].hashes| == |hj.vectors[v].sel|
    ensures Below(lo, hj.vectors[v], at, log[v], n) == Shares(lo, dates, Tuples(at, hj.vectors[v].sel[..n]))
  {
    hide Table.Holds, Hashjoin.ExactlyOnce, Hashjoin.Static, BuildsDates, Price, Below, CountId, Shares, Tuples;
    LogSize(hj, log);
    var vector := hj.vectors[v];
    if n == 0 {
      BelowNone(lo, vector, at, log[v]);
      SharesNone(lo, dates, at, vector.sel);
    } else {
      VectorShares(hj, log, lo, dates, at, v, n - 1);
      BelowStep(lo, vector, at, log[v], n - 1);
      MatchesOfTuple(hj, log, dates, v, n - 1);
      SharesStep(lo, dates, at, vector.sel, n);
    }
  }

  lemma SharesNone(lo: Lineorder, dates: set<int>, at: nat, sel: seq<nat>)
    ensures Shares(lo, dates, Tuples(at, sel[..0])) == 0 && Shares(lo, dates, []) == 0
  {
  }

  lemma LogSize(hj: Hashjoin<int>, log: seq<seq<Probe>>)
    requires hj.Static() && hj.Fed() && hj.ExactlyOnce(log)
    ensures |log| == |hj.vectors|
  {
  }

  lemma SharesStep(lo: Lineorder, dates: set<int>, at: nat, sel: seq<nat>, n: nat)
    requires 0 < n <= |sel|
    ensures Shares(lo, dates, Tuples(at, sel[..n])) ==
            Shares(lo, dates, Tuples(at, sel[..n - 1])) + Share(lo, dates, at + sel[n - 1])
  {
    assert Tuples(at, sel[..n])[..n - 1] == Tuples(at, sel[..n - 1]);
  }

  lemma VectorTotal(hj: Hashjoin<int>, log: seq<seq<Probe>>, lo: Lineorder, dates: set<int>, at: nat, v: nat)
    requires hj.Static() && hj.Fed() && hj.ExactlyOnce(log) && BuildsDates(hj.work, hj.buildKeys, dates)
    requires v < |hj.vectors| && FromTable(lo, hj.vectors[v], at)
    ensures BatchTotal(lo, hj.vectors[v], at, log[v]) == Shares(lo, dates, Tuples(at, hj.vectors[v].sel))
  {
    hide Table.Holds;
    var vector := hj.vectors[v];
    assert hj.Fits(vector);
    forall j | 0 <= j < |log[v]| ensures log[v][j].id < |vector.sel| {
      TimesMember(log[v], j);
      assert hj.KeyMatch(hj.vectors, v, log[v][j]);
    }
    BelowAll(lo, vector, at, log[v], |vector.sel|);
    VectorShares(hj, log, lo, dates, at, v, |vector.sel|);
    assert vector.sel[..|vector.sel|] == vector.sel;
  }

  lemma {:induction false} LogShares(hj: Hashjoin<int>, log: seq<seq<Probe>>, lo: Lineorder, dates: set<int>,
                                    offsets: seq<nat>, k: nat)
    requires hj.Static() && hj.Fed() && hj.ExactlyOnce(log) && BuildsDates(hj.work, hj.buildKeys, dates)
    requires |offsets| == |hj.vectors| == |log| && k <= |log|
    requires forall v :: 0 <= v < |hj.vectors| ==> FromTable(lo, hj.vectors[v], offsets[v])
    ensures LogTotal(lo, hj.vectors[..k], offsets[..k], log[..k]) ==
            Shares(lo, dates, Selected(hj.vectors[..k], offsets[..k]))
  {
    hide Table.Holds, Hashjoin.ExactlyOnce, Hashjoin.Static, BuildsDates, BatchTotal, FromTable, Tuples,
      LogTotal, Selected, Shares;
    TotalsAt(lo, hj.vectors, offsets, log, k);
    if k > 0 {
      LogShares(hj, log, lo, dates, offsets, k - 1);
      VectorTotal(hj, log, lo, dates, offsets[k - 1], k - 1);
      SharesConcat(lo, dates, Selected(hj.vectors[..k - 1], offsets[..k - 1]),
                   Tuples(offsets[k - 1], hj.vectors[k - 1].sel));
    } else {
      SharesNone(lo, dates, 0, []);
    }
  }

  lemma TotalsAt(lo: Lineorder, vectors: seq<Vector<int>>, offsets: seq<nat>, log: seq<seq<Probe>>, k: nat)
    requires |vectors| == |offsets| == |log| && k <= |log|
    ensures k == 0 ==>
      LogTotal(lo, vectors[..k], offsets[..k], log[..k]) == 0 && Selected(vectors[..k], offsets[..k]) == []
    ensures k > 0 ==>
      && LogTotal(lo, vectors[..k], offsets[..k], log[..k]) ==
           LogTotal(lo, vectors[..k - 1], offsets[..k - 1], log[..k - 1]) +
           BatchTotal(lo, vectors[k - 1], offsets[k - 1], log[k - 1])
      && Selected(vectors[..k], offsets[..k]) ==
           Selected(vectors[..k - 1], offsets[..k - 1]) + Tuples(offsets[k - 1], vectors[k - 1].sel)
  {
    hide BatchTotal;
    if k > 0 {
      assert vectors[..k][..k - 1] == vectors[..k - 1] && offsets[..k][..k - 1] == offsets[..k - 1];
      assert log[..k][..k - 1] == log[..k - 1];
    }
  }

  lemma {:induction false} SharesRevenue(lo: Lineorder, c: Constants, dates: set<int>, n: nat)
    ensures Shares(lo, dates, Passing(WantedFrom(lo, c, 0), Range(0, n))) == Revenue(lo, c, dates, 0, n)
  {
    hide Wanted, Share, Passing, Shares, Range;
    if n > 0 {
      SharesRevenue(lo, c, dates, n - 1);
      PassRangeStep(WantedFrom(lo, c, 0), 0, n - 1);
      SharesLast(lo, dates, Passing(WantedFrom(lo, c, 0), Range(0, n - 1)), n - 1);
    } else {
      NothingPasses(lo, c, 0);
      SharesLast(lo, dates, [], 0);
    }
  }

  lemma SharesLast(lo: Lineorder, dates: set<int>, tuples: seq<nat>, t: nat)
    ensures Shares(lo, dates, tuples + [t]) == Shares(lo, dates, tuples) + Share(lo, dates, t)
    ensures tuples + [] == tuples && Shares(lo, dates, []) == 0
  {
    assert (tuples + [t])[..|tuples|] == tuples;
  }

  /** A complete run adds up to the revenue. */
  lemma LogRevenue(hj: Hashjoin<int>, log: seq<seq<Probe>>, lo: Lineorder, c: Constants, dates: set<int>,
                   offsets: seq<nat>)
    requires hj.Static() && hj.Fed() && hj.ExactlyOnce(log) && BuildsDates(hj.work, hj.buildKeys, dates)
    requires |offsets| == |hj.vectors| == |log|
    requires forall v :: 0 <= v < |hj.vectors| ==> FromTable(lo, hj.vectors[v], offsets[v])
    requires Selected(hj.vectors, offsets) == Passing(WantedFrom(lo, c, 0), Range(0, |lo.orderdate|))
    ensures LogTotal(lo, hj.vectors, offsets, log) == Revenue(lo, c, dates, 0, |lo.orderdate|)
  {
    hide Hashjoin.Static, Hashjoin.Fed, Hashjoin.ExactlyOnce, BuildsDates, FromTable, Selected, Passing, LogTotal,
      Revenue, Shares;
    LogShares(hj, log, lo, dates, offsets, |log|);
    assert hj.vectors[..|log|] == hj.vectors && offsets[..|log|] == offsets && log[..|log|] == log;
    SharesRevenue(lo, c, dates, |lo.orderdate|);
  }

  // ---------------------------------------------------------- is there a match

  /** Something has been delivered. */
  ghost predicate Any(log: seq<seq<Probe>>) {
    exists v :: 0 <= v < |log| && log[v] != []
  }

  lemma {:induction false} InSelected(vectors: seq<Vector<int>>, offsets: seq<nat>, v: nat, id: nat)
    requires |vectors| == |offsets| && v < |vectors| && id < |vectors[v].sel|
    ensures offsets[v] + vectors[v].sel[id] in Selected(vectors, offsets)
  {
    var n := |vectors| - 1;
    if v < n {
      InSelected(vectors[..n], offsets[..n], v, id);
    } else {
      assert Tuples(offsets[n], vectors[n].sel)[id] == offsets[v] + vectors[v].sel[id];
    }
  }

  lemma {:induction false} WhereSelected(vectors: seq<Vector<int>>, offsets: seq<nat>, i: nat) returns (v: nat, id: nat)
    requires |vectors| == |offsets| && i in Selected(vectors, offsets)
    ensures v < |vectors| && id < |vectors[v].sel| && offsets[v] + vectors[v].sel[id] == i
  {
    var n := |vectors| - 1;
    if i in Selected(vectors[..n], offsets[..n]) {
      v, id := WhereSelected(vectors[..n], offsets[..n], i);
    } else {
      v := n;
      id :| id < |vectors[n].sel| && Tuples(offsets[n], vectors[n].sel)[id] == i;
    }
  }

  lemma DeliveredMatches(hj: Hashjoin<int>, log: seq<seq<Probe>>, lo: Lineorder, c: Constants, dates: set<int>,
                         offsets: seq<nat>, v: nat)
    requires hj.ExactlyOnce(log) && BuildsDates(hj.work, hj.buildKeys, dates) && |offsets| == |hj.vectors| == |log|
    requires v < |log| && log[v] != [] && FromTable(lo, hj.vectors[v], offsets[v])
    requires Selected(hj.vectors, offsets) == Passing(WantedFrom(lo, c, 0), Range(0, |lo.orderdate|))
    ensures HasMatch(lo, c, dates)
  {
    hide Selected, Passing;
    PassingMembers(WantedFrom(lo, c, 0), Range(0, |lo.orderdate|));
    var y := log[v][0];
    TimesMember(log[v], 0);
    assert hj.KeyMatch(hj.vectors, v, y);
    InSelected(hj.vectors, offsets, v, y.id);
    var i := offsets[v] + hj.vectors[v].sel[y.id];
    assert WantedFrom(lo, c, 0)(i);
    assert lo.orderdate[i] == hj.buildKeys[y.entry];
  }

  lemma MatchDelivered(hj: Hashjoin<int>, log: seq<seq<Probe>>, lo: Lineorder, c: Constants, dates: set<int>,
                       offsets: seq<nat>, i: nat)
    requires hj.Static() && hj.Fed() && hj.ExactlyOnce(log) && BuildsDates(hj.work, hj.buildKeys, dates)
    requires |offsets| == |hj.vectors| == |log|
    requires forall v :: 0 <= v < |hj.vectors| ==> FromTable(lo, hj.vectors[v], offsets[v])
    requires Selected(hj.vectors, offsets) == Passing(WantedFrom(lo, c, 0), Range(0, |lo.orderdate|))
    requires i < |lo.orderdate| && Wanted(lo, c, i) && lo.orderdate[i] in dates
    ensures Any(log)
  {
    hide Table.Holds, Selected, Passing, Hashjoin.Static, Hashjoin.ExactlyOnce, BuildsDates;
    PassingMembers(WantedFrom(lo, c, 0), Range(0, |lo.orderdate|));
    assert Range(0, |lo.orderdate|)[i] == i;
    assert WantedFrom(lo, c, 0)(i);
    var v, id := WhereSelected(hj.vectors, offsets, i);
    assert hj.Fits(hj.vectors[v]);
    LogSize(hj, log);
    MatchesOfTuple(hj, log, dates, v, id);
    assert log[v] != [];
  }

  /** A complete run delivers something exactly if some tuple contributes to the answer. */
  lemma AnyIsMatch(hj: Hashjoin<int>, log: seq<seq<Probe>>, lo: Lineorder, c: Constants, dates: set<int>,
                   offsets: seq<nat>)
    requires hj.Static() && hj.Fed() && hj.ExactlyOnce(log) && BuildsDates(hj.work, hj.buildKeys, dates)
    requires |offsets| == |hj.vectors| == |log|
    requires forall v :: 0 <= v < |hj.vectors| ==> FromTable(lo, hj.vectors[v], offsets[v])
    requires Selected(hj.vectors, offsets) == Passing(WantedFrom(lo, c, 0), Range(0, |lo.orderdate|))
    ensures Any(log) <==> HasMatch(lo, c, dates)
  {
    hide Selected, Passing, Hashjoin.Static, Hashjoin.Fed, Hashjoin.ExactlyOnce, BuildsDates, FromTable, Wanted;
    if Any(log) {
      var v: nat :| v < |log| && log[v] != [];
      DeliveredMatches(hj, log, lo, c, dates, offsets, v);
    }
    if HasMatch(lo, c, dates) {
      var i: nat :| i < |lo.orderdate| && Wanted(lo, c, i) && lo.orderdate[i] in dates;
      MatchDelivered(hj, log, lo, c, dates, offsets, i);
    }
  }

  // -------------------------------------------------------------- the plan

  lemma NothingTotal(lo: Lineorder, vector: Vector<int>, at: nat)
    ensures BatchTotal(lo, vector, at, []) == 0
  {
  }

  lemma FetchedTotal(lo: Lineorder, vectors: seq<Vector<int>>, offsets: seq<nat>, log: seq<seq<Probe>>,
                     vector: Vector<int>, at: nat)
    requires |vectors| == |offsets| == |log|
    ensures LogTotal(lo, vectors + [vector], offsets + [at], log + [[]]) == LogTotal(lo, vectors, offsets, log)
    ensures Any(log + [[]]) <==> Any(log)
  {
    hide BatchTotal;
    NothingTotal(lo, vector, at);
    assert (vectors + [vector])[..|log|] == vectors && (offsets + [at])[..|log|] == offsets;
    assert (log + [[]])[..|log|] == log;
    if Any(log) {
      var v :| 0 <= v < |log| && log[v] != [];
      assert (log + [[]])[v] != [];
    }
  }

  class Plan {
    const probe: LineorderSelect
    const hj: Hashjoin<int>
    const hashOf: int -> Hash
    const resultProject: array<int>
    /** Where the column pointers stood for each vector, what has been delivered of it, and whether the
        probe side has ended. */
    ghost var offsets: seq<nat>
    ghost var log: seq<seq<Probe>>
    ghost var ended: bool

    constructor (probe: LineorderSelect, hj: Hashjoin<int>, hashOf: int -> Hash)
      ensures this.probe == probe && this.hj == hj && this.hashOf == hashOf
      ensures fresh(resultProject) && resultProject.Length == hj.batchSize
      ensures offsets == [] && log == [] && !ended
    {
      this.probe, this.hj, this.hashOf, offsets, log, ended := probe, hj, hashOf, [], [], false;
      resultProject := new int[hj.batchSize];
    }

    /** Operators that fit together, with buffers of their own. */
    ghost predicate Wired() {
      && hj.batchSize == probe.scan.vecSize == resultProject.Length
      && hj.join.UsesSel() && hj.hashOf == hashOf
      && {hj.followupIds, hj.followupEntries, hj.buildMatches, hj.probeMatches} !!
         {probe.sel.qty, probe.sel.low, probe.sel.high}
      && probe.scan.columns != resultProject
      && probe.scan.columns as object !in {hj.followupIds, hj.followupEntries, hj.buildMatches, hj.probeMatches}
      && resultProject as object !in {hj.followupIds, hj.followupEntries, hj.buildMatches, hj.probeMatches}
      && resultProject as object !in {probe.sel.qty, probe.sel.low, probe.sel.high}
    }

    /** As long as a vector is joined, its selection vector is in the Select's buffer, and the column
        pointers stand where it begins. */
    ghost predicate OnVector()
      reads this`offsets, hj, probe.scan, probe.sel.high
    {
      hj.vectors != [] ==>
        && |offsets| == |hj.vectors| && !probe.scan.needsInit && offsets[|offsets| - 1] == probe.scan.lastOffset
        && |hj.current.sel| <= probe.sel.high.Length && hj.current.sel == probe.sel.high[..|hj.current.sel|]
    }

    /** The vectors so far select the wanted tuples up to where the scan stands. */
    ghost predicate Covered(vectors: seq<Vector<int>>, offsets: seq<nat>, upTo: nat) {
      && |offsets| == |vectors|
      && (forall v :: 0 <= v < |vectors| ==> FromTable(probe.lo, vectors[v], offsets[v]))
      && Selected(vectors, offsets) == Passing(WantedFrom(probe.lo, probe.c, 0), Range(0, upTo))
    }

    ghost predicate Joined()
      reads this`log, hj, hj.followupIds, hj.followupEntries
    {
      && hj.Valid() && hj.Sound() && Walkable(hj.ht.heap, hj.Todo()) && |log| == |hj.vectors|
      && hj.Accounted(hj.vectors, log, hj.Todo())
    }

    ghost predicate Valid()
      reads this, hj, hj.followupIds, hj.followupEntries, probe.scan, probe.scan.shared, probe.scan.columns,
            probe.sel.high
    {
      && Wired() && Joined() && probe.Standing()
      && Covered(hj.vectors, offsets, if ended then probe.scan.nrTuples else Seen(probe.scan))
      && (!ended ==> probe.Valid() && OnVector())
    }

    /** The hashes of the selected keys, the selection vector, and the key column from its pointer on. */
    method Hashed(n: nat) returns (vector: Vector<int>)
      requires probe.Standing() && 0 < n <= probe.scan.vecSize && probe.scan.lastOffset < probe.scan.nrTuples && Wired()
      requires Selects(probe.scan, probe.lo, probe.c, probe.sel.high[..n])
      ensures vector.sel == probe.sel.high[..n] && hj.Fits(vector) && FromTable(probe.lo, vector, probe.scan.lastOffset)
    {
      hide Passing, WantedFrom, Scans.Scan.Valid, Registered;
      ghost var len := Scans.Min(probe.scan.nrTuples - probe.scan.lastOffset, probe.scan.vecSize);
      Narrowed(WantedFrom(probe.lo, probe.c, probe.scan.lastOffset), Upto(len), probe.sel.high[..n], len);
      var sel := probe.sel.high[..n];
      var at1 := probe.At(ORDERDATE_HASH);
      var at2 := probe.At(ORDERDATE_KEY);
      var dates := probe.lo.orderdate;
      vector := Vector(seq(n, j requires 0 <= j < |sel| && at1 + sel[j] < |dates| => hashOf(dates[at1 + sel[j]])), sel,
                       dates[at2..]);
    }

    /** What the matches delivered so far add up to. */
    ghost function Delivered(): int
      requires |hj.vectors| == |offsets| == |log|
      reads this`offsets, this`log, hj`vectors
    {
      LogTotal(probe.lo, hj.vectors, offsets, log)
    }

    /** The next batch of the vector at hand: neither the Select's buffer nor a column pointer moves. */
    method Batch() returns (n: nat, ghost out: seq<Probe>)
      requires Valid() && !ended
      modifies this`log, hj`nextProbe, hj`followup, hj`followupWrite, hj.followupIds, hj.followupEntries,
               hj.buildMatches, hj.probeMatches
      ensures Valid() && !ended && n == |out| <= hj.batchSize && (n == 0 ==> !hj.Probing())
      ensures n > 0 ==> hj.vectors != [] && hj.Wrote(out, hj.current.sel) && hj.Effort() < old(hj.Effort())
      ensures Delivered() ==
              old(Delivered()) + if n > 0 then BatchTotal(probe.lo, hj.current, probe.scan.lastOffset, out) else 0
      ensures Any(log) <==> n > 0 || old(Any(log))
    {
      hide Hashjoin.Valid, Hashjoin.Sound, Hashjoin.Todo, Hashjoin.Accounted, Hashjoin.Effort, Walkable, LogTotal,
        BatchTotal, Covered, LineorderSelect.Valid, LineorderSelect.Standing, Hashjoin.Fits, Hashjoin.AllRows;
      hj.ValidStatic();
      n, out := hj.Deliver(log);
      if n > 0 {
        LogTotalUpdate(probe.lo, hj.vectors, offsets, log, |log| - 1, out);
        EnteredAny(log, out);
      }
      log := hj.Entered(log, out);
    }

    /** Another vector from the Select, when the one before is done with. */
    method Pull() returns (more: bool)
      requires Valid() && !ended && !hj.Probing()
      modifies this`offsets, this`log, this`ended, hj`current, hj`vectors, hj`nextProbe, hj`numProbes
      modifies probe.scan`needsInit, probe.scan`vecInChunk, probe.scan`currentChunk, probe.scan`lastOffset,
               probe.scan.shared, probe.scan.columns, probe.sel.qty, probe.sel.low, probe.sel.high
      ensures Valid() && ended == !more && hj.Probing() == more
      ensures Delivered() == old(Delivered()) && (Any(log) <==> old(Any(log)))
      ensures more ==> Seen(probe.scan) > old(Seen(probe.scan))
    {
      hide Hashjoin.Valid, Hashjoin.Sound, Hashjoin.Todo, Hashjoin.Accounted, Walkable, LogTotal, BatchTotal,
        Hashjoin.Fits, Hashjoin.AllRows, FromTable, Selected, Passing, WantedFrom, Range, Registered, Scans.Scan.Valid;
      ghost var seen := Seen(probe.scan);
      var n := probe.Next();
      more := n > 0;
      if more {
        var vector := Hashed(n);
        ghost var len := Scans.Min(probe.scan.nrTuples - probe.scan.lastOffset, probe.scan.vecSize);
        DeliveredMore(probe.lo, probe.c, hj.vectors, offsets, vector, seen, probe.scan.lastOffset, len);
        FetchedTotal(probe.lo, hj.vectors, offsets, log, vector, probe.scan.lastOffset);
        hj.FetchNext(vector, log);
        offsets, log := offsets + [probe.scan.lastOffset], log + [[]];
      } else {
        PassRange(probe.lo, probe.c, 0, seen, probe.scan.nrTuples);
        ended := true;
      }
    }

    /** Hashjoin::next. Only when all of a vector is delivered is the next one pulled from the Select. */
    method JoinNext() returns (n: nat, ghost out: seq<Probe>)
      requires Valid() && !ended
      modifies this`offsets, this`log, this`ended, hj`current, hj`vectors, hj`nextProbe, hj`numProbes, hj`followup,
               hj`followupWrite, hj.followupIds, hj.followupEntries, hj.buildMatches, hj.probeMatches
      modifies probe.scan`needsInit, probe.scan`vecInChunk, probe.scan`currentChunk, probe.scan`lastOffset,
               probe.scan.shared, probe.scan.columns, probe.sel.qty, probe.sel.low, probe.sel.high
      ensures Valid() && n == |out| <= hj.batchSize && ended == (n == 0) && (n == 0 ==> !hj.Probing())
      ensures n > 0 ==> hj.vectors != [] && hj.Wrote(out, hj.current.sel)
      ensures Delivered() ==
              old(Delivered()) + if n > 0 then BatchTotal(probe.lo, hj.current, probe.scan.lastOffset, out) else 0
      ensures Any(log) <==> n > 0 || old(Any(log))
      ensures n > 0 ==>
        Seen(probe.scan) > old(Seen(probe.scan)) ||
        (Seen(probe.scan) == old(Seen(probe.scan)) && hj.Effort() < old(hj.Effort()))
    {
      hide Valid, Hashjoin.Valid, Hashjoin.Effort, LogTotal, BatchTotal, Hashjoin.Wrote, Delivered, Any;
      ValidFacts();
      n, out := Batch();
      ValidFacts();
      while n == 0
        invariant Valid() && hj.Valid() && Counted() && !ended && n == |out| <= hj.batchSize
        invariant (n == 0 ==> !hj.Probing())
        invariant n > 0 ==> hj.vectors != [] && hj.Wrote(out, hj.current.sel)
        invariant Delivered() ==
                  old(Delivered()) + if n > 0 then BatchTotal(probe.lo, hj.current, probe.scan.lastOffset, out) else 0
        invariant Any(log) <==> n > 0 || old(Any(log))
        invariant Seen(probe.scan) > old(Seen(probe.scan)) ||
          (Seen(probe.scan) == old(Seen(probe.scan)) && (n > 0 ==> hj.Effort() < old(hj.Effort())))
        decreases probe.scan.nrTuples - Seen(probe.scan), n == 0
      {
        var more := Pull();
        if !more { return; }
        ValidFacts();
        n, out := Batch();
        ValidFacts();
      }
    }

    /** Project::next: prices and discounts of the matched rows, read through the column pointers as they
        stand. */
    method Project(n: nat, ghost out: seq<Probe>)
      requires Valid() && !ended && 0 < n == |out| <= hj.batchSize && hj.vectors != [] && hj.Wrote(out, hj.current.sel)
      modifies resultProject
      ensures Valid() && Total(resultProject[..n]) == BatchTotal(probe.lo, hj.current, probe.scan.lastOffset, out)
    {
      hide Hashjoin.Valid, Hashjoin.Sound, Hashjoin.Todo, Hashjoin.Accounted, Walkable, BatchTotal, Selected, Passing,
        WantedFrom, Range, Registered, Scans.Scan.Valid;
      var at1 := probe.At(EXTENDEDPRICE);
      var at2 := probe.At(DISCOUNT);
      OnRows(out);
      forall i | 0 <= i < n ensures hj.probeMatches[i] == hj.current.sel[out[i].id] { }
      ProjSelBoth(n, hj.probeMatches, resultProject, probe.lo.extendedprice, at1, probe.lo.discount, at2);
      ProjectedTotal(probe.lo, hj.current, at1, out, resultProject[..n]);
    }

    /** The matched rows are rows of the vector the pointers stand on. */
    lemma OnRows(out: seq<Probe>)
      requires Valid() && !ended && hj.vectors != [] && hj.Wrote(out, hj.current.sel)
      ensures FromTable(probe.lo, hj.current, probe.scan.lastOffset)
      ensures forall i :: 0 <= i < |out| ==> out[i].id < |hj.current.sel|
      ensures probe.lo.Valid()
    {
      hide Hashjoin.Sound, Hashjoin.Todo, Hashjoin.Accounted, Walkable, Selected, Passing, FromTable;
      hj.ValidStatic();
      assert FromTable(probe.lo, hj.vectors[|hj.vectors| - 1], offsets[|offsets| - 1]);
    }

    /** FixedAggr::next over Project over HashJoin. */
    method Aggregate() returns (found: nat, aggregator: int)
      requires Valid() && !ended && hj.vectors == []
      modifies resultProject
      modifies this`offsets, this`log, this`ended, hj`current, hj`vectors, hj`nextProbe, hj`numProbes, hj`followup,
               hj`followupWrite, hj.followupIds, hj.followupEntries, hj.buildMatches, hj.probeMatches
      modifies probe.scan`needsInit, probe.scan`vecInChunk, probe.scan`currentChunk, probe.scan`lastOffset,
               probe.scan.shared, probe.scan.columns, probe.sel.qty, probe.sel.low, probe.sel.high
      ensures Valid() && ended && !hj.Probing() && Counted()
      ensures aggregator == Delivered() && (found > 0 <==> Any(log))
    {
      hide Valid, Hashjoin.Valid, Hashjoin.Effort, LogTotal, BatchTotal, Hashjoin.Wrote, Delivered, Any;
      ValidFacts();
      NothingDelivered();
      found, aggregator := 0, 0;
      var n;
      ghost var out;
      n, out := JoinNext();
      ValidFacts();
      while n > 0
        invariant Valid() && hj.Valid() && Counted() && ended == (n == 0) && (n == 0 ==> !hj.Probing())
        invariant n == |out| <= hj.batchSize && (n > 0 ==> hj.vectors != [] && hj.Wrote(out, hj.current.sel))
        invariant Delivered() ==
                  aggregator + if n > 0 then BatchTotal(probe.lo, hj.current, probe.scan.lastOffset, out) else 0
        invariant Any(log) <==> found > 0 || n > 0
        decreases n > 0, probe.scan.nrTuples - Seen(probe.scan), hj.Effort()
      {
        Project(n, out);
        found, aggregator := AggrStaticPlus(n, aggregator, resultProject);
        n, out := JoinNext();
        ValidFacts();
      }
    }

    /** Before the first call. */
    lemma Initial()
      requires Wired() && hj.Valid() && hj.Sound() && !hj.Probing() && hj.vectors == []
      requires probe.Valid() && probe.scan.needsInit && offsets == [] && log == [] && !ended
      ensures Valid()
    {
      hide Hashjoin.Valid, Hashjoin.Sound, Hashjoin.Todo, Hashjoin.Accounted, Passing, WantedFrom, Registered;
      NothingPasses(probe.lo, probe.c, 0);
      NothingSelected();
      hj.NothingYet();
    }

    lemma NothingDelivered()
      requires Valid() && hj.vectors == []
      ensures Counted() && Delivered() == 0 && !Any(log)
    {
    }

    /** At the end the aggregator holds the answer, and something was aggregated exactly if some tuple
        contributes to it. */
    lemma Answered(dates: set<int>)
      requires Valid() && ended && !hj.Probing() && BuildsDates(hj.work, hj.buildKeys, dates)
      ensures Delivered() == Answer(probe.lo, probe.c, dates)
      ensures Any(log) <==> HasMatch(probe.lo, probe.c, dates)
    {
      hide BuildsDates, FromTable, Selected, Passing, LogTotal, Revenue, Range, Hashjoin.ExactlyOnce,
        Hashjoin.Accounted, Hashjoin.Todo, Hashjoin.Sound, Walkable;
      hj.ValidStatic();
      hj.AllDelivered(log);
      LogRevenue(hj, log, probe.lo, probe.c, dates, offsets);
      AnyIsMatch(hj, log, probe.lo, probe.c, dates, offsets);
    }

    ghost predicate Counted()
      reads this`offsets, this`log, hj`vectors
    {
      |hj.vectors| == |offsets| == |log|
    }

    lemma ValidFacts()
      requires Valid()
      ensures hj.Valid() && Counted() && Seen(probe.scan) <= probe.scan.nrTuples && Wired()
    {
    }
  }

  lemma EnteredAny(log: seq<seq<Probe>>, out: seq<Probe>)
    requires log != [] && out != []
    ensures Any(log[|log| - 1 := log[|log| - 1] + out])
  {
    var n := |log| - 1;
    assert log[n := log[n] + out][n] != [];
  }

  /** Scan and Select. */
  method NewProbe(lo: Lineorder, c: Constants, vecSize: nat, branchFree: bool, columns: array<int>)
    returns (probe: LineorderSelect)
    requires lo.Valid() && vecSize > 0 && columns.Length >= POINTERS
    ensures probe.Valid() && probe.scan.needsInit && probe.lo == lo && probe.c == c
    ensures probe.scan.columns == columns && probe.scan.vecSize == vecSize
    ensures fresh(probe) && fresh(probe.scan) && fresh(probe.scan.shared)
    ensures fresh(probe.sel.qty) && fresh(probe.sel.low) && fresh(probe.sel.high)
  {
    hide Registered, Scans.Scan.Aligned, Scans.Scan.Wired;
    var shared := new Scans.Shared();
    var scan := new Scans.Scan(shared, |lo.orderdate|, vecSize, columns);
    var addresses := Register(scan);
    var selQty, selLow, selHigh := new nat[vecSize], new nat[vecSize], new nat[vecSize];
    probe := new LineorderSelect(lo, c, branchFree, scan, Buffers(selQty, selLow, selHigh), addresses);
  }

  /** The operators of the plan, one on top of the other. */
  method GetQuery(lo: Lineorder, c: Constants, vecSize: nat, branchFree: bool, join: Algorithm, ht: Table,
                  ghost work: set<Word>,
                  buildKeys: map<Word, int>, hashOf: int -> Hash, columns: array<int>) returns (plan: Plan)
    requires lo.Valid() && vecSize > 0 && join.UsesSel() && columns.Length >= POINTERS && ht.Holds(work)
    requires forall e :: e in work ==> e in buildKeys && ht.heap[e].hash == hashOf(buildKeys[e])
    ensures plan.Valid() && !plan.ended && plan.hj.vectors == []
    ensures plan.probe.lo == lo && plan.probe.c == c && plan.hj.work == work && plan.hj.buildKeys == buildKeys
    ensures plan.probe.scan.columns == columns
    ensures fresh(plan) && fresh(plan.probe.scan) && fresh(plan.probe.scan.shared) && fresh(plan.hj)
    ensures fresh(plan.resultProject)
    ensures fresh(plan.hj.followupIds) && fresh(plan.hj.followupEntries)
    ensures fresh(plan.hj.buildMatches) && fresh(plan.hj.probeMatches)
    ensures fresh(plan.probe.sel.qty) && fresh(plan.probe.sel.low) && fresh(plan.probe.sel.high)
  {
    hide Table.Holds, LineorderSelect.Valid, LineorderSelect.Standing, Hashjoin.Valid, Hashjoin.Sound, Plan.Valid;
    var probe := NewProbe(lo, c, vecSize, branchFree, columns);
    var hj := new Hashjoin(ht, work, buildKeys, hashOf, join, vecSize);
    plan := new Plan(probe, hj, hashOf);
    plan.Initial();
  }

  /** q11_vectorwise on one worker. Without a selected date the join ends the stream at once. Whatever the
      vector size, whichever join function and whichever variant of the selections, the outcome is
      the same. */
  method VectorisedQ11(lo: Lineorder, c: Constants, d: DateTable, vecSize: nat, branchFree: bool, join: Algorithm,
                       alloc: seq<Word>, hashOf: int -> Hash, columns: array<int>) returns (outcome: Outcome)
    requires lo.Valid() && d.Valid() && |d.datekey| <= |alloc| && Addresses(alloc)
    requires vecSize > 0 && join.UsesSel() && columns.Length >= POINTERS
    modifies columns
    ensures outcome == VectorisedOutcome(lo, c, Dates(d))
  {
    hide Table.Holds, BuildsDates, Revenue, Dates, Plan.Valid, Plan.Delivered, Any, HasMatch, Addresses;
    var found, ht, keys;
    ghost var work;
    found, ht, work, keys := BuildDates(d, alloc, hashOf);
    if found == 0 {
      NoDates(lo, c);
      return NoRow;
    }
    BuiltKeys(work, keys, Dates(d));
    var plan := GetQuery(lo, c, vecSize, branchFree, join, ht, work, keys, hashOf, columns);
    var n, aggregator := plan.Aggregate();
    plan.Answered(Dates(d));
    outcome := if n > 0 then Row(aggregator) else NoRow;
  }

  lemma NoDates(lo: Lineorder, c: Constants)
    ensures !HasMatch(lo, c, {})
  {
  }

  lemma BuiltKeys(work: set<Word>, keys: map<Word, int>, dates: set<int>)
    requires BuildsDates(work, keys, dates)
    ensures work == keys.Keys
  {
  }

  /** Both plans come to the same exactly if some tuple contributes to the answer. */
  method BothPlans(lo: Lineorder, c: Constants, d: DateTable, vecSize: nat, branchFree: bool, join: Algorithm,
                   alloc: seq<Word>, hashOf: int -> Hash, columns: array<int>, cuts: seq<nat>)
    returns (fused: Outcome, vectorised: Outcome)
    requires CutsRange(cuts, |lo.orderdate|)
    requires lo.Valid() && d.Valid() && |d.datekey| <= |alloc| && Addresses(alloc)
    requires vecSize > 0 && join.UsesSel() && columns.Length >= POINTERS
    modifies columns
    ensures fused == vectorised <==> HasMatch(lo, c, Dates(d))
    ensures HasMatch(lo, c, Dates(d)) ==> fused == Row(Answer(lo, c, Dates(d)))
    ensures !HasMatch(lo, c, Dates(d)) ==> vectorised == NoRow && fused == if Dates(d) == {} then Undefined else Row(0)
  {
    hide Revenue, Dates, HasMatch, Addresses;
    fused := FusedQ11(lo, c, d, alloc, hashOf, cuts);
    vectorised := VectorisedQ11(lo, c, d, vecSize, branchFree, join, alloc, hashOf, columns);
    OutcomesAgree(lo, c, Dates(d));
    NoMatchNoRevenue(lo, c, Dates(d), |lo.orderdate|);
  }
}
