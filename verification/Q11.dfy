/** SSB query 1.1: what it asks for, and the compiled form, a fused loop over a hash set of dates. */
module Q11 {
  import opened Bits
  import opened Hashmap
  import opened BuildSide

  /** The columns the query reads. */
  datatype Lineorder = Lineorder(orderdate: seq<int>, quantity: seq<int>, discount: seq<int>, extendedprice: seq<int>) {
    ghost predicate Valid() {
      |orderdate| == |quantity| == |discount| == |extendedprice|
    }
  }

  datatype Constants = Constants(discountMin: int, discountMax: int, quantityMax: int)

  /** The tests on a lineorder tuple. */
  predicate Wanted(lo: Lineorder, c: Constants, i: nat) {
    && i < |lo.quantity| && lo.quantity[i] < c.quantityMax
    && i < |lo.discount| && c.discountMin <= lo.discount[i] <= c.discountMax
  }

  function Price(lo: Lineorder, i: nat): int {
    if i < |lo.extendedprice| && i < |lo.discount| then lo.extendedprice[i] * lo.discount[i] else 0
  }

  /** What a tuple adds to the revenue, if its date is one of `dates`. */
  ghost function Share(lo: Lineorder, dates: set<int>, i: nat): int {
    if i < |lo.orderdate| && lo.orderdate[i] in dates then Price(lo, i) else 0
  }

  /** The query's answer, over the tuples [from, to). */
  ghost function Revenue(lo: Lineorder, c: Constants, dates: set<int>, from: nat, to: nat): int
    requires from <= to
  {
    if from == to then 0
    else Revenue(lo, c, dates, from, to - 1) + if Wanted(lo, c, to - 1) then Share(lo, dates, to - 1) else 0
  }

  /** Ranges may be reduced in any parts. */
  lemma {:induction false} RevenueSplit(lo: Lineorder, c: Constants, dates: set<int>, a: nat, b: nat, d: nat)
    requires a <= b <= d
    ensures Revenue(lo, c, dates, a, d) == Revenue(lo, c, dates, a, b) + Revenue(lo, c, dates, b, d)
    decreases d
  {
    if b < d { RevenueSplit(lo, c, dates, a, b, d - 1); }
  }

  // --------------------------------------------------------- the dates

  const RELEVANT_YEAR: int := 1993

  datatype DateTable = DateTable(year: seq<int>, datekey: seq<int>) {
    /** d_datekey is the primary key. */
    ghost predicate Valid() {
      && |year| == |datekey|
      && forall i, j :: 0 <= i < j < |datekey| ==> datekey[i] != datekey[j]
    }
  }

  /** The selected dates. */
  ghost function Dates(d: DateTable): set<int>
    requires d.Valid()
  {
    set i | 0 <= i < |d.datekey| && d.year[i] == RELEVANT_YEAR :: d.datekey[i]
  }

  ghost predicate DateBefore(d: DateTable, n: nat, k: int)
    requires d.Valid() && n <= |d.datekey|
  {
    exists j :: 0 <= j < n && d.year[j] == RELEVANT_YEAR && d.datekey[j] == k
  }

  lemma DateStep(d: DateTable, n: nat, k: int)
    requires d.Valid() && n < |d.datekey|
    ensures DateBefore(d, n + 1, k) <==> DateBefore(d, n, k) || (d.year[n] == RELEVANT_YEAR && d.datekey[n] == k)
  {
    if d.year[n] == RELEVANT_YEAR && d.datekey[n] == k { assert 0 <= n < n + 1; }
  }

  /** The selection on the dates. */
  method SelectDates(d: DateTable) returns (keys: seq<int>)
    requires d.Valid()
    ensures |keys| <= |d.datekey| && forall k :: k in keys <==> k in Dates(d)
    ensures forall i, j :: 0 <= i < j < |keys| ==> keys[i] != keys[j]
  {
    keys := [];
    for i := 0 to |d.datekey|
      invariant |keys| <= i
      invariant forall k :: k in keys <==> DateBefore(d, i, k)
      invariant forall j, k :: 0 <= j < k < |keys| ==> keys[j] != keys[k]
    {
      forall k
        ensures DateBefore(d, i + 1, k) <==> DateBefore(d, i, k) || (d.year[i] == RELEVANT_YEAR && d.datekey[i] == k) {
        DateStep(d, i, k);
      }
      assert !DateBefore(d, i, d.datekey[i]);
      if d.year[i] == RELEVANT_YEAR {
        keys := keys + [d.datekey[i]];
      }
    }
  }

  /** The build side: the selected dates, each once. */
  ghost predicate BuildsDates(work: set<Word>, keys: map<Word, int>, dates: set<int>) {
    && work == keys.Keys
    && (forall e :: e in work ==> keys[e] in dates)
    && (forall d :: d in dates ==> exists e :: e in work && keys[e] == d)
    && (forall e, f :: e in work && f in work && keys[e] == keys[f] ==> e == f)
  }

  /** Both plans build a hash table of the selected dates; `found` is their number. Without any there
      is no table. */
  method BuildDates(d: DateTable, alloc: seq<Word>, hashOf: int -> Hash)
    returns (found: nat, ht: Table, ghost work: set<Word>, buildKeys: map<Word, int>)
    requires d.Valid() && |d.datekey| <= |alloc| && Addresses(alloc)
    ensures found == 0 <==> Dates(d) == {}
    ensures found > 0 ==> ht.Holds(work) && BuildsDates(work, buildKeys, Dates(d))
    ensures found > 0 ==> forall e :: e in work ==> e in ht.heap && ht.heap[e].hash == hashOf(buildKeys[e])
  {
    hide Table.Holds;
    var keys := SelectDates(d);
    found, ht, work, buildKeys := |keys|, Table(0, [], map[]), {}, map[];
    if found > 0 {
      assert keys[0] in keys;
      ht, work, buildKeys := Build(keys, alloc, hashOf);
      KeysBuilt(keys, alloc, buildKeys, Dates(d));
    } else {
      assert forall k :: k in Dates(d) ==> k in keys;
    }
  }

  lemma KeysBuilt(keys: seq<int>, alloc: seq<Word>, buildKeys: map<Word, int>, dates: set<int>)
    requires |keys| <= |alloc| && buildKeys.Keys == AsSet(alloc[..|keys|])
    requires forall i :: 0 <= i < |keys| ==> alloc[i] in buildKeys && buildKeys[alloc[i]] == keys[i]
    requires forall k :: k in keys <==> k in dates
    requires forall i, j :: 0 <= i < j < |keys| ==> keys[i] != keys[j]
    ensures BuildsDates(buildKeys.Keys, buildKeys, dates)
  {
    forall e | e in buildKeys.Keys ensures exists i :: 0 <= i < |keys| && alloc[i] == e {
      var i :| 0 <= i < |keys| && alloc[..|keys|][i] == e;
      assert alloc[i] == e;
    }
    forall d | d in dates ensures exists e :: e in buildKeys && buildKeys[e] == d {
      var i :| 0 <= i < |keys| && keys[i] == d;
      assert alloc[i] in buildKeys;
    }
  }

  // ------------------------------------------------------- the fused plan

  /** The body of the parallel_reduce of q11_hyper, on one range. */
  method FusedRange(lo: Lineorder, c: Constants, ht: Table, ghost work: set<Word>, keys: map<Word, int>,
                    hashOf: int -> Hash, ghost dates: set<int>, from: nat, to: nat, s: int) returns (revenue: int)
    requires lo.Valid() && from <= to <= |lo.orderdate| && ht.Holds(work) && BuildsDates(work, keys, dates)
    requires forall e :: e in work ==> e in ht.heap && ht.heap[e].hash == hashOf(keys[e])
    ensures revenue == s + Revenue(lo, c, dates, from, to)
  {
    hide Table.Holds;
    revenue := s;
    var i := from;
    while i != to
      invariant from <= i <= to
      invariant revenue == s + Revenue(lo, c, dates, from, i)
    {
      if lo.quantity[i] < c.quantityMax && c.discountMin <= lo.discount[i] && lo.discount[i] <= c.discountMax {
        var contained := Contains(ht, work, keys, hashOf, lo.orderdate[i]);
        if contained {
          revenue := revenue + lo.extendedprice[i] * lo.discount[i];
        }
      }
      i := i + 1;
    }
  }

  // ----------------------------------------------------------- outcomes

  /** What running a plan comes to: setSize(0) is excluded by an assertion, and the result relation
      has one row or none. */
  datatype Outcome = Undefined | NoRow | Row(revenue: int)

  /** Some tuple contributes to the answer. */
  ghost predicate HasMatch(lo: Lineorder, c: Constants, dates: set<int>) {
    exists i :: 0 <= i < |lo.orderdate| && Wanted(lo, c, i) && lo.orderdate[i] in dates
  }

  ghost function Answer(lo: Lineorder, c: Constants, dates: set<int>): int {
    Revenue(lo, c, dates, 0, |lo.orderdate|)
  }

  /** q11_hyper always writes a row, if there is a hash set to write it with. */
  ghost function FusedOutcome(lo: Lineorder, c: Constants, dates: set<int>): Outcome {
    if dates == {} then Undefined else Row(Answer(lo, c, dates))
  }

  /** q11_vectorwise writes a row if some worker's aggregation was given anything. */
  ghost function VectorisedOutcome(lo: Lineorder, c: Constants, dates: set<int>): Outcome {
    if HasMatch(lo, c, dates) then Row(Answer(lo, c, dates)) else NoRow
  }

  /** The plans come to the same exactly if some tuple contributes. */
  lemma OutcomesAgree(lo: Lineorder, c: Constants, dates: set<int>)
    ensures FusedOutcome(lo, c, dates) == VectorisedOutcome(lo, c, dates) <==> HasMatch(lo, c, dates)
  {
    if HasMatch(lo, c, dates) {
      var i :| 0 <= i < |lo.orderdate| && Wanted(lo, c, i) && lo.orderdate[i] in dates;
      assert dates != {};
    }
  }

  lemma {:induction false} NoMatchNoRevenue(lo: Lineorder, c: Constants, dates: set<int>, n: nat)
    requires n <= |lo.orderdate|
    ensures !HasMatch(lo, c, dates) ==> Revenue(lo, c, dates, 0, n) == 0
  {
    if n > 0 { NoMatchNoRevenue(lo, c, dates, n - 1); }
  }

  /** They differ if no date is selected: one run is not defined, the other ends without a row. */
  lemma NoDateSelected(lo: Lineorder, c: Constants, d: DateTable)
    requires d == DateTable([1994], [19940101])
    ensures d.Valid() && FusedOutcome(lo, c, Dates(d)) == Undefined && VectorisedOutcome(lo, c, Dates(d)) == NoRow
  {
    assert Dates(d) == {};
  }

  /** And if a date is selected but no tuple is wanted: a row that holds 0, and no row. */
  lemma NoTupleWanted(c: Constants, lo: Lineorder, d: DateTable)
    requires d == DateTable([1993], [19930101])
    requires lo == Lineorder([19930101], [c.quantityMax], [c.discountMin], [100])
    ensures d.Valid() && FusedOutcome(lo, c, Dates(d)) == Row(0) && VectorisedOutcome(lo, c, Dates(d)) == NoRow
  {
    assert d.datekey[0] in Dates(d);
    assert !Wanted(lo, c, 0);
    assert Revenue(lo, c, Dates(d), 0, 0) == 0;
  }

  // ------------------------------------------- the answer, on the columns

  /** A tuple of the columns the query reads. */
  datatype Tuple = Tuple(orderdate: int, quantity: int, discount: int, extendedprice: int)

  function Appended(lo: Lineorder, t: Tuple): Lineorder {
    Lineorder(lo.orderdate + [t.orderdate], lo.quantity + [t.quantity], lo.discount + [t.discount],
              lo.extendedprice + [t.extendedprice])
  }

  /** The date stands in the date table, with the relevant year. */
  ghost predicate OfYear(d: DateTable, date: int) {
    exists j :: 0 <= j < |d.datekey| && j < |d.year| && d.datekey[j] == date && d.year[j] == 1993
  }

  /** The tuple passes all tests of the query. */
  ghost predicate Counts(c: Constants, d: DateTable, t: Tuple) {
    t.quantity < c.quantityMax && t.discount >= c.discountMin && t.discount <= c.discountMax && OfYear(d, t.orderdate)
  }

  lemma {:induction false} RevenueOfPrefix(lo: Lineorder, t: Tuple, c: Constants, dates: set<int>, n: nat)
    requires lo.Valid() && n <= |lo.orderdate|
    ensures Revenue(Appended(lo, t), c, dates, 0, n) == Revenue(lo, c, dates, 0, n)
  {
    if n > 0 { RevenueOfPrefix(lo, t, c, dates, n - 1); }
  }

  lemma DatesOfYear(d: DateTable, date: int)
    requires d.Valid()
    ensures date in Dates(d) <==> OfYear(d, date)
  {
  }

  lemma AnyOfYear(d: DateTable)
    requires d.Valid()
    ensures Dates(d) != {} <==> exists date :: OfYear(d, date)
  {
    hide Dates, OfYear;
    var dates := Dates(d);
    if forall date :: date !in dates {
      assert dates == {};
    } else {
      var date :| date in dates;
      DatesOfYear(d, date);
    }
    if date :| OfYear(d, date) { DatesOfYear(d, date); }
  }

  /** What one more tuple does to the answer. */
  lemma TupleAnswers(lo: Lineorder, c: Constants, d: DateTable, t: Tuple)
    requires lo.Valid() && d.Valid()
    ensures Answer(Appended(lo, t), c, Dates(d)) ==
            Answer(lo, c, Dates(d)) + if Counts(c, d, t) then t.extendedprice * t.discount else 0
    ensures HasMatch(Appended(lo, t), c, Dates(d)) <==> HasMatch(lo, c, Dates(d)) || Counts(c, d, t)
  {
    hide Dates, OfYear;
    var more, n, dates := Appended(lo, t), |lo.orderdate|, Dates(d);
    DatesOfYear(d, t.orderdate);
    RevenueOfPrefix(lo, t, c, dates, n);
    assert Wanted(more, c, n) && t.orderdate in dates <==> Counts(c, d, t);
    if HasMatch(lo, c, dates) {
      var i :| 0 <= i < n && Wanted(lo, c, i) && lo.orderdate[i] in dates;
      assert Wanted(more, c, i) && more.orderdate[i] in dates;
    }
    if HasMatch(more, c, dates) {
      var i :| 0 <= i < n + 1 && Wanted(more, c, i) && more.orderdate[i] in dates;
      if i < n { assert Wanted(lo, c, i) && lo.orderdate[i] in dates; }
    }
    assert more.orderdate[n] == t.orderdate;
  }

  /** What running the two plans comes to, from the empty table on and tuple by tuple: a tuple whose quantity is
      below the bound, whose discount is from discountMin to discountMax, both included, and whose date is
      of 1993 adds its price times its discount, and any other changes nothing. */
  lemma TupleCounts(lo: Lineorder, c: Constants, d: DateTable, t: Tuple)
    requires lo.Valid() && d.Valid()
    ensures var before, after := FusedOutcome(lo, c, Dates(d)), FusedOutcome(Appended(lo, t), c, Dates(d));
      if exists date :: OfYear(d, date) then
        && before.Row? && after == Row(before.revenue + if Counts(c, d, t) then t.extendedprice * t.discount else 0)
      else before == after == Undefined
    ensures var before, after := VectorisedOutcome(lo, c, Dates(d)), VectorisedOutcome(Appended(lo, t), c, Dates(d));
      && !before.Undefined?
      && after == if !Counts(c, d, t) then before
                  else Row((if before.Row? then before.revenue else 0) + t.extendedprice * t.discount)
  {
    hide Dates, OfYear, Counts, HasMatch, Revenue;
    TupleAnswers(lo, c, d, t);
    AnyOfYear(d);
    if !HasMatch(lo, c, Dates(d)) { NoMatchNoRevenue(lo, c, Dates(d), |lo.orderdate|); }
  }

  lemma NoTuples(c: Constants, d: DateTable)
    requires d.Valid()
    ensures var lo := Lineorder([], [], [], []);
      && FusedOutcome(lo, c, Dates(d)) == (if exists date :: OfYear(d, date) then Row(0) else Undefined)
      && VectorisedOutcome(lo, c, Dates(d)) == NoRow
  {
    hide Dates, OfYear;
    AnyOfYear(d);
  }

  /** Where the scheduler cuts the range [0, n) into subranges. */
  ghost predicate CutsRange(cuts: seq<nat>, n: nat) {
    && |cuts| > 0 && cuts[0] == 0 && cuts[|cuts| - 1] == n
    && forall i, j :: 0 <= i <= j < |cuts| ==> cuts[i] <= cuts[j]
  }

  /** q11_hyper. The subranges are reduced by adding up, wherever they are cut. */
  method FusedQ11(lo: Lineorder, c: Constants, d: DateTable, alloc: seq<Word>, hashOf: int -> Hash, cuts: seq<nat>)
    returns (outcome: Outcome)
    requires lo.Valid() && d.Valid() && |d.datekey| <= |alloc| && Addresses(alloc) && CutsRange(cuts, |lo.orderdate|)
    ensures outcome == FusedOutcome(lo, c, Dates(d))
  {
    hide Table.Holds, BuildsDates, Revenue, Dates;
    var found, ht, keys;
    ghost var work;
    found, ht, work, keys := BuildDates(d, alloc, hashOf);
    if found == 0 { return Undefined; }
    var revenue := 0;
    NoRevenue(lo, c, Dates(d));
    for i := 1 to |cuts|
      invariant revenue == Revenue(lo, c, Dates(d), 0, cuts[i - 1])
    {
      var part := FusedRange(lo, c, ht, work, keys, hashOf, Dates(d), cuts[i - 1], cuts[i], 0);
      RevenueSplit(lo, c, Dates(d), 0, cuts[i - 1], cuts[i]);
      revenue := revenue + part;
    }
    outcome := Row(revenue);
  }

  lemma NoRevenue(lo: Lineorder, c: Constants, dates: set<int>)
    ensures Revenue(lo, c, dates, 0, 0) == 0
  {
  }
}
