/** The vector primitives Q1.1 uses: selections, with and without branches, a projection through a
    selection vector, and a static aggregate. A column pointer that has been moved to `at` stands
    for the part of the column from there on. */
module Primitives {

  /** The positions that pass a test, in order. */
  function Passing(p: nat -> bool, positions: seq<nat>): (r: seq<nat>)
    ensures |r| <= |positions|
  {
    if positions == [] then []
    else
      var n := |positions| - 1;
      Passing(p, positions[..n]) + if p(positions[n]) then [positions[n]] else []
  }

  function Upto(n: nat): (r: seq<nat>)
    ensures |r| == n && forall i :: 0 <= i < n ==> r[i] == i
  {
    seq(n, i requires 0 <= i => i)
  }

  lemma PassingStep(p: nat -> bool, positions: seq<nat>, i: nat)
    requires i < |positions|
    ensures Passing(p, positions[..i + 1]) ==
            Passing(p, positions[..i]) + if p(positions[i]) then [positions[i]] else []
    ensures |Passing(p, positions[..i])| <= i
  {
    assert positions[..i + 1][..i] == positions[..i];
  }

  lemma PassingNone(p: nat -> bool, positions: seq<nat>)
    ensures Passing(p, positions[..0]) == []
  {
  }

  function BothTests(p: nat -> bool, q: nat -> bool): nat -> bool {
    (x: nat) => p(x) && q(x)
  }

  /** Narrowing a selection vector is selecting by both tests. */
  lemma {:induction false} PassingBoth(p: nat -> bool, q: nat -> bool, positions: seq<nat>)
    ensures Passing(q, Passing(p, positions)) == Passing(BothTests(p, q), positions)
  {
    if positions != [] {
      var n := |positions| - 1;
      PassingBoth(p, q, positions[..n]);
      var first := Passing(p, positions[..n]);
      assert first + [] == first;
      if p(positions[n]) {
        assert (first + [positions[n]])[..|first|] == first;
      }
    }
  }

  lemma {:induction false} PassingMembers(p: nat -> bool, positions: seq<nat>)
    ensures forall x :: x in Passing(p, positions) <==> x in positions && p(x)
  {
    if positions != [] {
      PassingMembers(p, positions[..|positions| - 1]);
      assert positions == positions[..|positions| - 1] + [positions[|positions| - 1]];
    }
  }

  lemma {:induction false} PassingConcat(p: nat -> bool, a: seq<nat>, b: seq<nat>)
    ensures Passing(p, a + b) == Passing(p, a) + Passing(p, b)
  {
    if b == [] {
      assert a + b == a;
    } else {
      assert (a + b)[..|a + b| - 1] == a + b[..|b| - 1];
      PassingConcat(p, a, b[..|b| - 1]);
    }
  }

  /** The test of a column against a constant. */
  function Test<T>(column: seq<T>, at: nat, op: (T, T) -> bool, con: T): nat -> bool {
    (i: nat) => at + i < |column| && op(column[at + i], con)
  }

  /** sel_col_val. */
  method SelColVal<T>(n: nat, result: array<nat>, param1: seq<T>, at: nat, op: (T, T) -> bool, con: T)
    returns (found: nat)
    requires at + n <= |param1| && n <= result.Length
    modifies result
    ensures found <= n && result[..found] == Passing(Test(param1, at, op, con), Upto(n))
  {
    hide Passing;
    ghost var p, ids := Test(param1, at, op, con), Upto(n);
    PassingNone(p, ids);
    found := 0;
    var i := 0;
    while i < n
      invariant i <= n && found <= i
      invariant result[..found] == Passing(p, ids[..i])
    {
      PassingStep(p, ids, i);
      if op(param1[at + i], con) {
        result[found] := i;
        found := found + 1;
      }
      i := i + 1;
    }
    assert ids[..n] == ids;
  }

  /** sel_col_val_bf writes every position and moves on only past those that pass: the same result
      without a branch. */
  method SelColValBf<T>(n: nat, result: array<nat>, param1: seq<T>, at: nat, op: (T, T) -> bool, con: T)
    returns (found: nat)
    requires at + n <= |param1| && n <= result.Length
    modifies result
    ensures found <= n && result[..found] == Passing(Test(param1, at, op, con), Upto(n))
  {
    hide Passing;
    ghost var p, ids := Test(param1, at, op, con), Upto(n);
    PassingNone(p, ids);
    found := 0;
    var i := 0;
    while i < n
      invariant i <= n && found <= i
      invariant result[..found] == Passing(p, ids[..i])
    {
      PassingStep(p, ids, i);
      var decision := op(param1[at + i], con);
      result[found] := i;
      found := found + if decision then 1 else 0;
      i := i + 1;
    }
    assert ids[..n] == ids;
  }

  /** selsel_col_val: narrows a selection vector. */
  method SelSelColVal<T>(n: nat, inSel: array<nat>, result: array<nat>, param1: seq<T>, at: nat,
                         op: (T, T) -> bool, con: T) returns (found: nat)
    requires n <= inSel.Length && n <= result.Length && inSel != result
    requires forall i :: 0 <= i < n ==> at + inSel[i] < |param1|
    modifies result
    ensures found <= n && result[..found] == Passing(Test(param1, at, op, con), inSel[..n])
  {
    hide Passing;
    ghost var p, ids := Test(param1, at, op, con), inSel[..n];
    PassingNone(p, ids);
    found := 0;
    var i := 0;
    while i < n
      invariant i <= n && found <= i
      invariant result[..found] == Passing(p, ids[..i])
    {
      PassingStep(p, ids, i);
      var idx := inSel[i];
      if op(param1[at + idx], con) {
        result[found] := idx;
        found := found + 1;
      }
      i := i + 1;
    }
    assert ids[..n] == ids;
  }

  /** selsel_col_val_bf. */
  method SelSelColValBf<T>(n: nat, inSel: array<nat>, result: array<nat>, param1: seq<T>, at: nat,
                           op: (T, T) -> bool, con: T) returns (found: nat)
    requires n <= inSel.Length && n <= result.Length && inSel != result
    requires forall i :: 0 <= i < n ==> at + inSel[i] < |param1|
    modifies result
    ensures found <= n && result[..found] == Passing(Test(param1, at, op, con), inSel[..n])
  {
    hide Passing;
    ghost var p, ids := Test(param1, at, op, con), inSel[..n];
    PassingNone(p, ids);
    found := 0;
    var i := 0;
    while i < n
      invariant i <= n && found <= i
      invariant result[..found] == Passing(p, ids[..i])
    {
      PassingStep(p, ids, i);
      var idx := inSel[i];
      var decision := op(param1[at + idx], con);
      result[found] := idx;
      found := found + if decision then 1 else 0;
      i := i + 1;
    }
    assert ids[..n] == ids;
  }

  /** proj_sel_both_col_col. */
  method ProjSelBoth(n: nat, inSel: array<nat>, result: array<int>, param1: seq<int>, at1: nat, param2: seq<int>,
                     at2: nat)
    requires n <= inSel.Length && n <= result.Length
    requires forall i :: 0 <= i < n ==> at1 + inSel[i] < |param1| && at2 + inSel[i] < |param2|
    modifies result
    ensures forall i :: 0 <= i < n ==> result[i] == param1[at1 + inSel[i]] * param2[at2 + inSel[i]]
  {
    var i := 0;
    while i < n
      invariant i <= n
      invariant forall k :: 0 <= k < i ==> result[k] == param1[at1 + inSel[k]] * param2[at2 + inSel[k]]
    {
      var idx := inSel[i];
      result[i] := param1[at1 + idx] * param2[at2 + idx];
      i := i + 1;
    }
  }

  function Total(values: seq<int>): int {
    if values == [] then 0 else Total(values[..|values| - 1]) + values[|values| - 1]
  }

  /** aggr_static_col with plus; the result says whether there was anything to add. */
  method AggrStaticPlus(n: nat, aggregator: int, param1: array<int>) returns (found: nat, result: int)
    requires n <= param1.Length
    ensures result == aggregator + Total(param1[..n])
    ensures found == if n > 0 then 1 else 0
  {
    result := aggregator;
    var i := 0;
    while i < n
      invariant i <= n && result == aggregator + Total(param1[..i])
    {
      assert param1[..i + 1][..i] == param1[..i];
      result := param1[i] + result;
      i := i + 1;
    }
    found := if n > 0 then 1 else 0;
  }
}
