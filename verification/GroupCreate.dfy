/** The lookup and creation of groups for a vector of tuples: GroupLookup::findGroups and
    createMissingGroups. */
module GroupCreation {
  import opened Bits
  import opened SlotChains
  import opened Folds
  import opened GroupTables
  import opened SmallTable
  import opened Grouping
  import opened Tallies
  import opened Partitioning
  import opened GroupLookups

  /** A new group: hash and key of some tuple, and the initial value. */
  ghost predicate NewGroup<K, V>(ds: seq<Input<K>>, hashes: seq<Hash>, r: Row<Key<K>, V>, n: nat, init: V) {
    exists x: nat :: x < n && Made(ds, hashes, r, x, init)
  }

  ghost predicate Made<K, V>(ds: seq<Input<K>>, hashes: seq<Hash>, r: Row<Key<K>, V>, x: nat, init: V) {
    x < |hashes| && r == Row(hashes[x], CompositeKey(ds)(x), init)
  }

  /** htLookup: the chain of a tuple's slot is searched for its hash only. */
  method LookUp<K(==), V>(t: Hashmapx<Key<K>, V>, hashes: seq<Hash>, n: nat, htMatches: array<nat>,
                          groupsFound: array<nat>, groupsNotFound: array<nat>) returns (found: nat, missing: nat)
    requires t.Valid() && n == |hashes|
    requires n <= htMatches.Length && n <= groupsFound.Length && n <= groupsNotFound.Length
    requires htMatches != groupsNotFound && htMatches != groupsFound && groupsFound != groupsNotFound
    modifies htMatches, groupsFound, groupsNotFound
    ensures found <= n && groupsFound[..found] == HashedAs(hashes, t.rows, n, true)
    ensures missing <= n && groupsNotFound[..missing] == HashedAs(hashes, t.rows, n, false)
    ensures forall x :: 0 <= x < n && Present(t.rows, hashes[x]) ==> htMatches[x] == Newest(hashes, t.rows)[x]
  {
    hide Hashmapx.Threaded, Hashmapx.Sized, Older;
    found, missing := 0, 0;
    var i := 0;
    while i < n
      invariant i <= n && found <= i && groupsFound[..found] == HashedAs(hashes, t.rows, i, true)
      invariant missing <= i && groupsNotFound[..missing] == HashedAs(hashes, t.rows, i, false)
      invariant forall x :: 0 <= x < i && Present(t.rows, hashes[x]) ==> htMatches[x] == Newest(hashes, t.rows)[x]
    {
      var el := t.FindHash(hashes[i]);
      OlderIs(t.rows, hashes[i], |t.rows|, el);
      ghost var was, notFound := groupsFound[..found], groupsNotFound[..missing];
      if el != NONE {
        htMatches[i] := el;
        groupsFound[found] := i;
        found := found + 1;
        assert groupsFound[..found] == was + [i];
      } else {
        groupsNotFound[missing] := i;
        missing := missing + 1;
        assert groupsNotFound[..missing] == notFound + [i];
      }
      i := i + 1;
    }
  }

  /** The tuples of `xs` stand where `m` says. */
  ghost predicate StandAt(htMatches: array<nat>, m: seq<nat>, xs: seq<nat>)
    reads htMatches
  {
    |m| <= htMatches.Length && forall k :: 0 <= k < |xs| ==> xs[k] < |m| && htMatches[xs[k]] == m[xs[k]]
  }

  /** keys_not_equal on one column: tuples with the entry's key are moved to the front of groupsFound,
      the others go into keysNEq. */
  method KeysNotEqual<K(==), V>(t: Hashmapx<Key<K>, V>, ds: seq<Input<K>>, c: nat, n: nat, htMatches: array<nat>,
                                groupsFound: array<nat>, keysNEq0: seq<nat>, ghost m: seq<nat>, ghost xs: seq<nat>)
    returns (equal: nat, keysNEq: seq<nat>)
    requires c < |ds| && n <= groupsFound.Length && groupsFound != htMatches && groupsFound[..n] == xs
    requires Columns(ds, t.rows) && StandAt(htMatches, m, xs) && Within(xs, |m|)
    requires forall k :: 0 <= k < |xs| ==> m[xs[k]] < |t.rows|
    modifies groupsFound
    ensures equal <= n && groupsFound[..equal] == Compared(ds, t.rows, m, xs, c, true)
    ensures keysNEq == keysNEq0 + Compared(ds, t.rows, m, xs, c, false)
  {
    hide Columns, SameColumn, KeyOf, Compared;
    ComparedNone(ds, t.rows, m, xs, c);
    equal, keysNEq := 0, keysNEq0;
    var j := 0;
    while j < n
      invariant equal <= j <= n && forall l :: j <= l < n ==> groupsFound[l] == xs[l]
      invariant groupsFound[..equal] == Compared(ds, t.rows, m, xs[..j], c, true)
      invariant keysNEq == keysNEq0 + Compared(ds, t.rows, m, xs[..j], c, false)
    {
      var i := groupsFound[j];
      ComparedMore(ds, t.rows, m, xs, j, c);
      ColumnAt(ds, t.rows, i, m[i], c);
      ghost var was := groupsFound[..equal];
      if t.rows[htMatches[i]].k[c] == KeyOf(ds[c])(i) {
        groupsFound[equal] := i;
        equal := equal + 1;
        assert groupsFound[..equal] == was + [i];
      } else {
        keysNEq := keysNEq + [i];
      }
      j := j + 1;
    }
    assert xs[..n] == xs;
  }

  lemma ComparedNone<K, V>(ds: seq<Input<K>>, rows: seq<Row<Key<K>, V>>, m: seq<nat>, xs: seq<nat>, c: nat)
    ensures Compared(ds, rows, m, xs[..0], c, true) == [] && Compared(ds, rows, m, xs[..0], c, false) == []
  {
  }

  lemma ComparedMore<K, V>(ds: seq<Input<K>>, rows: seq<Row<Key<K>, V>>, m: seq<nat>, xs: seq<nat>, j: nat, c: nat)
    requires Within(xs, |m|) && j < |xs|
    ensures Compared(ds, rows, m, xs[..j + 1], c, true) ==
            Compared(ds, rows, m, xs[..j], c, true) + if SameColumn(ds, rows, xs[j], m[xs[j]], c) then [xs[j]] else []
    ensures Compared(ds, rows, m, xs[..j + 1], c, false) ==
            Compared(ds, rows, m, xs[..j], c, false) + if SameColumn(ds, rows, xs[j], m[xs[j]], c) then [] else [xs[j]]
  {
    assert xs[..j + 1][..j] == xs[..j];
  }

  lemma ColumnAt<K, V>(ds: seq<Input<K>>, rows: seq<Row<Key<K>, V>>, x: nat, e: nat, c: nat)
    requires Columns(ds, rows) && e < |rows| && c < |ds|
    ensures c < |rows[e].k| && (SameColumn(ds, rows, x, e, c) <==> rows[e].k[c] == KeyOf(ds[c])(x))
  {
  }

  /** keyEquality: one column after the other. */
  method KeyEquality<K(==), V>(t: Hashmapx<Key<K>, V>, ds: seq<Input<K>>, found: nat, htMatches: array<nat>,
                               groupsFound: array<nat>, ghost m: seq<nat>, ghost xs: seq<nat>)
    returns (equal: nat, keysNEq: seq<nat>)
    requires found <= groupsFound.Length && groupsFound != htMatches && groupsFound[..found] == xs
    requires Columns(ds, t.rows) && StandAt(htMatches, m, xs) && Within(xs, |m|)
    requires forall k :: 0 <= k < |xs| ==> m[xs[k]] < |t.rows|
    modifies groupsFound
    ensures equal <= found && keysNEq == Unequal(ds, t.rows, m, xs, 0)
  {
    hide Columns, StandAt, Compared, Unequal;
    equal, keysNEq := found, [];
    ghost var now := xs;
    var c := 0;
    while c < |ds|
      invariant c <= |ds| && equal <= found && groupsFound[..equal] == now
      invariant StandAt(htMatches, m, now) && Within(now, |m|) && forall k :: 0 <= k < |now| ==> m[now[k]] < |t.rows|
      invariant keysNEq + Unequal(ds, t.rows, m, now, c) == [] + Unequal(ds, t.rows, m, xs, 0)
    {
      StillAt(ds, t.rows, htMatches, m, now, c);
      UnequalStep(ds, t.rows, m, now, c, keysNEq);
      equal, keysNEq := KeysNotEqual(t, ds, c, equal, htMatches, groupsFound, keysNEq, m, now);
      now := Compared(ds, t.rows, m, now, c, true);
      c := c + 1;
    }
    UnequalEnd(ds, t.rows, m, now, keysNEq);
  }

  lemma UnequalStep<K, V>(ds: seq<Input<K>>, rows: seq<Row<Key<K>, V>>, m: seq<nat>, xs: seq<nat>, c: nat,
                          before: seq<nat>)
    requires Within(xs, |m|) && c < |ds|
    ensures Within(Compared(ds, rows, m, xs, c, true), |m|)
    ensures before + Unequal(ds, rows, m, xs, c) ==
            before + Compared(ds, rows, m, xs, c, false) +
            Unequal(ds, rows, m, Compared(ds, rows, m, xs, c, true), c + 1)
  {
    hide Compared, SameColumn;
    ComparedMembers(ds, rows, m, xs, c, true);
  }

  lemma UnequalEnd<K, V>(ds: seq<Input<K>>, rows: seq<Row<Key<K>, V>>, m: seq<nat>, xs: seq<nat>, before: seq<nat>)
    requires Within(xs, |m|)
    ensures before + Unequal(ds, rows, m, xs, |ds|) == before
  {
  }

  lemma StillAt<K, V>(ds: seq<Input<K>>, rows: seq<Row<Key<K>, V>>, htMatches: array<nat>, m: seq<nat>, xs: seq<nat>,
                      c: nat)
    requires StandAt(htMatches, m, xs) && Within(xs, |m|) && forall k :: 0 <= k < |xs| ==> m[xs[k]] < |rows|
    ensures var yes := Compared(ds, rows, m, xs, c, true);
      StandAt(htMatches, m, yes) && Within(yes, |m|) && forall k :: 0 <= k < |yes| ==> m[yes[k]] < |rows|
  {
    hide Compared, SameColumn;
    ComparedMembers(ds, rows, m, xs, c, true);
    var yes := Compared(ds, rows, m, xs, c, true);
    forall k | 0 <= k < |yes| ensures htMatches[yes[k]] == m[yes[k]] && m[yes[k]] < |rows| {
      assert yes[k] in yes;
      var j :| 0 <= j < |xs| && xs[j] == yes[k];
    }
  }

  /** groupsNotFound.push_back(i), once for each entry passed over. Behind the end of the buffer nothing
      is known. */
  method PushBack(groupsNotFound: array<nat>, missing0: nat, i: nat, times: nat) returns (ok: bool, missing: nat)
    requires missing0 <= groupsNotFound.Length
    modifies groupsNotFound
    ensures ok <==> missing0 + times <= groupsNotFound.Length
    ensures ok ==>
      missing == missing0 + times && groupsNotFound[..missing] == old(groupsNotFound[..missing0]) + seq(times, _ => i)
  {
    ghost var before := groupsNotFound[..missing0];
    missing := missing0;
    var j := 0;
    while j < times
      invariant j <= times && missing == missing0 + j <= groupsNotFound.Length
      invariant groupsNotFound[..missing] == before + seq(j, _ => i)
    {
      if missing == groupsNotFound.Length { return false, missing; }
      ghost var was := groupsNotFound[..missing];
      groupsNotFound[missing] := i;
      missing := missing + 1;
      j := j + 1;
      assert groupsNotFound[..missing] == was + [i];
    }
    ok := true;
  }

  ghost predicate AtHash<K, V>(rows: seq<Row<Key<K>, V>>, hashes: seq<Hash>, m: seq<nat>, x: nat) {
    x < |m| && x < |hashes| && m[x] < |rows| && rows[m[x]].hash == hashes[x]
  }

  ghost function Reached<K, V>(hashes: seq<Hash>, rows: seq<Row<Key<K>, V>>, m: seq<nat>, x: nat): nat
    requires x < |m| == |hashes| && m[x] < |rows|
  {
    if Next(hashes, rows, m, x) != NONE then Next(hashes, rows, m, x) else m[x]
  }

  /** One tuple goes on to the next older entry with its hash, if there is one. */
  method FollowOne<K(==), V>(t: Hashmapx<Key<K>, V>, hashes: seq<Hash>, i: nat, idx: nat, htMatches: array<nat>,
                             groupsFound: array<nat>, found0: nat, groupsNotFound: array<nat>, missing0: nat,
                             ghost m: seq<nat>) returns (ok: bool, found: nat, missing: nat)
    requires t.Valid() && t.capacity > 0 && |m| == |hashes| && AtHash(t.rows, hashes, m, idx)
    requires idx < htMatches.Length && htMatches[idx] == m[idx]
    requires found0 < groupsFound.Length && missing0 <= groupsNotFound.Length
    requires htMatches != groupsNotFound && htMatches != groupsFound && groupsFound != groupsNotFound
    modifies htMatches, groupsFound, groupsNotFound
    ensures ok <==> missing0 + Passed(hashes, t.rows, t.capacity, m, idx) <= groupsNotFound.Length
    ensures ok ==>
      && found0 <= found <= found0 + 1 && missing <= groupsNotFound.Length
      && groupsFound[..found] ==
           old(groupsFound[..found0]) + (if Next(hashes, t.rows, m, idx) != NONE then [idx] else [])
      && groupsNotFound[..missing] ==
           old(groupsNotFound[..missing0]) + seq(Passed(hashes, t.rows, t.capacity, m, idx), _ => i)
      && htMatches[..] == old(htMatches[..])[idx := Reached(hashes, t.rows, m, idx)]
  {
    hide Hashmapx.Valid, SlotsBetween, Older;
    found := found0;
    var older, passed := t.FindOlder(htMatches[idx], hashes[idx]);
    OlderIs(t.rows, hashes[idx], m[idx], older);
    ok, missing := PushBack(groupsNotFound, missing0, i, passed);
    if ok && older != NONE {
      htMatches[idx] := older;
      groupsFound[found] := idx;
      found := found + 1;
      assert groupsFound[..found] == old(groupsFound[..found0]) + [idx];
    }
  }

  /** htFollow: each tuple of keysNEq goes on to the next older entry with its hash; its position is
      pushed for each entry passed over. */
  method HtFollow<K(==), V>(t: Hashmapx<Key<K>, V>, hashes: seq<Hash>, keysNEq: seq<nat>, htMatches: array<nat>,
                            groupsFound: array<nat>, groupsNotFound: array<nat>, missing0: nat, ghost m: seq<nat>)
    returns (ok: bool, found: nat, missing: nat)
    requires t.Valid() && t.capacity > 0 && Standing(hashes, t.rows, m, keysNEq) && Unrepeated(keysNEq)
    requires StandAt(htMatches, m, keysNEq) && forall k :: 0 <= k < |keysNEq| ==> AtHash(t.rows, hashes, m, keysNEq[k])
    requires |keysNEq| <= groupsFound.Length && missing0 <= groupsNotFound.Length
    requires htMatches != groupsNotFound && htMatches != groupsFound && groupsFound != groupsNotFound
    modifies htMatches, groupsFound, groupsNotFound
    ensures ok <==> missing0 + |Pushed(hashes, t.rows, t.capacity, m, keysNEq)| <= groupsNotFound.Length
    ensures ok ==>
      && found <= |keysNEq| && groupsFound[..found] == Followed(hashes, t.rows, m, keysNEq)
      && missing <= groupsNotFound.Length
      && groupsNotFound[..missing] == old(groupsNotFound[..missing0]) + Pushed(hashes, t.rows, t.capacity, m, keysNEq)
      && StandAt(htMatches, Advanced(hashes, t.rows, m, keysNEq), keysNEq)
      && forall x: nat :: x < htMatches.Length && x !in keysNEq ==> htMatches[x] == old(htMatches[x])
  {
    hide Hashmapx.Valid, Next, Passed, Reached, Advanced, AtHash, Followed, Pushed, Moved;
    MovedNone(hashes, t.rows, m, htMatches[..], keysNEq);
    ghost var q, before, was := keysNEq, groupsNotFound[..missing0], htMatches[..];
    ok, found, missing := true, 0, missing0;
    var i := 0;
    FollowNone(hashes, t.rows, t.capacity, m, q);
    while i < |keysNEq|
      invariant i <= |keysNEq| && ok && Standing(hashes, t.rows, m, q[..i]) && found <= i
      invariant groupsFound[..found] == Followed(hashes, t.rows, m, q[..i]) && missing <= groupsNotFound.Length
      invariant groupsNotFound[..missing] == before + Pushed(hashes, t.rows, t.capacity, m, q[..i])
      invariant htMatches[..] == Moved(hashes, t.rows, m, was, q[..i])
    {
      var idx := keysNEq[i];
      MovedLater(hashes, t.rows, m, was, q, i);
      FollowMore(hashes, t.rows, t.capacity, m, q, i);
      Associates(before, Pushed(hashes, t.rows, t.capacity, m, q[..i]),
                 seq(Passed(hashes, t.rows, t.capacity, m, idx), _ => i));
      ok, found, missing := FollowOne(t, hashes, i, idx, htMatches, groupsFound, found, groupsNotFound, missing, m);
      if !ok {
        PushedPrefix(hashes, t.rows, t.capacity, m, q, i + 1);
        return;
      }
      i := i + 1;
    }
    assert q[..|q|] == q;
    MovedAll(hashes, t.rows, m, was, q);
  }

  lemma Associates(a: seq<nat>, b: seq<nat>, c: seq<nat>)
    ensures a + b + c == a + (b + c)
  {
  }

  lemma MovedNone<K, V>(hashes: seq<Hash>, rows: seq<Row<Key<K>, V>>, m: seq<nat>, was: seq<nat>, q: seq<nat>)
    requires |m| <= |was| && Standing(hashes, rows, m, q)
    ensures Standing(hashes, rows, m, q[..0]) && Moved(hashes, rows, m, was, q[..0]) == was
  {
  }

  /** htMatches `was` after the tuples of q have gone on. */
  ghost function Moved<K, V>(hashes: seq<Hash>, rows: seq<Row<Key<K>, V>>, m: seq<nat>, was: seq<nat>,
                             q: seq<nat>): (r: seq<nat>)
    requires Standing(hashes, rows, m, q) && |m| <= |was|
    ensures |r| == |was|
  {
    if q == [] then was
    else
      var n := |q| - 1;
      Moved(hashes, rows, m, was, q[..n])[q[n] := Reached(hashes, rows, m, q[n])]
  }

  lemma {:induction false} MovedAt<K, V>(hashes: seq<Hash>, rows: seq<Row<Key<K>, V>>, m: seq<nat>, was: seq<nat>,
                                         q: seq<nat>)
    requires Standing(hashes, rows, m, q) && |m| <= |was|
    ensures var r := Moved(hashes, rows, m, was, q);
      forall x: nat :: x < |was| ==> r[x] == if x in q then Reached(hashes, rows, m, x) else was[x]
  {
    hide Reached;
    if q != [] {
      var n := |q| - 1;
      MovedAt(hashes, rows, m, was, q[..n]);
      assert q == q[..n] + [q[n]];
    }
  }

  lemma MovedLater<K, V>(hashes: seq<Hash>, rows: seq<Row<Key<K>, V>>, m: seq<nat>, was: seq<nat>, q: seq<nat>, i: nat)
    requires Standing(hashes, rows, m, q) && |m| <= |was| && Unrepeated(q) && i < |q|
    requires forall k :: 0 <= k < |q| ==> was[q[k]] == m[q[k]]
    ensures Standing(hashes, rows, m, q[..i]) && Moved(hashes, rows, m, was, q[..i])[q[i]] == m[q[i]]
    ensures Standing(hashes, rows, m, q[..i + 1]) && Moved(hashes, rows, m, was, q[..i + 1]) ==
            Moved(hashes, rows, m, was, q[..i])[q[i] := Reached(hashes, rows, m, q[i])]
  {
    hide Reached;
    MovedAt(hashes, rows, m, was, q[..i]);
    assert q[..i + 1][..i] == q[..i];
    assert q[i] !in q[..i];
  }

  lemma MovedAll<K, V>(hashes: seq<Hash>, rows: seq<Row<Key<K>, V>>, m: seq<nat>, was: seq<nat>, q: seq<nat>)
    requires Standing(hashes, rows, m, q) && |m| <= |was|
    ensures var r := Moved(hashes, rows, m, was, q);
      && (forall k :: 0 <= k < |q| ==> r[q[k]] == Advanced(hashes, rows, m, q)[q[k]])
      && (forall x: nat :: x < |was| && x !in q ==> r[x] == was[x])
  {
    hide Reached, Advanced;
    MovedAt(hashes, rows, m, was, q);
    AdvancedAt(hashes, rows, m, q);
  }

  lemma FollowNone<K, V>(hashes: seq<Hash>, rows: seq<Row<Key<K>, V>>, cap: nat, m: seq<nat>, q: seq<nat>)
    requires cap > 0 && Standing(hashes, rows, m, q)
    ensures Standing(hashes, rows, m, q[..0])
    ensures Followed(hashes, rows, m, q[..0]) == [] && Pushed(hashes, rows, cap, m, q[..0]) == []
  {
  }

  lemma FollowMore<K, V>(hashes: seq<Hash>, rows: seq<Row<Key<K>, V>>, cap: nat, m: seq<nat>, q: seq<nat>, i: nat)
    requires cap > 0 && Standing(hashes, rows, m, q) && i < |q|
    ensures Standing(hashes, rows, m, q[..i]) && Standing(hashes, rows, m, q[..i + 1])
    ensures Followed(hashes, rows, m, q[..i + 1]) ==
            Followed(hashes, rows, m, q[..i]) + (if Next(hashes, rows, m, q[i]) != NONE then [q[i]] else [])
    ensures Pushed(hashes, rows, cap, m, q[..i + 1]) ==
            Pushed(hashes, rows, cap, m, q[..i]) + seq(Passed(hashes, rows, cap, m, q[i]), _ => i)
    ensures q[..i + 1] == q[..i] + [q[i]]
  {
    hide Next, Passed;
    assert q[..i + 1][..i] == q[..i];
  }

  lemma AdvancedAt<K, V>(hashes: seq<Hash>, rows: seq<Row<Key<K>, V>>, m: seq<nat>, q: seq<nat>)
    requires Standing(hashes, rows, m, q)
    ensures forall k :: 0 <= k < |q| ==> Advanced(hashes, rows, m, q)[q[k]] == Reached(hashes, rows, m, q[k])
  {
    hide Next;
    forall k | 0 <= k < |q| ensures Advanced(hashes, rows, m, q)[q[k]] == Reached(hashes, rows, m, q[k]) {
      assert q[k] in q;
    }
  }

  lemma {:induction false} PushedPrefix<K, V>(hashes: seq<Hash>, rows: seq<Row<Key<K>, V>>, cap: nat, m: seq<nat>,
                                              q: seq<nat>, i: nat)
    requires cap > 0 && Standing(hashes, rows, m, q) && i <= |q|
    ensures Standing(hashes, rows, m, q[..i])
    ensures |Pushed(hashes, rows, cap, m, q[..i])| <= |Pushed(hashes, rows, cap, m, q)|
    decreases |q|
  {
    hide Passed;
    if i == |q| {
      assert q[..i] == q;
    } else {
      var n := |q| - 1;
      assert q[..n][..i] == q[..i];
      PushedPrefix(hashes, rows, cap, m, q[..n], i);
    }
  }

  /** The tuples of a round stand at entries with their hashes. */
  ghost predicate InRound<K, V>(hashes: seq<Hash>, rows: seq<Row<Key<K>, V>>, m: seq<nat>, q: seq<nat>, b: nat) {
    && Standing(hashes, rows, m, q) && Unrepeated(q) && Below(m, q, b) && |q| <= |hashes|
    && forall k :: 0 <= k < |q| ==> AtHash(rows, hashes, m, q[k]) && Present(rows, hashes[q[k]])
  }

  /** htMatches is `m`, as far as tuples have entries at all. */
  ghost predicate Pointing<K, V>(htMatches: array<nat>, hashes: seq<Hash>, rows: seq<Row<Key<K>, V>>, m: seq<nat>)
    reads htMatches
  {
    && |m| == |hashes| <= htMatches.Length
    && forall x: nat :: x < |m| && Present(rows, hashes[x]) ==> htMatches[x] == m[x]
  }

  lemma FirstInRound<K, V>(ds: seq<Input<K>>, hashes: seq<Hash>, rows: seq<Row<Key<K>, V>>)
    ensures var m, f := Newest(hashes, rows), HashedAs(hashes, rows, |hashes|, true);
      && Within(f, |m|) && InRound(hashes, rows, m, f, |rows|)
      && InRound(hashes, rows, m, Unequal(ds, rows, m, f, 0), |rows|)
  {
    hide Unequal, SameFrom, HashedAs;
    var m, f := Newest(hashes, rows), HashedAs(hashes, rows, |hashes|, true);
    FirstRound(ds, hashes, rows);
    HashedMembers(hashes, rows, |hashes|, true);
    UnequalMembers(ds, rows, m, f, 0);
    var q := Unequal(ds, rows, m, f, 0);
    forall k | 0 <= k < |f| ensures AtHash(rows, hashes, m, f[k]) && Present(rows, hashes[f[k]]) {
      assert f[k] in f;
    }
    forall k | 0 <= k < |q| ensures AtHash(rows, hashes, m, q[k]) && Present(rows, hashes[q[k]]) {
      assert q[k] in q && q[k] in f;
    }
  }

  lemma NextInRound<K, V>(ds: seq<Input<K>>, hashes: seq<Hash>, rows: seq<Row<Key<K>, V>>, m: seq<nat>, q: seq<nat>,
                          b: nat)
    requires InRound(hashes, rows, m, q, b) && q != []
    ensures var f, m' := Followed(hashes, rows, m, q), Advanced(hashes, rows, m, q);
      && b > 0 && Within(f, |m'|) && InRound(hashes, rows, m', f, b - 1)
      && InRound(hashes, rows, m', Unequal(ds, rows, m', f, 0), b - 1)
  {
    hide Unequal, SameFrom, Followed, Present;
    NextRound(ds, hashes, rows, m, q, b);
    var f, m' := Followed(hashes, rows, m, q), Advanced(hashes, rows, m, q);
    FollowedMembers(hashes, rows, m, q);
    UnequalMembers(ds, rows, m', f, 0);
    var q' := Unequal(ds, rows, m', f, 0);
    forall x: nat | x in f ensures AtHash(rows, hashes, m', x) && Present(rows, hashes[x]) {
      var k :| 0 <= k < |q| && q[k] == x;
    }
    forall k | 0 <= k < |f|
      ensures m'[f[k]] < |rows| && m'[f[k]] < b - 1 && AtHash(rows, hashes, m', f[k]) && Present(rows, hashes[f[k]]) {
      assert f[k] in f;
      var j :| 0 <= j < |q| && q[j] == f[k];
    }
    forall k | 0 <= k < |q'| ensures AtHash(rows, hashes, m', q'[k]) && Present(rows, hashes[q'[k]]) {
      assert q'[k] in q' && q'[k] in f;
    }
  }

  /** One more round. */
  lemma RoundsStep<K, V>(ds: seq<Input<K>>, hashes: seq<Hash>, cap: nat, rows: seq<Row<Key<K>, V>>, m: seq<nat>,
                         q: seq<nat>, listed: seq<nat>, b: nat)
    requires cap > 0 && InRound(hashes, rows, m, q, b) && q != []
    ensures var more := listed + Pushed(hashes, rows, cap, m, q);
      var f, m' := Followed(hashes, rows, m, q), Advanced(hashes, rows, m, q);
      && b > 0 && Within(f, |m'|)
      && var q' := Unequal(ds, rows, m', f, 0);
      && InRound(hashes, rows, m', q', b - 1)
      && var r := Rounds(ds, hashes, cap, rows, m, q, listed, b);
         more <= r.listed &&
         if f == [] then m' == m && r == Found(m, more) else r == Rounds(ds, hashes, cap, rows, m', q', more, b - 1)
  {
    hide Unequal, Followed, Older, Advanced, Pushed, Present, AtHash;
    NextInRound(ds, hashes, rows, m, q, b);
    RoundsList(ds, hashes, cap, rows, m, q, listed, b);
    if Followed(hashes, rows, m, q) == [] { StandStill(ds, hashes, rows, m, q); }
  }

  lemma FirstRounds<K, V>(ds: seq<Input<K>>, hashes: seq<Hash>, cap: nat, rows: seq<Row<Key<K>, V>>)
    requires cap > 0
    ensures var m, f := Newest(hashes, rows), HashedAs(hashes, rows, |hashes|, true);
      && Within(f, |m|)
      && var q := Unequal(ds, rows, m, f, 0);
         Standing(hashes, rows, m, q) && Unrepeated(q) && Below(m, q, |rows|) &&
         LookupOf(ds, hashes, cap, rows) ==
         Rounds(ds, hashes, cap, rows, m, q, HashedAs(hashes, rows, |hashes|, false), |rows|)
  {
    hide Unequal, HashedAs, Rounds, Newest;
    FirstRound(ds, hashes, rows);
  }

  lemma NoRound<K, V>(ds: seq<Input<K>>, hashes: seq<Hash>, cap: nat, rows: seq<Row<Key<K>, V>>, m: seq<nat>,
                      listed: seq<nat>, b: nat)
    requires cap > 0 && Standing(hashes, rows, m, [])
    ensures Rounds(ds, hashes, cap, rows, m, [], listed, b) == Found(m, listed)
  {
  }

  lemma StandsWhere<K, V>(htMatches: array<nat>, hashes: seq<Hash>, rows: seq<Row<Key<K>, V>>, m: seq<nat>, q: seq<nat>,
                          b: nat)
    requires Pointing(htMatches, hashes, rows, m) && InRound(hashes, rows, m, q, b)
    ensures StandAt(htMatches, m, q)
  {
    hide Present, AtHash;
  }

  lemma StillPointing<K, V>(htMatches: array<nat>, was: seq<nat>, hashes: seq<Hash>, rows: seq<Row<Key<K>, V>>,
                            m: seq<nat>, q: seq<nat>)
    requires Standing(hashes, rows, m, q) && |m| <= htMatches.Length == |was|
    requires forall x: nat :: x < |m| && Present(rows, hashes[x]) ==> was[x] == m[x]
    requires StandAt(htMatches, Advanced(hashes, rows, m, q), q)
    requires forall x: nat :: x < htMatches.Length && x !in q ==> htMatches[x] == was[x]
    ensures Pointing(htMatches, hashes, rows, Advanced(hashes, rows, m, q))
  {
    hide Present, Next;
    var m' := Advanced(hashes, rows, m, q);
    forall x: nat | x < |m'| && Present(rows, hashes[x]) ensures htMatches[x] == m'[x] {
      if x in q { var k :| 0 <= k < |q| && q[k] == x; }
    }
  }

  /** findGroups: the entries of the tuples, and what is listed as not found. More than the buffer
      holds may come to be listed. */
  method FindGroups<K(==), V>(t: Hashmapx<Key<K>, V>, ds: seq<Input<K>>, hashes: seq<Hash>, n: nat,
                              htMatches: array<nat>, groupsFound: array<nat>, groupsNotFound: array<nat>)
    returns (ok: bool, missing: nat)
    requires t.Valid() && t.capacity > 0 && n == |hashes| && Columns(ds, t.rows)
    requires n <= htMatches.Length && n <= groupsFound.Length && n <= groupsNotFound.Length
    requires htMatches != groupsNotFound && htMatches != groupsFound && groupsFound != groupsNotFound
    modifies htMatches, groupsFound, groupsNotFound
    ensures ok <==> |LookupOf(ds, hashes, t.capacity, t.rows).listed| <= groupsNotFound.Length
    ensures ok ==>
      var r := LookupOf(ds, hashes, t.capacity, t.rows);
      && missing == |r.listed| && groupsNotFound[..missing] == r.listed
      && Pointing(htMatches, hashes, t.rows, r.matches)
  {
    hide Hashmapx.Valid, Columns, HashedAs, Unequal, Followed, Pushed, Advanced, AtHash, Present, Newest, StandAt,
      Rounds;
    ghost var goal := LookupOf(ds, hashes, t.capacity, t.rows);
    ghost var m: seq<nat>, b: nat := Newest(hashes, t.rows), |t.rows|;
    var found;
    found, missing := LookUp(t, hashes, n, htMatches, groupsFound, groupsNotFound);
    FirstInRound(ds, hashes, t.rows);
    FirstRounds(ds, hashes, t.capacity, t.rows);
    StandsWhere(htMatches, hashes, t.rows, m, HashedAs(hashes, t.rows, n, true), b);
    var _, keysNEq := KeyEquality(t, ds, found, htMatches, groupsFound, m, HashedAs(hashes, t.rows, n, true));
    while keysNEq != []
      invariant InRound(hashes, t.rows, m, keysNEq, b) && Pointing(htMatches, hashes, t.rows, m)
      invariant missing <= groupsNotFound.Length
      invariant Rounds(ds, hashes, t.capacity, t.rows, m, keysNEq, groupsNotFound[..missing], b) == goal
      decreases b
    {
      ghost var q, listed := keysNEq, groupsNotFound[..missing];
      RoundsStep(ds, hashes, t.capacity, t.rows, m, q, listed, b);
      NextInRound(ds, hashes, t.rows, m, q, b);
      StandsWhere(htMatches, hashes, t.rows, m, q, b);
      ghost var was := htMatches[..];
      ok, found, missing := HtFollow(t, hashes, keysNEq, htMatches, groupsFound, groupsNotFound, missing, m);
      if !ok { return; }
      ghost var f, m' := Followed(hashes, t.rows, m, q), Advanced(hashes, t.rows, m, q);
      StillPointing(htMatches, was, hashes, t.rows, m, q);
      if found == 0 {
        return true, missing;
      }
      StandsWhere(htMatches, hashes, t.rows, m', f, b - 1);
      var _, more := KeyEquality(t, ds, found, htMatches, groupsFound, m', f);
      keysNEq, m, b := more, m', b - 1;
    }
    NoRound(ds, hashes, t.capacity, t.rows, m, groupsNotFound[..missing], b);
    ok := true;
  }

  // --------------------------------------------------------------- creation

  /** One representative for each partition: its first tuple. */
  method Representatives(groups: nat, sel: array<nat>, groupEnds: array<nat>, ghost parts: seq<seq<nat>>)
    returns (reps: seq<nat>)
    requires groups == |parts| <= groupEnds.Length && groupEnds[..groups] == Ends(parts, 0)
    requires |Flatten(parts)| <= sel.Length && sel[..|Flatten(parts)|] == Flatten(parts)
    requires forall p :: 0 <= p < |parts| ==> parts[p] != []
    ensures |reps| == groups && forall p :: 0 <= p < groups ==> reps[p] == parts[p][0]
  {
    reps := [];
    var i, groupId := 0, 0;
    while i < groups
      invariant i <= groups && |reps| == i
      invariant groupId == |Flatten(parts[..i])|
      invariant forall p :: 0 <= p < i ==> reps[p] == parts[p][0]
    {
      PartStart(parts, i);
      assert sel[..|Flatten(parts)|][groupId] == parts[i][0];
      reps := reps + [sel[groupId]];
      assert groupEnds[..groups][i] == groupEnds[i];
      groupId := groupEnds[i];
      i := i + 1;
    }
  }

  lemma PartStart(parts: seq<seq<nat>>, p: nat)
    requires p < |parts|
    ensures |Flatten(parts[..p])| + |parts[p]| == |Flatten(parts[..p + 1])| <= |Flatten(parts)|
    ensures Ends(parts, 0)[p] == |Flatten(parts[..p + 1])|
    ensures forall j :: 0 <= j < |parts[p]| ==> Flatten(parts)[|Flatten(parts[..p])| + j] == parts[p][j]
  {
    EndsAt(parts, 0, p);
    var a, b := |Flatten(parts[..p])|, |Flatten(parts[..p + 1])|;
    assert forall j :: 0 <= j < |parts[p]| ==> Flatten(parts)[a..b][j] == Flatten(parts)[a + j];
  }

  /** No tuple is in two parts. */
  ghost predicate Disjoint(parts: seq<seq<nat>>) {
    forall p, q, x :: 0 <= p < |parts| && 0 <= q < |parts| && x in parts[p] && x in parts[q] ==> p == q
  }

  /** Writes the pointers to the new entries back to the tuples of each partition. */
  method WriteBack(groups: nat, rows: array<nat>, ends: array<nat>, base: nat, htMatches: array<nat>,
                   ghost parts: seq<seq<nat>>)
    requires groups == |parts| <= ends.Length && ends[..groups] == Ends(parts, 0)
    requires |Flatten(parts)| <= rows.Length && rows[..|Flatten(parts)|] == Flatten(parts)
    requires forall p, j :: 0 <= p < |parts| && 0 <= j < |parts[p]| ==> parts[p][j] < htMatches.Length
    requires Disjoint(parts)
    requires htMatches != rows && htMatches != ends
    modifies htMatches
    ensures forall p, j :: 0 <= p < |parts| && 0 <= j < |parts[p]| ==> htMatches[parts[p][j]] == base + p
    ensures forall x :: 0 <= x < htMatches.Length && (forall p :: 0 <= p < |parts| ==> x !in parts[p]) ==>
      htMatches[x] == old(htMatches[x])
  {
    var pStart, p := 0, 0;
    while p < groups
      invariant p <= groups && pStart == |Flatten(parts[..p])|
      invariant forall q, j :: 0 <= q < p && 0 <= j < |parts[q]| ==> htMatches[parts[q][j]] == base + q
      invariant forall x :: 0 <= x < htMatches.Length && (forall q :: 0 <= q < p ==> x !in parts[q]) ==>
        htMatches[x] == old(htMatches[x])
    {
      PartStart(parts, p);
      var end := ends[p];
      assert ends[..groups][p] == ends[p];
      ghost var before := htMatches[..];
      var i := pStart;
      while i < end
        invariant pStart <= i <= end
        invariant forall j :: 0 <= j < i - pStart ==> htMatches[parts[p][j]] == base + p
        invariant forall x :: 0 <= x < htMatches.Length && x !in parts[p] ==> htMatches[x] == before[x]
      {
        assert rows[i] == rows[..|Flatten(parts)|][i] == parts[p][i - pStart];
        htMatches[rows[i]] := base + p;
        i := i + 1;
      }
      forall q, j | 0 <= q < p && 0 <= j < |parts[q]| ensures htMatches[parts[q][j]] == base + q {
        assert parts[q][j] !in parts[p];
      }
      pStart := end;
      p := p + 1;
    }
  }

  /** What buildScatter writes into the new entries. */
  function Scattered<K, V>(ds: seq<Input<K>>, hashes: seq<Hash>, reps: seq<nat>, init: V): (rows: seq<Row<Key<K>, V>>)
    requires forall p :: 0 <= p < |reps| ==> reps[p] < |hashes|
    ensures |rows| == |reps|
    ensures forall p :: 0 <= p < |reps| ==> rows[p] == Row(hashes[reps[p]], CompositeKey(ds)(reps[p]), init)
  {
    seq(|reps|, p requires 0 <= p < |reps| => Row(hashes[reps[p]], CompositeKey(ds)(reps[p]), init))
  }

  ghost predicate InPart<K, V>(ds: seq<Input<K>>, rows: seq<Row<Key<K>, V>>, n: nat, xs: seq<nat>, x: nat, e: nat) {
    x in xs && x < n && Matches(ds, rows, x, e)
  }

  /** Every part has its own entry, from `base` on, and every tuple of xs is in one part. */
  ghost predicate Assigned<K, V>(ds: seq<Input<K>>, rows: seq<Row<Key<K>, V>>, n: nat, xs: seq<nat>,
                                 parts: seq<seq<nat>>, base: nat) {
    && Disjoint(parts)
    && (forall p :: 0 <= p < |parts| ==> parts[p] != [])
    && (forall p: nat, x: nat :: p < |parts| && x in parts[p] ==> InPart(ds, rows, n, xs, x, base + p))
    && (forall x: nat :: x in xs ==> exists p :: 0 <= p < |parts| && x in parts[p])
  }

  /** Every part has its entry. No key has two, if none had before, exactly if the keys of the parts
      are new. */
  lemma NewGroups<K(!new), V>(ds: seq<Input<K>>, hashes: seq<Hash>, n: nat, rows: seq<Row<Key<K>, V>>, xs: seq<nat>,
                              parts: seq<seq<nat>>, reps: seq<nat>, init: V)
    requires Groups(CompositeKey(ds), xs, parts) && n == |hashes| && Within(xs, n)
    requires |reps| == |parts| && forall p :: 0 <= p < |parts| ==> reps[p] == parts[p][0] < |hashes|
    ensures var all := rows + Scattered(ds, hashes, reps, init);
      && Assigned(ds, all, n, xs, parts, |rows|)
      && (Distinct(rows) ==> (Distinct(all) <==> forall k :: 0 <= k < |xs| ==> Missing(ds, rows, xs[k])))
  {
    NewAssigned(ds, hashes, n, rows, xs, parts, reps, init);
    hide Groups, CompositeKey, InPart;
    var all := rows + Scattered(ds, hashes, reps, init);
    if Distinct(all) {
      forall k | 0 <= k < |xs| ensures Missing(ds, rows, xs[k]) {
        NewIsNew(ds, n, rows, Scattered(ds, hashes, reps, init), xs, parts, xs[k]);
      }
    }
    if Distinct(rows) && forall k :: 0 <= k < |xs| ==> Missing(ds, rows, xs[k]) {
      NewDistinct(ds, hashes, n, rows, xs, parts, reps, init);
    }
  }

  lemma NewIsNew<K, V>(ds: seq<Input<K>>, n: nat, rows: seq<Row<Key<K>, V>>, more: seq<Row<Key<K>, V>>, xs: seq<nat>,
                       parts: seq<seq<nat>>, x: nat)
    requires Assigned(ds, rows + more, n, xs, parts, |rows|) && Distinct(rows + more) && x in xs
    ensures Missing(ds, rows, x)
  {
    hide CompositeKey;
    var p: nat :| p < |parts| && x in parts[p];
    assert InPart(ds, rows + more, n, xs, x, |rows| + p);
    forall i | 0 <= i < |rows| ensures rows[i].k != CompositeKey(ds)(x) {
      assert (rows + more)[i] == rows[i];
    }
  }

  lemma NewAssigned<K(!new), V>(ds: seq<Input<K>>, hashes: seq<Hash>, n: nat, rows: seq<Row<Key<K>, V>>, xs: seq<nat>,
                                parts: seq<seq<nat>>, reps: seq<nat>, init: V)
    requires Groups(CompositeKey(ds), xs, parts) && n == |hashes| && Within(xs, n)
    requires |reps| == |parts| && forall p :: 0 <= p < |parts| ==> reps[p] == parts[p][0] < |hashes|
    ensures Assigned(ds, rows + Scattered(ds, hashes, reps, init), n, xs, parts, |rows|)
  {
    var cls := CompositeKey(ds);
    var all := rows + Scattered(ds, hashes, reps, init);
    forall p: nat, x: nat | p < |parts| && x in parts[p] ensures x in xs && cls(x) == cls(parts[p][0]) {
      OfClassMembers(cls, cls(parts[p][0]), xs);
    }
    hide OfClass, CompositeKey;
    forall p: nat, x: nat | p < |parts| && x in parts[p] ensures InPart(ds, all, n, xs, x, |rows| + p) {
      assert cls(x) == cls(parts[p][0]) && x in xs;
      var k :| 0 <= k < |xs| && xs[k] == x;
      assert all[|rows| + p] == Scattered(ds, hashes, reps, init)[p];
    }
    forall p: nat, q: nat, x | p < |parts| && q < |parts| && x in parts[p] && x in parts[q] ensures p == q {
      assert cls(parts[p][0]) == cls(x) == cls(parts[q][0]);
    }
  }

  lemma NewDistinct<K(!new), V>(ds: seq<Input<K>>, hashes: seq<Hash>, n: nat, rows: seq<Row<Key<K>, V>>, xs: seq<nat>,
                                parts: seq<seq<nat>>, reps: seq<nat>, init: V)
    requires Groups(CompositeKey(ds), xs, parts) && Distinct(rows) && n == |hashes| && Within(xs, n)
    requires forall k :: 0 <= k < |xs| ==> Missing(ds, rows, xs[k])
    requires |reps| == |parts| && forall p :: 0 <= p < |parts| ==> reps[p] == parts[p][0] < |hashes|
    ensures Distinct(rows + Scattered(ds, hashes, reps, init))
  {
    hide CompositeKey, Groups, Scattered, Missing;
    var cls, more := CompositeKey(ds), Scattered(ds, hashes, reps, init);
    PartsOf(cls, xs, parts);
    PartsDiffer(cls, xs, parts);
    forall i: nat, p: nat | i < |rows| && p < |parts| ensures rows[i].k != more[p].k {
      assert parts[p] != [] && parts[p][0] in xs;
      var k :| 0 <= k < |xs| && xs[k] == parts[p][0];
      assert Missing(ds, rows, xs[k]);
      NotThere(ds, rows, xs[k], i);
    }
  }

  lemma NotThere<K, V>(ds: seq<Input<K>>, rows: seq<Row<Key<K>, V>>, x: nat, i: nat)
    requires Missing(ds, rows, x) && i < |rows|
    ensures rows[i].k != CompositeKey(ds)(x)
  {
    hide CompositeKey;
  }

  lemma PartsDiffer<C(!new)>(cls: nat -> C, xs: seq<nat>, parts: seq<seq<nat>>)
    requires Groups(cls, xs, parts)
    ensures forall p :: 0 <= p < |parts| ==> parts[p] != []
    ensures forall p, q :: 0 <= p < q < |parts| ==> cls(parts[p][0]) != cls(parts[q][0])
  {
    hide OfClass;
  }

  /** The buffers of the partitioning, and their sizes. */
  datatype Scratch = Scratch(rowsIn: array<nat>, rowsOut: array<nat>, endsIn: array<nat>, endsOut: array<nat>) {
    ghost function All(): set<object> { {rowsIn, rowsOut, endsIn, endsOut} }

    ghost predicate Fits(n: nat) {
      && n <= rowsIn.Length && n <= rowsOut.Length && n <= endsIn.Length && n <= endsOut.Length
      && rowsIn != rowsOut && rowsIn != endsIn && rowsIn != endsOut
      && rowsOut != endsIn && rowsOut != endsOut && endsIn != endsOut
    }
  }

  /** The keys of a vector. */
  ghost function KeysOf<K>(ds: seq<Input<K>>, n: nat): set<Key<K>> {
    set x: nat | x < n :: CompositeKey(ds)(x)
  }

  /** The small table has few enough keys to hold not to grow while a vector is partitioned, or
      need not mind. */
  ghost predicate Steady<K>(ds: seq<Input<K>>, small: HashmapSmall, n: nat)
    reads small
  {
    |ds| == 1 || |KeysOf(ds, n)| <= small.capLimit
  }

  lemma {:induction false} DistinctCount<C(!new)>(key: nat -> C, f: seq<nat>, all: set<C>)
    requires forall g, h :: 0 <= g < h < |f| ==> key(f[g]) != key(f[h])
    requires forall g :: 0 <= g < |f| ==> key(f[g]) in all
    ensures |f| <= |all|
  {
    if f != [] {
      var n := |f| - 1;
      DistinctCount(key, f[..n], all - {key(f[n])});
    }
  }

  lemma KeyFixesClass<K, V>(ds: seq<Input<K>>, hashes: seq<Hash>, n: nat, rows: seq<Row<Key<K>, V>>, cap: nat, i: nat,
                            x: nat, y: nat)
    requires Hashes(ds, hashes, n) && Fitting(ds, hashes, n, rows) && cap > 0 && i < |ds| && x < n && y < n
    ensures CompositeKey(ds)(x) == CompositeKey(ds)(y) ==> Classes(ds[i], cap)(x) == Classes(ds[i], cap)(y)
  {
    hide CompositeKey, Slot;
    CompositeAt(ds, x);
    CompositeAt(ds, y);
    assert CompositeKey(ds)(x)[i] == KeyOf(ds[i])(x) && CompositeKey(ds)(y)[i] == KeyOf(ds[i])(y);
  }

  /** No pass meets more classes than the vector has keys. */
  lemma ClassesOfKeys<K(!new), V>(ds: seq<Input<K>>, hashes: seq<Hash>, n: nat, rows: seq<Row<Key<K>, V>>, xs: seq<nat>,
                                  cap: nat, i: nat, p: nat)
    requires Hashes(ds, hashes, n) && Fitting(ds, hashes, n, rows) && cap > 0 && xs != [] && i < |ds|
    requires forall k :: 0 <= k < |xs| ==> xs[k] < n
    requires p < |RefineAll(ds[..i], cap, [xs])|
    ensures |Firsts(Classes(ds[i], cap), RefineAll(ds[..i], cap, [xs])[p])| <= |KeysOf(ds, n)|
  {
    hide RefineAll, Firsts, CompositeKey, Slot;
    var part := RefineAll(ds[..i], cap, [xs])[p];
    var cls := Classes(ds[i], cap);
    var f := Firsts(cls, part);
    PrefixesGrouped(ds[..i], cap, xs);
    OfClassMembers(Prefix(ds[..i], cap), Prefix(ds[..i], cap)(part[0]), xs);
    FirstsMembers(cls, part);
    forall g | 0 <= g < |f| ensures f[g] < n { assert f[g] in part; }
    forall g: nat, h: nat | g < h < |f| ensures CompositeKey(ds)(f[g]) != CompositeKey(ds)(f[h]) {
      KeyFixesClass(ds, hashes, n, rows, cap, i, f[g], f[h]);
    }
    DistinctCount(CompositeKey(ds), f, KeysOf(ds, n));
  }

  lemma MayPartition<K(!new), V>(ds: seq<Input<K>>, hashes: seq<Hash>, n: nat, rows: seq<Row<Key<K>, V>>, xs: seq<nat>,
                                 cap: nat)
    requires Hashes(ds, hashes, n) && Fitting(ds, hashes, n, rows) && cap > 0 && xs != []
    requires forall k :: 0 <= k < |xs| ==> xs[k] < n
    ensures HashOfAll(ds, xs)
    ensures |ds| == 1 || |KeysOf(ds, n)| <= cap * 7 / 10 ==> Unsplit(ds, cap, xs)
    ensures |KeysOf(ds, n)| <= cap * 7 / 10 ==> Evaluated(ds, cap, xs).cap == cap
  {
    hide RefineAll, Firsts, CompositeKey, Slot, Unsplit, Evaluated;
    if |KeysOf(ds, n)| <= cap * 7 / 10 {
      forall i: nat, p: nat | i < |ds| && p < |RefineAll(ds[..i], cap, [xs])|
        ensures |Firsts(Classes(ds[i], cap), RefineAll(ds[..i], cap, [xs])[p])| <= cap * 7 / 10 {
        ClassesOfKeys(ds, hashes, n, rows, xs, cap, i, p);
      }
      SteadyGrouped(ds, cap, xs);
    }
    if |ds| == 1 {
      forall x: nat, y: nat |
        x in xs && y in xs && ds[0].Has(x) && ds[0].Has(y) && ds[0].keys[ds[0].rep[x]] == ds[0].keys[ds[0].rep[y]]
        ensures ds[0].hashes[x] == ds[0].hashes[y] {
        CompositeAt(ds, x);
        CompositeAt(ds, y);
        assert CompositeKey(ds)(x) == CompositeKey(ds)(y);
      }
      OneOperation(ds, cap, xs);
    }
  }

  lemma OneOperation<K(!new)>(ds: seq<Input<K>>, cap: nat, xs: seq<nat>)
    requires cap > 0 && |ds| == 1 && HashesFit(ds[0], xs)
    ensures Unsplit(ds, cap, xs)
  {
    hide NeverDivided, HashesFit;
    FittingParts(ds[0], cap, [xs]);
    NoOperations(ds, cap, xs);
  }

  /** The new entries go into the table: all of the stack again if the table is resized, and else
      just they. */
  method InsertNew<K(==), V>(t: Hashmapx<Key<K>, V>, more: seq<Row<Key<K>, V>>, maxFill: nat, allowResize: bool)
    returns (fill: nat)
    requires t.Valid() && more != []
    modifies t, t.dir
    ensures t.Valid() && t.rows == old(t.rows) + more && (t.dir == old(t.dir) || fresh(t.dir))
    ensures allowResize ==> |t.rows| <= fill
  {
    var entriesInHt := |t.rows| + |more|;
    var base := |t.rows|;
    t.Append(more);
    if allowResize && entriesInHt > maxFill {
      fill := t.SetSize(entriesInHt * 2);
      t.InsertAll();
    } else {
      fill := maxFill;
      t.InsertBlock(base);
    }
  }

  lemma AllCover<K>(ds: seq<Input<K>>, xs: seq<nat>)
    requires HashOfAll(ds, xs)
    ensures forall i :: 0 <= i < |ds| ==> ds[i].Covers(xs)
  {
  }

  /** The rows that were not found, partitioned by key. */
  method PartitionMissing<K(==, !new), V>(small: HashmapSmall, ds: seq<Input<K>>, ghost hashes: seq<Hash>, n: nat,
                                          missing: nat, b: Scratch, ghost known: seq<Row<Key<K>, V>>)
    returns (ok: bool, groups: nat, rows: array<nat>, ends: array<nat>, ghost parts: seq<seq<nat>>)
    requires Hashes(ds, hashes, n) && Fitting(ds, hashes, n, known)
    requires small.Valid() && small.Empty() && small.capacity > 0 && 0 < missing <= small.size
    requires b.Fits(missing) && small.entries !in b.All()
    requires forall k :: 0 <= k < missing ==> b.rowsIn[k] < n
    modifies small, small.entries, small.storage, b.rowsIn, b.rowsOut, b.endsIn, b.endsOut
    ensures rows in {b.rowsIn, b.rowsOut} && ends in {b.endsIn, b.endsOut}
    ensures ok <==> Unsplit(ds, old(small.capacity), old(b.rowsIn[..missing]))
    ensures old(Steady(ds, small, n)) ==> ok
    ensures ok ==>
      && small.Valid() && small.Empty()
      && (old(|KeysOf(ds, n)| <= small.capLimit) ==> small.capacity == old(small.capacity))
      && groups == |parts| <= ends.Length && ends[..groups] == Ends(parts, 0)
      && |Flatten(parts)| <= rows.Length && rows[..|Flatten(parts)|] == Flatten(parts)
      && Groups(CompositeKey(ds), old(b.rowsIn[..missing]), parts)
  {
    hide HashmapSmall.Stored, HashmapSmall.Threaded, Evaluated, Unsplit, Flatten, Ends, OfClass, Fitting, HashesFit,
      HashOfAll, Groups, CompositeKey, Slot;
    ghost var xs := b.rowsIn[..missing];
    b.endsIn[0] := missing;
    MayPartition(ds, hashes, n, known, xs, small.capacity);
    AllCover(ds, xs);
    parts := Evaluated(ds, small.capacity, xs).parts;
    CompositeKeysGrouped(ds, small.capacity, xs);
    ok, groups, rows, ends := PartitionByKeys(small, ds, xs, b.rowsIn, b.rowsOut, b.endsIn, b.endsOut);
  }

  /** createMissingGroups: one new group for every key among the tuples listed as not found, and all these
      tuples point to theirs, unless partitioning them is divided by growth. */
  method CreateMissingGroups<K(==, !new), V>(t: Hashmapx<Key<K>, V>, small: HashmapSmall, ds: seq<Input<K>>,
                                             hashes: seq<Hash>, n: nat, missing: nat, b: Scratch,
                                             htMatches: array<nat>, init: V, maxFill: nat, allowResize: bool)
    returns (ok: bool, groups: nat, fill: nat)
    requires t.Valid() && Hashes(ds, hashes, n) && Fitting(ds, hashes, n, t.rows)
    requires small.Valid() && small.Empty() && small.capacity > 0 && missing <= small.size
    requires b.Fits(missing) && n <= htMatches.Length && small.entries !in b.All() && htMatches !in b.All()
    requires htMatches != small.entries
    requires forall k :: 0 <= k < missing ==> b.rowsIn[k] < n
    modifies t, t.dir, small, small.entries, small.storage, b.rowsIn, b.rowsOut, b.endsIn, b.endsOut, htMatches
    ensures ok <==> missing == 0 || Unsplit(ds, old(small.capacity), old(b.rowsIn[..missing]))
    ensures old(Steady(ds, small, n)) ==> ok
    ensures t.dir == old(t.dir) || fresh(t.dir)
    ensures ok ==>
      && t.Valid() && small.Valid() && small.Empty()
      && (old(|KeysOf(ds, n)| <= small.capLimit) ==> small.capacity == old(small.capacity))
      && (allowResize && |old(t.rows)| <= maxFill ==> |t.rows| <= fill)
      && |t.rows| == |old(t.rows)| + groups && old(t.rows) <= t.rows
      && (forall x :: x in old(b.rowsIn[..missing]) ==> Matches(ds, t.rows, x, htMatches[x]))
      && (forall x :: 0 <= x < htMatches.Length && x !in old(b.rowsIn[..missing]) ==> htMatches[x] == old(htMatches[x]))
      && (forall e :: |old(t.rows)| <= e < |t.rows| ==> NewGroup(ds, hashes, t.rows[e], n, init))
      && (old(Distinct(t.rows)) ==>
            (Distinct(t.rows) <==> AllMissing(ds, old(t.rows), old(b.rowsIn[..missing]))))
  {
    hide Hashmapx.Threaded, HashmapSmall.Stored, HashmapSmall.Threaded, HashmapSmall.Sized, HashmapSmall.Valid,
      HashmapSmall.Empty, Hashmapx.Valid, Hashes, Steady, Unsplit, Flatten, Ends, OfClass, Fitting, Missing,
      CompositeKey, Slot, Distinct, Groups, Matches, NewGroup, KeysOf;
    if missing == 0 {
      return true, 0, maxFill;
    }
    ghost var xs := b.rowsIn[..missing];
    assert forall k :: 0 <= k < |xs| ==> xs[k] == b.rowsIn[k];
    LengthOf(ds, hashes, n);
    var rows, ends;
    ghost var parts;
    ok, groups, rows, ends, parts := PartitionMissing(small, ds, hashes, n, missing, b, t.rows);
    fill := maxFill;
    if !ok { return; }
    fill := AddGroups(t, ds, hashes, n, xs, groups, rows, ends, parts, htMatches, init, maxFill, allowResize);
  }

  ghost predicate AllMissing<K, V>(ds: seq<Input<K>>, rows: seq<Row<Key<K>, V>>, xs: seq<nat>) {
    forall k :: 0 <= k < |xs| ==> Missing(ds, rows, xs[k])
  }

  /** A new entry for each partition. */
  method AddGroups<K(==, !new), V>(t: Hashmapx<Key<K>, V>, ds: seq<Input<K>>, hashes: seq<Hash>, ghost n: nat,
                                   ghost xs: seq<nat>,
                                   groups: nat, rows: array<nat>, ends: array<nat>, ghost parts: seq<seq<nat>>,
                                   htMatches: array<nat>, init: V, maxFill: nat, allowResize: bool) returns (fill: nat)
    requires t.Valid() && n == |hashes| <= htMatches.Length && xs != [] && Within(xs, n)
    requires groups == |parts| <= ends.Length && ends[..groups] == Ends(parts, 0)
    requires |Flatten(parts)| <= rows.Length && rows[..|Flatten(parts)|] == Flatten(parts)
    requires Groups(CompositeKey(ds), xs, parts)
    requires htMatches != rows && htMatches != ends
    modifies t, t.dir, htMatches
    ensures t.Valid() && (t.dir == old(t.dir) || fresh(t.dir))
    ensures old(Distinct(t.rows)) ==> (Distinct(t.rows) <==> AllMissing(ds, old(t.rows), xs))
    ensures allowResize ==> |t.rows| <= fill
    ensures |t.rows| == |old(t.rows)| + groups && old(t.rows) <= t.rows
    ensures forall x :: x in xs ==> x < htMatches.Length && Matches(ds, t.rows, x, htMatches[x])
    ensures forall x :: 0 <= x < htMatches.Length && x !in xs ==> htMatches[x] == old(htMatches[x])
    ensures forall e :: |old(t.rows)| <= e < |t.rows| ==> NewGroup(ds, hashes, t.rows[e], n, init)
  {
    hide Hashmapx.Threaded, Hashmapx.Sized, Flatten, Ends, OfClass, Missing, CompositeKey, Distinct, Groups, Assigned,
      Matches, NewGroup;
    PartsOf(CompositeKey(ds), xs, parts);
    var reps := Representatives(groups, rows, ends, parts);
    var base := |t.rows|;
    ghost var was := t.rows;
    NewGroups(ds, hashes, n, t.rows, xs, parts, reps, init);
    fill := InsertNew(t, Scattered(ds, hashes, reps, init), maxFill, allowResize);
    PointBack(ds, t.rows, n, xs, groups, rows, ends, base, htMatches, parts);
    NewAreNew(ds, hashes, was, Scattered(ds, hashes, reps, init), n, reps, init);
  }

  /** The pointers of the tuples that were missing. */
  method PointBack<K, V>(ghost ds: seq<Input<K>>, ghost entries: seq<Row<Key<K>, V>>, ghost n: nat, ghost xs: seq<nat>,
                         groups: nat, rows: array<nat>, ends: array<nat>, base: nat, htMatches: array<nat>,
                         ghost parts: seq<seq<nat>>)
    requires Assigned(ds, entries, n, xs, parts, base) && n <= htMatches.Length
    requires groups == |parts| <= ends.Length && ends[..groups] == Ends(parts, 0)
    requires |Flatten(parts)| <= rows.Length && rows[..|Flatten(parts)|] == Flatten(parts)
    requires htMatches != rows && htMatches != ends
    modifies htMatches
    ensures forall x :: x in xs ==> x < htMatches.Length && Matches(ds, entries, x, htMatches[x])
    ensures forall x :: 0 <= x < htMatches.Length && x !in xs ==> htMatches[x] == old(htMatches[x])
  {
    hide Flatten, Ends, Matches;
    forall p: nat, j: nat | p < |parts| && j < |parts[p]| ensures parts[p][j] < htMatches.Length {
      assert parts[p][j] in parts[p];
      assert InPart(ds, entries, n, xs, parts[p][j], base + p);
    }
    WriteBack(groups, rows, ends, base, htMatches, parts);
    forall x | x in xs ensures x < htMatches.Length && Matches(ds, entries, x, htMatches[x]) {
      var p: nat :| p < |parts| && x in parts[p];
      var j: nat :| j < |parts[p]| && parts[p][j] == x;
      assert InPart(ds, entries, n, xs, x, base + p);
    }
    forall p: nat, x: nat | p < |parts| && x in parts[p] ensures x in xs {
      assert InPart(ds, entries, n, xs, x, base + p);
    }
  }

  lemma NewAreNew<K, V>(ds: seq<Input<K>>, hashes: seq<Hash>, rows: seq<Row<Key<K>, V>>, more: seq<Row<Key<K>, V>>,
                        n: nat, reps: seq<nat>, init: V)
    requires forall p :: 0 <= p < |reps| ==> reps[p] < n == |hashes|
    requires more == Scattered(ds, hashes, reps, init)
    ensures forall e :: |rows| <= e < |rows + more| ==> NewGroup(ds, hashes, (rows + more)[e], n, init)
  {
    forall e: nat | |rows| <= e < |rows + more| ensures NewGroup(ds, hashes, (rows + more)[e], n, init) {
      var p: nat := e - |rows|;
      assert (rows + more)[e] == more[p];
      assert Made(ds, hashes, more[p], reps[p], init);
    }
  }

  lemma PartsOf<C(!new)>(cls: nat -> C, xs: seq<nat>, parts: seq<seq<nat>>)
    requires Groups(cls, xs, parts)
    ensures forall p :: 0 <= p < |parts| ==> parts[p] != [] && parts[p][0] in xs
    ensures xs != [] ==> parts != []
  {
    assert xs != [] ==> xs[0] in xs;
    forall p: nat | p < |parts| ensures parts[p][0] in xs {
      OfClassMembers(cls, cls(parts[p][0]), xs);
      assert parts[p][0] in parts[p];
    }
  }

  /** What stands between a vector and its groups: more than the buffer holds is listed, or partitioning
      what is listed is divided by growth of the small table. */
  ghost predicate Creatable<K, V>(ds: seq<Input<K>>, hashes: seq<Hash>, cap: nat, rows: seq<Row<Key<K>, V>>, room: nat,
                                  smallCap: nat)
    requires cap > 0 && smallCap > 0
  {
    var listed := LookupOf(ds, hashes, cap, rows).listed;
    |listed| <= room && (listed == [] || Unsplit(ds, smallCap, listed))
  }

  /** Every tuple points to an entry with its key. */
  ghost predicate AllMatch<K, V>(ds: seq<Input<K>>, rows: seq<Row<Key<K>, V>>, n: nat, matches: seq<nat>) {
    n <= |matches| && forall x: nat :: x < n ==> Matches(ds, rows, x, matches[x])
  }

  /** findGroups, then createMissingGroups. Afterwards every tuple of the vector points to an entry with
      its key and no key has two entries, if and only if exactly the tuples without a group have been
      listed as not found. */
  method GroupVector<K(==, !new), V>(t: Hashmapx<Key<K>, V>, small: HashmapSmall, ds: seq<Input<K>>, hashes: seq<Hash>,
                                     n: nat, b: Scratch, htMatches: array<nat>, groupsFound: array<nat>, init: V,
                                     maxFill: nat, allowResize: bool) returns (ok: bool, groups: nat, fill: nat)
    requires t.Valid() && t.capacity > 0 && Hashes(ds, hashes, n) && Fitting(ds, hashes, n, t.rows)
    requires Columns(ds, t.rows)
    requires small.Valid() && small.Empty() && small.capacity > 0 && n <= b.rowsIn.Length <= small.size
    requires b.Fits(b.rowsIn.Length) && n <= htMatches.Length && n <= groupsFound.Length
    requires small.entries !in b.All() && htMatches !in b.All() && groupsFound !in b.All()
    requires htMatches != small.entries && groupsFound != small.entries && groupsFound != htMatches
    modifies t, t.dir, small, small.entries, small.storage, b.rowsIn, b.rowsOut, b.endsIn, b.endsOut, htMatches,
             groupsFound
    ensures ok <==> Creatable(ds, hashes, old(t.capacity), old(t.rows), b.rowsIn.Length, old(small.capacity))
    ensures ClashFree(ds, hashes, old(t.rows)) && old(Steady(ds, small, n)) ==> ok
    ensures t.dir == old(t.dir) || fresh(t.dir)
    ensures ok ==>
      && t.Valid() && small.Valid() && small.Empty()
      && (old(|KeysOf(ds, n)| <= small.capLimit) ==> small.capacity == old(small.capacity))
      && (allowResize && |old(t.rows)| <= maxFill ==> |t.rows| <= fill)
      && (forall x :: 0 <= x < n ==> htMatches[x] < |t.rows|)
      && |t.rows| == |old(t.rows)| + groups && old(t.rows) <= t.rows
      && (forall e :: |old(t.rows)| <= e < |t.rows| ==> NewGroup(ds, hashes, t.rows[e], n, init))
    ensures ok && old(Distinct(t.rows)) ==>
      (Distinct(t.rows) && AllMatch(ds, t.rows, n, htMatches[..]) <==>
         ListsRight(ds, hashes, old(t.capacity), old(t.rows)))
  {
    hide Hashmapx.Valid, HashmapSmall.Valid, HashmapSmall.Empty, Fitting, Columns, Missing, Matches, CompositeKey,
      Distinct, NewGroup, Unsplit, KeysOf, LookupOf, ListsRight, Present, AllTracked, AllMatch, Steady,
      ClashFree, Hashes;
    ghost var r, was := LookupOf(ds, hashes, t.capacity, t.rows), t.rows;
    LengthOf(ds, hashes, n);
    ListedParts(ds, hashes, t.capacity, t.rows);
    groups, fill := 0, maxFill;
    if ClashFree(ds, hashes, t.rows) { NothingFollowed(ds, hashes, t.capacity, t.rows); }
    var missing;
    ok, missing := FindGroups(t, ds, hashes, n, htMatches, groupsFound, b.rowsIn);
    if !ok { return; }
    assert forall k :: 0 <= k < missing ==> b.rowsIn[k] == r.listed[k];
    ghost var before, cap := htMatches[..], t.capacity;
    ok, groups, fill := CreateMissingGroups(t, small, ds, hashes, n, missing, b, htMatches, init, maxFill, allowResize);
    if !ok { return; }
    RightExactly(ds, hashes, cap, was, t.rows, before, htMatches[..]);
  }

  lemma LengthOf<K>(ds: seq<Input<K>>, hashes: seq<Hash>, n: nat)
    requires Hashes(ds, hashes, n)
    ensures n == |hashes|
  {
  }

  lemma RightExactly<K, V>(ds: seq<Input<K>>, hashes: seq<Hash>, cap: nat, was: seq<Row<Key<K>, V>>,
                           now: seq<Row<Key<K>, V>>, before: seq<nat>, matches: seq<nat>)
    requires cap > 0 && Hashes(ds, hashes, |hashes|) && Fitting(ds, hashes, |hashes|, was) && Columns(ds, was)
    requires |hashes| <= |before| == |matches| && was <= now
    requires Within(LookupOf(ds, hashes, cap, was).listed, |hashes|)
    requires var r := LookupOf(ds, hashes, cap, was);
      && (forall x: nat :: x < |hashes| && Present(was, hashes[x]) ==> before[x] == r.matches[x])
      && (forall x :: x in r.listed ==> Matches(ds, now, x, matches[x]))
      && (forall x :: 0 <= x < |matches| && x !in r.listed ==> matches[x] == before[x])
      && (Distinct(was) ==> (Distinct(now) <==> AllMissing(ds, was, r.listed)))
    ensures forall x :: 0 <= x < |hashes| ==> matches[x] < |now|
    ensures Distinct(was) ==>
      (Distinct(now) && AllMatch(ds, now, |hashes|, matches) <==> ListsRight(ds, hashes, cap, was))
  {
    hide Fitting, Columns, Hashes, LookupOf, ListsRight, Distinct, Present, Matches, Missing;
    var r := LookupOf(ds, hashes, cap, was);
    LookupEnds(ds, hashes, cap, was);
    ListsMissing(ds, hashes, cap, was);
    ListedParts(ds, hashes, cap, was);
    forall x: nat | x < |hashes|
      ensures matches[x] < |now|
      ensures x !in r.listed ==> (Matches(ds, now, x, matches[x]) <==> !Missing(ds, was, x))
      ensures x in r.listed ==> Matches(ds, now, x, matches[x]) {
      if x in r.listed {
        MatchInside(ds, now, x, matches[x]);
      } else {
        NotListed(ds, hashes, cap, was, x);
        OldMatch(ds, hashes[x], was, now, x, matches[x]);
      }
    }
    assert forall k :: 0 <= k < |r.listed| ==> r.listed[k] in r.listed;
    if AllMissing(ds, was, r.listed) {
      forall x | x in r.listed ensures Missing(ds, was, x) {
        var k :| 0 <= k < |r.listed| && r.listed[k] == x;
      }
    }
  }

  lemma MatchInside<K, V>(ds: seq<Input<K>>, rows: seq<Row<Key<K>, V>>, x: nat, e: nat)
    requires Matches(ds, rows, x, e)
    ensures e < |rows|
  {
  }

  lemma NotListed<K, V>(ds: seq<Input<K>>, hashes: seq<Hash>, cap: nat, rows: seq<Row<Key<K>, V>>, x: nat)
    requires cap > 0 && x < |hashes| && x !in LookupOf(ds, hashes, cap, rows).listed
    ensures Present(rows, hashes[x])
  {
    hide LookupOf, HashedAs, Present;
    ListedParts(ds, hashes, cap, rows);
    HashedMembers(hashes, rows, |hashes|, false);
  }

  lemma OldMatch<K, V>(ds: seq<Input<K>>, hash: Hash, was: seq<Row<Key<K>, V>>, now: seq<Row<Key<K>, V>>, x: nat,
                       e: nat)
    requires Tracked(ds, hash, was, x, e, false) && was <= now
    ensures e < |now| && (Matches(ds, now, x, e) <==> !Missing(ds, was, x))
  {
    hide CompositeKey;
    assert now[e] == was[e];
  }

  // --------------------------------------------------- a vector that fails

  /** A vector of 181 tuples with two key columns. The first two share the first column. */
  ghost function TwoColumns(): seq<Input<nat>> {
    [Apart256(181), Apart256(181).(keys := FirstNumbers(181))]
  }

  /** The rows of an empty table. */
  ghost function NoRows(): seq<Row<Key<nat>, int>> { [] }

  lemma {:induction false} AllUnhashed(hashes: seq<Hash>, n: nat)
    requires n <= |hashes|
    ensures HashedAs(hashes, NoRows(), n, false) == FirstNumbers(n)
  {
    if n > 0 {
      AllUnhashed(hashes, n - 1);
      assert FirstNumbers(n) == FirstNumbers(n - 1) + [n - 1];
    }
  }

  lemma TwoColumnsAt(x: nat)
    requires x < 181
    ensures var ds := TwoColumns();
      && |ds| == 2 && ds[0] == Apart256(181) && ds[1].hashes == ds[0].hashes && |ds[0].hashes| == 181
      && ds[0].Has(x) && ds[1].Has(x) && ds[0].hashes[x] == HashOf(x)
      && |CompositeKey(ds)(x)| == 2 && CompositeKey(ds)(x)[1] == Some(x)
  {
    CompositeAt(TwoColumns(), x);
  }

  lemma TwoColumnsDiffer(x: nat, y: nat)
    requires x < 181 && y < 181 && x != y
    ensures TwoColumns()[0].hashes[x] != TwoColumns()[0].hashes[y]
    ensures CompositeKey(TwoColumns())(x) != CompositeKey(TwoColumns())(y)
  {
    TwoColumnsAt(x);
    TwoColumnsAt(y);
    hide TwoColumns, CompositeKey, Apart256;
    assert CompositeKey(TwoColumns())(x)[1] != CompositeKey(TwoColumns())(y)[1];
  }

  lemma TwoColumnsExact()
    ensures var ds := TwoColumns();
      |ds| > 0 && Hashes(ds, ds[0].hashes, 181) && Fitting(ds, ds[0].hashes, 181, NoRows())
      && forall x: nat, y: nat :: x < 181 && y < 181 && x != y ==> ds[0].hashes[x] != ds[0].hashes[y]
  {
    hide TwoColumns, CompositeKey, Apart256;
    var ds := TwoColumns();
    TwoColumnsAt(0);
    forall x: nat | x < 181 ensures ds[0].Has(x) && ds[1].Has(x) {
      TwoColumnsAt(x);
    }
    forall x: nat, y: nat | x < 181 && y < 181 && x != y
      ensures ds[0].hashes[x] != ds[0].hashes[y] && CompositeKey(ds)(x) != CompositeKey(ds)(y) {
      TwoColumnsDiffer(x, y);
    }
  }

  /** Its keys and hashes are all different, the table has no group yet, and the small table cannot
      partition it, however large the buffers are. */
  lemma VectorDivided(cap: nat, room: nat)
    requires cap > 0
    ensures var ds := TwoColumns();
      && |ds| > 0 && Hashes(ds, ds[0].hashes, 181) && Fitting(ds, ds[0].hashes, 181, NoRows())
      && (forall x: nat, y: nat :: x < 181 && y < 181 && x != y ==> ds[0].hashes[x] != ds[0].hashes[y])
      && !Creatable(ds, ds[0].hashes, cap, NoRows(), room, 256)
  {
    hide TwoColumns, Apart256, Unsplit, Fitting, Hashes, LookupOf, Extra, HashedAs;
    TwoColumnsAt(0);
    TwoColumnsExact();
    var hashes := TwoColumns()[0].hashes;
    AllUnhashed(hashes, |hashes|);
    NothingFollowed(TwoColumns(), hashes, cap, NoRows());
    ListedParts(TwoColumns(), hashes, cap, NoRows());
    assert FirstNumbers(181) + [] == FirstNumbers(181);
    FirstDivided(TwoColumns());
  }

  lemma FirstDivided(ds: seq<Input<nat>>)
    requires |ds| > 0 && ds[0] == Apart256(181)
    ensures FirstNumbers(181) != [] && !Unsplit(ds, 256, FirstNumbers(181))
  {
    hide Undivided, Apart256;
    var xs := FirstNumbers(181);
    DividedExample();
    NoOperations(ds, 256, xs);
    var parts := [xs];
    assert parts[..0] == [] && CapAfter(ds[0], 256, parts[..0]) == 256;
    assert !NeverDivided(ds[0], 256, parts);
  }

  // ------------------------------------------------------------- clashes

  /** One tuple of one key column. */
  function OneTuple<K>(key: K, hash: Hash): seq<Input<K>> { [Input([key], [hash], [0])] }

  lemma OneTupleKey<K>(key: K, hash: Hash, rows: seq<Row<Key<K>, int>>)
    requires forall i :: 0 <= i < |rows| ==> rows[i].hash == hash && |rows[i].k| == 1
    ensures var ds := OneTuple(key, hash);
      && CompositeKey(ds)(0) == [Some(key)]
      && Hashes(ds, [hash], 1) && Fitting(ds, [hash], 1, rows) && Columns(ds, rows)
  {
    CompositeAt(OneTuple(key, hash), 0);
  }

  /** Groups of one column whose keys have the same hash, the last one the newest. */
  ghost function Same<K>(keys: seq<K>, hash: Hash): (rows: seq<Row<Key<K>, int>>)
    ensures |rows| == |keys| && forall i :: 0 <= i < |rows| ==> rows[i] == Row(hash, [Some(keys[i])], 0)
  {
    seq(|keys|, i requires 0 <= i < |keys| => Row(hash, [Some(keys[i])], 0))
  }

  /** A tuple that clashes with the only group: it is neither listed as not found nor followed. */
  lemma LosesTuple<K>(a: K, b: K, hash: Hash, cap: nat)
    requires a != b && cap > 0
    ensures !ListsRight(OneTuple(b, hash), [hash], cap, Same([a], hash))
  {
    var ds, rows := OneTuple(b, hash), Same([a], hash);
    OneTupleKey(b, hash, rows);
    NothingPassedOver(ds, [hash], cap, rows);
    hide CompositeKey, ListsRight;
    assert Older(rows, hash, 1) == 0;
    assert Clashes(ds, [hash], rows, 0) && Missing(ds, rows, 0);
  }

  /** A tuple that clashes, and whose key stands in the next older entry: all is well. */
  lemma SurvivesClash<K>(a: K, b: K, hash: Hash, cap: nat)
    requires a != b && cap > 0
    ensures Clashes(OneTuple(a, hash), [hash], Same([a, b], hash), 0)
    ensures ListsRight(OneTuple(a, hash), [hash], cap, Same([a, b], hash))
  {
    var ds, rows := OneTuple(a, hash), Same([a, b], hash);
    OneTupleKey(a, hash, rows);
    NothingPassedOver(ds, [hash], cap, rows);
    hide CompositeKey, ListsRight;
    assert Older(rows, hash, 2) == 1;
    assert rows[0].k == CompositeKey(ds)(0);
  }
}
