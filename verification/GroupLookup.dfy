/** GroupLookup::findGroups on values: which entries the tuples of a vector end at, and what is listed
    as not found. Entries are looked up by their hash. A tuple whose entry has another key is followed
    to older entries, in rounds; what htFollow lists on the way are not tuples but their positions in
    the round. */
module GroupLookups {
  import opened Bits
  import opened SlotChains
  import opened Folds
  import opened GroupTables
  import opened Tallies
  import opened Partitioning

  type Key<K> = seq<Option<K>>

  /** The hash of a tuple, as groupHashes holds it. */
  ghost predicate Hashes<K>(ds: seq<Input<K>>, hashes: seq<Hash>, n: nat) {
    && n == |hashes|
    && (forall i :: 0 <= i < |ds| ==> ds[i].hashes == hashes)
    && (forall i, x: nat :: 0 <= i < |ds| && x < n ==> ds[i].Has(x))
  }

  /** Equal keys have equal hashes, among the tuples of the vector and the groups of the table. */
  ghost predicate Fitting<K, V>(ds: seq<Input<K>>, hashes: seq<Hash>, n: nat, rows: seq<Row<Key<K>, V>>)
    requires Hashes(ds, hashes, n)
  {
    && (forall x: nat, y: nat :: x < n && y < n && CompositeKey(ds)(x) == CompositeKey(ds)(y) ==>
          hashes[x] == hashes[y])
    && (forall x: nat, i :: x < n && 0 <= i < |rows| && CompositeKey(ds)(x) == rows[i].k ==> hashes[x] == rows[i].hash)
  }

  /** The groups of the table have as many columns as the keys. */
  ghost predicate Columns<K, V>(ds: seq<Input<K>>, rows: seq<Row<Key<K>, V>>) {
    forall i :: 0 <= i < |rows| ==> |rows[i].k| == |ds|
  }

  /** What a match promises: the entry has the tuple's key. */
  ghost predicate Matches<K, V>(ds: seq<Input<K>>, rows: seq<Row<Key<K>, V>>, x: nat, e: nat) {
    e < |rows| && rows[e].k == CompositeKey(ds)(x)
  }

  ghost predicate Missing<K, V>(ds: seq<Input<K>>, rows: seq<Row<Key<K>, V>>, x: nat) {
    !Has(rows, CompositeKey(ds)(x))
  }

  // ------------------------------------------------------------ sequences

  ghost predicate Unrepeated(s: seq<nat>) {
    forall i, j :: 0 <= i < j < |s| ==> s[i] != s[j]
  }

  ghost predicate Within(s: seq<nat>, n: nat) {
    forall i :: 0 <= i < |s| ==> s[i] < n
  }

  // --------------------------------------------------------------- lookup

  /** The newest entry with this hash among those older than e. */
  ghost function Older<K, V>(rows: seq<Row<Key<K>, V>>, hash: Hash, e: nat): (r: int)
    requires e <= |rows|
    ensures NONE <= r < e && (r != NONE ==> rows[r].hash == hash)
    ensures forall i: nat :: i < e && r < i ==> rows[i].hash != hash
  {
    if e == 0 then NONE
    else if rows[e - 1].hash == hash then e - 1
    else Older(rows, hash, e - 1)
  }

  lemma OlderIs<K, V>(rows: seq<Row<Key<K>, V>>, hash: Hash, e: nat, r: int)
    requires e <= |rows| && NONE <= r < e && (r != NONE ==> rows[r].hash == hash)
    requires forall i: nat :: i < e && r < i ==> rows[i].hash != hash
    ensures r == Older(rows, hash, e)
  {
  }

  /** Some entry has this hash. */
  ghost predicate Present<K, V>(rows: seq<Row<Key<K>, V>>, hash: Hash) {
    Older(rows, hash, |rows|) != NONE
  }

  /** htLookup: the tuples whose hashes the table has, or does not have, in order. */
  ghost function HashedAs<K, V>(hashes: seq<Hash>, rows: seq<Row<Key<K>, V>>, n: nat, has: bool): (r: seq<nat>)
    requires n <= |hashes|
    ensures |r| <= n
  {
    if n == 0 then []
    else HashedAs(hashes, rows, n - 1, has) + if Present(rows, hashes[n - 1]) == has then [n - 1] else []
  }

  lemma {:induction false} HashedMembers<K, V>(hashes: seq<Hash>, rows: seq<Row<Key<K>, V>>, n: nat, has: bool)
    requires n <= |hashes|
    ensures var r := HashedAs(hashes, rows, n, has);
      Unrepeated(r) && Within(r, n) && forall x: nat :: x in r <==> x < n && Present(rows, hashes[x]) == has
  {
    hide Present, Unrepeated, Within;
    if n > 0 {
      HashedMembers(hashes, rows, n - 1, has);
      OneMore(HashedAs(hashes, rows, n - 1, has), n - 1);
    } else {
      NoMembers();
    }
  }

  lemma NoMembers()
    ensures Unrepeated([]) && Within([], 0)
  {
  }

  lemma OneMore(r: seq<nat>, n: nat)
    requires Unrepeated(r) && Within(r, n)
    ensures Within(r, n + 1) && r + [] == r
    ensures Unrepeated(r + [n]) && Within(r + [n], n + 1) && forall x: nat :: x in r + [n] <==> x in r || x == n
  {
  }

  /** Where the tuples stand after htLookup. */
  ghost function Newest<K, V>(hashes: seq<Hash>, rows: seq<Row<Key<K>, V>>): (m: seq<nat>)
    ensures |m| == |hashes|
    ensures forall x: nat :: x < |m| && Present(rows, hashes[x]) ==> m[x] == Older(rows, hashes[x], |rows|)
  {
    seq(|hashes|, x requires 0 <= x < |hashes| =>
      if Present(rows, hashes[x]) then Older(rows, hashes[x], |rows|) else 0)
  }

  // ---------------------------------------------------------- key equality

  /** The entry has the tuple's key in this column. */
  ghost predicate SameColumn<K, V>(ds: seq<Input<K>>, rows: seq<Row<Key<K>, V>>, x: nat, e: nat, c: nat) {
    c < |ds| && e < |rows| && c < |rows[e].k| && rows[e].k[c] == KeyOf(ds[c])(x)
  }

  ghost predicate SameFrom<K, V>(ds: seq<Input<K>>, rows: seq<Row<Key<K>, V>>, x: nat, e: nat, c: nat) {
    forall d: nat :: c <= d < |ds| ==> SameColumn(ds, rows, x, e, d)
  }

  lemma SameIsMatch<K, V>(ds: seq<Input<K>>, rows: seq<Row<Key<K>, V>>, x: nat, e: nat)
    requires Columns(ds, rows) && e < |rows|
    ensures SameFrom(ds, rows, x, e, 0) <==> Matches(ds, rows, x, e)
  {
    CompositeAt(ds, x);
    hide CompositeKey, KeyOf;
    if SameFrom(ds, rows, x, e, 0) {
      forall c: nat | c < |ds| ensures rows[e].k[c] == CompositeKey(ds)(x)[c] {
        assert SameColumn(ds, rows, x, e, c);
      }
    }
  }

  /** keys_not_equal: of the tuples xs those that have, or do not have, the key in a column. */
  ghost function Compared<K, V>(ds: seq<Input<K>>, rows: seq<Row<Key<K>, V>>, m: seq<nat>, xs: seq<nat>, c: nat,
                                same: bool): (r: seq<nat>)
    requires Within(xs, |m|)
    ensures |r| <= |xs|
  {
    if xs == [] then []
    else
      var n := |xs| - 1;
      Compared(ds, rows, m, xs[..n], c, same) +
      if SameColumn(ds, rows, xs[n], m[xs[n]], c) == same then [xs[n]] else []
  }

  lemma {:induction false} ComparedMembers<K, V>(ds: seq<Input<K>>, rows: seq<Row<Key<K>, V>>, m: seq<nat>,
                                                 xs: seq<nat>, c: nat, same: bool)
    requires Within(xs, |m|)
    ensures var r := Compared(ds, rows, m, xs, c, same);
      Within(r, |m|) && forall x: nat :: x in r <==> x in xs && SameColumn(ds, rows, x, m[x], c) == same
  {
    hide SameColumn;
    if xs != [] {
      var n := |xs| - 1;
      ComparedMembers(ds, rows, m, xs[..n], c, same);
      assert xs == xs[..n] + [xs[n]];
    }
  }

  lemma {:induction false} ComparedUnrepeated<K, V>(ds: seq<Input<K>>, rows: seq<Row<Key<K>, V>>, m: seq<nat>,
                                                    xs: seq<nat>, c: nat, same: bool)
    requires Within(xs, |m|) && Unrepeated(xs)
    ensures Unrepeated(Compared(ds, rows, m, xs, c, same))
    ensures |Compared(ds, rows, m, xs, c, same)| + |Compared(ds, rows, m, xs, c, !same)| == |xs|
  {
    hide SameColumn;
    if xs != [] {
      var n := |xs| - 1;
      ComparedUnrepeated(ds, rows, m, xs[..n], c, same);
      ComparedMembers(ds, rows, m, xs[..n], c, same);
      var r := Compared(ds, rows, m, xs[..n], c, same);
      forall k | 0 <= k < |r| ensures r[k] != xs[n] { assert r[k] in xs[..n]; }
    }
  }

  /** keyEquality, column by column from c on: what goes into keysNEq. */
  ghost function Unequal<K, V>(ds: seq<Input<K>>, rows: seq<Row<Key<K>, V>>, m: seq<nat>, xs: seq<nat>,
                               c: nat): seq<nat>
    requires Within(xs, |m|) && c <= |ds|
    decreases |ds| - c
  {
    if c == |ds| then []
    else
      ComparedMembers(ds, rows, m, xs, c, true);
      Compared(ds, rows, m, xs, c, false) + Unequal(ds, rows, m, Compared(ds, rows, m, xs, c, true), c + 1)
  }

  lemma {:induction false} UnequalMembers<K, V>(ds: seq<Input<K>>, rows: seq<Row<Key<K>, V>>, m: seq<nat>,
                                                xs: seq<nat>, c: nat)
    requires Within(xs, |m|) && c <= |ds| && Unrepeated(xs)
    ensures var r := Unequal(ds, rows, m, xs, c);
      && Within(r, |m|) && Unrepeated(r) && |r| <= |xs|
      && forall x: nat :: x in r <==> x in xs && !SameFrom(ds, rows, x, m[x], c)
    decreases |ds| - c
  {
    hide SameColumn, Compared;
    if c < |ds| {
      var no, yes := Compared(ds, rows, m, xs, c, false), Compared(ds, rows, m, xs, c, true);
      ComparedMembers(ds, rows, m, xs, c, true);
      ComparedMembers(ds, rows, m, xs, c, false);
      ComparedUnrepeated(ds, rows, m, xs, c, true);
      ComparedUnrepeated(ds, rows, m, xs, c, false);
      UnequalMembers(ds, rows, m, yes, c + 1);
      var rest := Unequal(ds, rows, m, yes, c + 1);
      Apart(no, rest);
      forall x: nat | x in xs ensures SameFrom(ds, rows, x, m[x], c) <==>
          SameColumn(ds, rows, x, m[x], c) && SameFrom(ds, rows, x, m[x], c + 1) {
      }
    }
  }

  lemma Apart(a: seq<nat>, b: seq<nat>)
    requires Unrepeated(a) && Unrepeated(b) && forall x :: x in a ==> x !in b
    ensures Unrepeated(a + b)
  {
    forall i, j | 0 <= i < j < |a + b| ensures (a + b)[i] != (a + b)[j] {
      if i < |a| <= j { assert a[i] in a && b[j - |a|] in b; }
    }
  }

  // ---------------------------------------------------------------- rounds

  /** The tuples of a round stand at entries, and each is a tuple of the vector. */
  ghost predicate Standing<K, V>(hashes: seq<Hash>, rows: seq<Row<Key<K>, V>>, m: seq<nat>, q: seq<nat>) {
    Within(q, |m|) && |m| == |hashes| && forall i :: 0 <= i < |q| ==> m[q[i]] < |rows|
  }

  ghost function Next<K, V>(hashes: seq<Hash>, rows: seq<Row<Key<K>, V>>, m: seq<nat>, x: nat): int
    requires x < |m| == |hashes| && m[x] < |rows|
  {
    Older(rows, hashes[x], m[x])
  }

  /** htFollow: the tuples that have gone on to an older entry. */
  ghost function Followed<K, V>(hashes: seq<Hash>, rows: seq<Row<Key<K>, V>>, m: seq<nat>, q: seq<nat>): (r: seq<nat>)
    requires Standing(hashes, rows, m, q)
    ensures |r| <= |q|
  {
    if q == [] then []
    else
      var n := |q| - 1;
      Followed(hashes, rows, m, q[..n]) + if Next(hashes, rows, m, q[n]) != NONE then [q[n]] else []
  }

  lemma {:induction false} FollowedMembers<K, V>(hashes: seq<Hash>, rows: seq<Row<Key<K>, V>>, m: seq<nat>, q: seq<nat>)
    requires Standing(hashes, rows, m, q) && Unrepeated(q)
    ensures var r := Followed(hashes, rows, m, q);
      Within(r, |m|) && Unrepeated(r) && forall x: nat :: x in r <==> x in q && Next(hashes, rows, m, x) != NONE
  {
    hide Next;
    if q != [] {
      var n := |q| - 1;
      FollowedMembers(hashes, rows, m, q[..n]);
      assert q == q[..n] + [q[n]];
      var r := Followed(hashes, rows, m, q[..n]);
      forall k | 0 <= k < |r| ensures r[k] != q[n] { assert r[k] in r && r[k] in q[..n]; }
    }
  }

  /** ... and where everybody stands then. */
  ghost function Advanced<K, V>(hashes: seq<Hash>, rows: seq<Row<Key<K>, V>>, m: seq<nat>, q: seq<nat>): (m': seq<nat>)
    requires Standing(hashes, rows, m, q)
    ensures |m'| == |m|
  {
    seq(|m|, x requires 0 <= x < |m| =>
      if x in q && m[x] < |rows| && Next(hashes, rows, m, x) != NONE then Next(hashes, rows, m, x) else m[x])
  }

  /** How many entries of its slot a tuple passes over. */
  ghost function Passed<K, V>(hashes: seq<Hash>, rows: seq<Row<Key<K>, V>>, cap: nat, m: seq<nat>, x: nat): nat
    requires cap > 0 && x < |m| == |hashes| && m[x] < |rows|
  {
    SlotsBetween(HashesOf(rows), cap, Slot(hashes[x], cap), Next(hashes, rows, m, x), m[x])
  }

  /** What a round lists as not found: for each tuple its position, once for each entry passed over. */
  ghost function Pushed<K, V>(hashes: seq<Hash>, rows: seq<Row<Key<K>, V>>, cap: nat, m: seq<nat>,
                              q: seq<nat>): (r: seq<nat>)
    requires cap > 0 && Standing(hashes, rows, m, q)
    ensures Within(r, |q|)
  {
    if q == [] then []
    else
      var n := |q| - 1;
      Pushed(hashes, rows, cap, m, q[..n]) + seq(Passed(hashes, rows, cap, m, q[n]), _ => n)
  }

  datatype Found = Found(matches: seq<nat>, listed: seq<nat>)

  ghost predicate Below(m: seq<nat>, q: seq<nat>, b: nat)
    requires Within(q, |m|)
  {
    forall i :: 0 <= i < |q| ==> m[q[i]] < b
  }

  /** A round leaves the tuples of the next one at older entries. */
  lemma NextRound<K, V>(ds: seq<Input<K>>, hashes: seq<Hash>, rows: seq<Row<Key<K>, V>>, m: seq<nat>, q: seq<nat>,
                        b: nat)
    requires Standing(hashes, rows, m, q) && Unrepeated(q) && Below(m, q, b) && q != []
    ensures var f := Followed(hashes, rows, m, q);
      var m' := Advanced(hashes, rows, m, q);
      && b > 0 && Within(f, |m'|) && Unrepeated(f)
      && var q' := Unequal(ds, rows, m', f, 0);
         Standing(hashes, rows, m', q') && Unrepeated(q') && Below(m', q', b - 1) && |q'| <= |q|
  {
    hide Unequal, Followed, Older, SameFrom;
    var f, m' := Followed(hashes, rows, m, q), Advanced(hashes, rows, m, q);
    FollowedMembers(hashes, rows, m, q);
    UnequalMembers(ds, rows, m', f, 0);
    assert m[q[0]] < b;
    var q' := Unequal(ds, rows, m', f, 0);
    forall i | 0 <= i < |q'| ensures m'[q'[i]] < |rows| && m'[q'[i]] < b - 1 {
      assert q'[i] in q' && q'[i] in f && q'[i] in q;
      var k :| 0 <= k < |q| && q[k] == q'[i];
    }
  }

  /** The rounds of findGroups: follow, stop if nobody has found anything, and compare the keys again. */
  ghost function Rounds<K, V>(ds: seq<Input<K>>, hashes: seq<Hash>, cap: nat, rows: seq<Row<Key<K>, V>>, m: seq<nat>,
                              q: seq<nat>, listed: seq<nat>, b: nat): (r: Found)
    requires cap > 0 && Standing(hashes, rows, m, q) && Unrepeated(q) && Below(m, q, b)
    ensures |r.matches| == |m|
    decreases b
  {
    if q == [] then Found(m, listed)
    else
      NextRound(ds, hashes, rows, m, q, b);
      var more := listed + Pushed(hashes, rows, cap, m, q);
      var f, m' := Followed(hashes, rows, m, q), Advanced(hashes, rows, m, q);
      if f == [] then Found(m, more)
      else Rounds(ds, hashes, cap, rows, m', Unequal(ds, rows, m', f, 0), more, b - 1)
  }

  /** findGroups. */
  ghost function LookupOf<K, V>(ds: seq<Input<K>>, hashes: seq<Hash>, cap: nat, rows: seq<Row<Key<K>, V>>): (r: Found)
    requires cap > 0
    ensures |r.matches| == |hashes|
  {
    var m, f := Newest(hashes, rows), HashedAs(hashes, rows, |hashes|, true);
    FirstRound(ds, hashes, rows);
    Rounds(ds, hashes, cap, rows, m, Unequal(ds, rows, m, f, 0), HashedAs(hashes, rows, |hashes|, false), |rows|)
  }

  lemma FirstRound<K, V>(ds: seq<Input<K>>, hashes: seq<Hash>, rows: seq<Row<Key<K>, V>>)
    ensures var m, f := Newest(hashes, rows), HashedAs(hashes, rows, |hashes|, true);
      && Within(f, |m|) && Unrepeated(f)
      && var q := Unequal(ds, rows, m, f, 0);
         Standing(hashes, rows, m, q) && Unrepeated(q) && Below(m, q, |rows|) && |q| <= |hashes|
  {
    hide Unequal, SameFrom, HashedAs, Older;
    var m, f := Newest(hashes, rows), HashedAs(hashes, rows, |hashes|, true);
    HashedMembers(hashes, rows, |hashes|, true);
    UnequalMembers(ds, rows, m, f, 0);
    var q := Unequal(ds, rows, m, f, 0);
    forall i | 0 <= i < |q| ensures m[q[i]] < |rows| {
      assert q[i] in q && q[i] in f;
    }
  }

  // -------------------------------------------------------- where it ends

  /** None of the entries from e on has the tuple's key. */
  ghost predicate Unmet<K, V>(ds: seq<Input<K>>, hash: Hash, rows: seq<Row<Key<K>, V>>, x: nat, e: nat) {
    forall i :: e <= i < |rows| && rows[i].hash == hash ==> rows[i].k != CompositeKey(ds)(x)
  }

  /** A tuple is at an entry with its hash; if it is to be followed further, no newer entry was its
      own, and else it is at its own or has none. */
  ghost predicate Tracked<K, V>(ds: seq<Input<K>>, hash: Hash, rows: seq<Row<Key<K>, V>>, x: nat, e: nat, more: bool) {
    && e < |rows| && rows[e].hash == hash
    && if more then Unmet(ds, hash, rows, x, e) else Matches(ds, rows, x, e) || Missing(ds, rows, x)
  }

  ghost predicate AllTracked<K, V>(ds: seq<Input<K>>, hashes: seq<Hash>, rows: seq<Row<Key<K>, V>>, m: seq<nat>,
                                   q: seq<nat>) {
    && |m| == |hashes|
    && (forall x: nat :: x < |m| && Present(rows, hashes[x]) ==> Tracked(ds, hashes[x], rows, x, m[x], x in q))
    && (forall x :: x in q ==> x < |m| && Present(rows, hashes[x]))
  }

  /** Nobody has an older entry: the tuples of the round have no group. */
  lemma NoneOlder<K, V>(ds: seq<Input<K>>, hashes: seq<Hash>, rows: seq<Row<Key<K>, V>>, x: nat, e: nat)
    requires Hashes(ds, hashes, |hashes|) && Fitting(ds, hashes, |hashes|, rows) && x < |hashes|
    requires Tracked(ds, hashes[x], rows, x, e, true) && Older(rows, hashes[x], e) == NONE
    ensures Missing(ds, rows, x)
  {
    hide CompositeKey, Older;
  }

  lemma FollowedTracked<K, V>(ds: seq<Input<K>>, hash: Hash, rows: seq<Row<Key<K>, V>>, x: nat, e: nat)
    requires Tracked(ds, hash, rows, x, e, true) && Older(rows, hash, e) != NONE
    ensures var o := Older(rows, hash, e);
      Tracked(ds, hash, rows, x, o, !Matches(ds, rows, x, o))
  {
    hide CompositeKey;
  }

  lemma RoundTracks<K, V>(ds: seq<Input<K>>, hashes: seq<Hash>, rows: seq<Row<Key<K>, V>>, m: seq<nat>, q: seq<nat>)
    requires Hashes(ds, hashes, |hashes|) && Fitting(ds, hashes, |hashes|, rows) && Columns(ds, rows)
    requires Standing(hashes, rows, m, q) && Unrepeated(q) && AllTracked(ds, hashes, rows, m, q)
    ensures var f, m' := Followed(hashes, rows, m, q), Advanced(hashes, rows, m, q);
      Within(f, |m'|) && AllTracked(ds, hashes, rows, m', Unequal(ds, rows, m', f, 0))
  {
    hide Fitting, Columns, Unequal, Followed, Older, SameFrom, Matches, Missing, Unmet, Present;
    var f, m' := Followed(hashes, rows, m, q), Advanced(hashes, rows, m, q);
    FollowedMembers(hashes, rows, m, q);
    UnequalMembers(ds, rows, m', f, 0);
    var q' := Unequal(ds, rows, m', f, 0);
    forall x: nat | x < |m| && Present(rows, hashes[x]) ensures Tracked(ds, hashes[x], rows, x, m'[x], x in q') {
      if x in f {
        FollowedTracked(ds, hashes[x], rows, x, m[x]);
        SameIsMatch(ds, rows, x, m'[x]);
      } else if x in q {
        NoneOlder(ds, hashes, rows, x, m[x]);
      }
    }
  }

  /** At the end every tuple whose hash the table has is at its own entry, or has none. */
  lemma {:induction false} RoundsEnd<K, V>(ds: seq<Input<K>>, hashes: seq<Hash>, cap: nat, rows: seq<Row<Key<K>, V>>,
                                           m: seq<nat>, q: seq<nat>, listed: seq<nat>, b: nat)
    requires cap > 0 && Standing(hashes, rows, m, q) && Unrepeated(q) && Below(m, q, b)
    requires Hashes(ds, hashes, |hashes|) && Fitting(ds, hashes, |hashes|, rows) && Columns(ds, rows)
    requires AllTracked(ds, hashes, rows, m, q)
    ensures var r := Rounds(ds, hashes, cap, rows, m, q, listed, b);
      AllTracked(ds, hashes, rows, r.matches, [])
    decreases b
  {
    hide Fitting, Columns, Unequal, Followed, Older, Advanced, Tracked, Present, Pushed;
    if q != [] {
      NextRound(ds, hashes, rows, m, q, b);
      RoundTracks(ds, hashes, rows, m, q);
      var f, m' := Followed(hashes, rows, m, q), Advanced(hashes, rows, m, q);
      if f == [] {
        StandStill(ds, hashes, rows, m, q);
      } else {
        var q' := Unequal(ds, rows, m', f, 0);
        RoundsEnd(ds, hashes, cap, rows, m', q', listed + Pushed(hashes, rows, cap, m, q), b - 1);
      }
    }
  }

  lemma StandStill<K, V>(ds: seq<Input<K>>, hashes: seq<Hash>, rows: seq<Row<Key<K>, V>>, m: seq<nat>, q: seq<nat>)
    requires Standing(hashes, rows, m, q) && Unrepeated(q) && Followed(hashes, rows, m, q) == []
    ensures Advanced(hashes, rows, m, q) == m && Unequal(ds, rows, m, [], 0) == []
  {
    hide Older;
    FollowedMembers(hashes, rows, m, q);
    UnequalMembers(ds, rows, m, [], 0);
  }

  lemma FirstTracked<K, V>(ds: seq<Input<K>>, hashes: seq<Hash>, rows: seq<Row<Key<K>, V>>)
    requires Columns(ds, rows)
    ensures var m, f := Newest(hashes, rows), HashedAs(hashes, rows, |hashes|, true);
      Within(f, |m|) && AllTracked(ds, hashes, rows, m, Unequal(ds, rows, m, f, 0))
  {
    hide Columns, Unequal, SameFrom, HashedAs, Matches;
    var m, f := Newest(hashes, rows), HashedAs(hashes, rows, |hashes|, true);
    HashedMembers(hashes, rows, |hashes|, true);
    UnequalMembers(ds, rows, m, f, 0);
    var q := Unequal(ds, rows, m, f, 0);
    forall x: nat | x < |m| && Present(rows, hashes[x]) ensures Tracked(ds, hashes[x], rows, x, m[x], x in q) {
      SameIsMatch(ds, rows, x, m[x]);
      NewestUnmet(ds, hashes[x], rows, x, m[x]);
    }
  }

  lemma NewestUnmet<K, V>(ds: seq<Input<K>>, hash: Hash, rows: seq<Row<Key<K>, V>>, x: nat, e: nat)
    requires e == Older(rows, hash, |rows|)
    ensures rows[e].hash == hash && (!Matches(ds, rows, x, e) ==> Unmet(ds, hash, rows, x, e))
  {
    hide CompositeKey;
  }

  lemma LookupEnds<K, V>(ds: seq<Input<K>>, hashes: seq<Hash>, cap: nat, rows: seq<Row<Key<K>, V>>)
    requires cap > 0 && Columns(ds, rows) && Hashes(ds, hashes, |hashes|) && Fitting(ds, hashes, |hashes|, rows)
    ensures AllTracked(ds, hashes, rows, LookupOf(ds, hashes, cap, rows).matches, [])
  {
    hide Columns, Fitting, Hashes, Unequal, HashedAs, AllTracked, Rounds, Newest, Standing, Below;
    FirstRound(ds, hashes, rows);
    FirstTracked(ds, hashes, rows);
    var m, f := Newest(hashes, rows), HashedAs(hashes, rows, |hashes|, true);
    RoundsEnd(ds, hashes, cap, rows, m, Unequal(ds, rows, m, f, 0), HashedAs(hashes, rows, |hashes|, false), |rows|);
  }

  // ---------------------------------------------------- what is listed

  lemma {:induction false} RoundsList<K, V>(ds: seq<Input<K>>, hashes: seq<Hash>, cap: nat, rows: seq<Row<Key<K>, V>>,
                                            m: seq<nat>, q: seq<nat>, listed: seq<nat>, b: nat)
    requires cap > 0 && Standing(hashes, rows, m, q) && Unrepeated(q) && Below(m, q, b)
    ensures var r := Rounds(ds, hashes, cap, rows, m, q, listed, b);
      && listed <= r.listed && Within(r.listed[|listed|..], |q|)
      && (q == [] ==> r.listed == listed)
      && (q != [] ==> listed + Pushed(hashes, rows, cap, m, q) <= r.listed)
    decreases b
  {
    hide Unequal, Followed, Older, Advanced, Pushed;
    if q != [] {
      NextRound(ds, hashes, rows, m, q, b);
      var f, m' := Followed(hashes, rows, m, q), Advanced(hashes, rows, m, q);
      var more := listed + Pushed(hashes, rows, cap, m, q);
      if f != [] {
        var q' := Unequal(ds, rows, m', f, 0);
        RoundsList(ds, hashes, cap, rows, m', q', more, b - 1);
        var r := Rounds(ds, hashes, cap, rows, m', q', more, b - 1);
        assert r.listed[|listed|..] == Pushed(hashes, rows, cap, m, q) + r.listed[|more|..];
      } else {
        assert more[|listed|..] == Pushed(hashes, rows, cap, m, q);
      }
    }
  }

  /** What htFollow lists, in all its rounds. */
  ghost function Extra<K, V>(ds: seq<Input<K>>, hashes: seq<Hash>, cap: nat, rows: seq<Row<Key<K>, V>>): seq<nat>
    requires cap > 0
  {
    var listed, n := LookupOf(ds, hashes, cap, rows).listed, |HashedAs(hashes, rows, |hashes|, false)|;
    if n <= |listed| then listed[n..] else []
  }

  lemma ListedParts<K, V>(ds: seq<Input<K>>, hashes: seq<Hash>, cap: nat, rows: seq<Row<Key<K>, V>>)
    requires cap > 0
    ensures LookupOf(ds, hashes, cap, rows).listed ==
            HashedAs(hashes, rows, |hashes|, false) + Extra(ds, hashes, cap, rows)
    ensures Within(LookupOf(ds, hashes, cap, rows).listed, |hashes|)
  {
    hide Unequal, HashedAs, Rounds, Newest, Standing, Below;
    FirstRound(ds, hashes, rows);
    HashedMembers(hashes, rows, |hashes|, false);
    var m, f := Newest(hashes, rows), HashedAs(hashes, rows, |hashes|, true);
    RoundsList(ds, hashes, cap, rows, m, Unequal(ds, rows, m, f, 0), HashedAs(hashes, rows, |hashes|, false), |rows|);
  }

  /** The newest entry with the tuple's hash has another key. */
  ghost predicate Clashes<K, V>(ds: seq<Input<K>>, hashes: seq<Hash>, rows: seq<Row<Key<K>, V>>, x: nat)
    requires x < |hashes|
  {
    Present(rows, hashes[x]) && !Matches(ds, rows, x, Newest(hashes, rows)[x])
  }

  ghost predicate ClashFree<K, V>(ds: seq<Input<K>>, hashes: seq<Hash>, rows: seq<Row<Key<K>, V>>) {
    forall x: nat :: x < |hashes| ==> !Clashes(ds, hashes, rows, x)
  }

  /** Every tuple that clashes and has no group is among what htFollow lists, and nothing there has a
      group. */
  ghost predicate ListsRight<K, V>(ds: seq<Input<K>>, hashes: seq<Hash>, cap: nat, rows: seq<Row<Key<K>, V>>)
    requires cap > 0
  {
    && (forall x: nat :: x < |hashes| && Clashes(ds, hashes, rows, x) && Missing(ds, rows, x) ==>
          x in Extra(ds, hashes, cap, rows))
    && (forall x :: x in Extra(ds, hashes, cap, rows) ==> Missing(ds, rows, x))
  }

  /** That is when exactly the tuples without a group are listed. */
  lemma ListsMissing<K, V>(ds: seq<Input<K>>, hashes: seq<Hash>, cap: nat, rows: seq<Row<Key<K>, V>>)
    requires cap > 0 && Columns(ds, rows) && Hashes(ds, hashes, |hashes|) && Fitting(ds, hashes, |hashes|, rows)
    ensures ListsRight(ds, hashes, cap, rows) <==>
      forall x: nat :: x < |hashes| ==> (x in LookupOf(ds, hashes, cap, rows).listed <==> Missing(ds, rows, x))
  {
    hide Columns, Fitting, Hashes, LookupOf, HashedAs, Extra, Newest, Missing, Matches, Present;
    ListedParts(ds, hashes, cap, rows);
    HashedMembers(hashes, rows, |hashes|, false);
    var extra, listed := Extra(ds, hashes, cap, rows), LookupOf(ds, hashes, cap, rows).listed;
    forall x: nat | x < |hashes|
      ensures !Present(rows, hashes[x]) ==> Missing(ds, rows, x)
      ensures Present(rows, hashes[x]) && Missing(ds, rows, x) ==> Clashes(ds, hashes, rows, x) {
      OrMissing(ds, hashes, rows, x);
    }
    forall x | x in extra ensures x < |hashes| && x in listed {
      var k :| 0 <= k < |extra| && extra[k] == x;
      assert listed[|listed| - |extra| + k] == x;
    }
  }

  lemma OrMissing<K, V>(ds: seq<Input<K>>, hashes: seq<Hash>, rows: seq<Row<Key<K>, V>>, x: nat)
    requires Hashes(ds, hashes, |hashes|) && Fitting(ds, hashes, |hashes|, rows) && x < |hashes|
    ensures !Present(rows, hashes[x]) ==> Missing(ds, rows, x)
    ensures Present(rows, hashes[x]) && Missing(ds, rows, x) ==> Clashes(ds, hashes, rows, x)
  {
    hide CompositeKey;
  }

  /** Without a clash htFollow is not called. */
  lemma NothingFollowed<K, V>(ds: seq<Input<K>>, hashes: seq<Hash>, cap: nat, rows: seq<Row<Key<K>, V>>)
    requires cap > 0 && Columns(ds, rows) && ClashFree(ds, hashes, rows)
    ensures Extra(ds, hashes, cap, rows) == [] && ListsRight(ds, hashes, cap, rows)
    ensures |LookupOf(ds, hashes, cap, rows).listed| <= |hashes|
  {
    hide Columns, HashedAs, Newest, Missing, Matches, Unequal, SameFrom;
    FirstRound(ds, hashes, rows);
    HashedMembers(hashes, rows, |hashes|, true);
    var m, f := Newest(hashes, rows), HashedAs(hashes, rows, |hashes|, true);
    UnequalMembers(ds, rows, m, f, 0);
    var q := Unequal(ds, rows, m, f, 0);
    forall x: nat | x in f ensures SameFrom(ds, rows, x, m[x], 0) {
      assert !Clashes(ds, hashes, rows, x);
      SameIsMatch(ds, rows, x, m[x]);
    }
    NoneOrOne(q);
  }

  lemma NoneOrOne(s: seq<nat>)
    ensures s == [] || s[0] in s
  {
  }

  // ------------------------------------------------------ caller's checks

  /** No entry with another hash is in the slot of a tuple. */
  ghost predicate OwnSlots<K, V>(hashes: seq<Hash>, cap: nat, rows: seq<Row<Key<K>, V>>)
    requires cap > 0
  {
    forall x, i :: 0 <= x < |hashes| && 0 <= i < |rows| && Slot(rows[i].hash, cap) == Slot(hashes[x], cap) ==>
      rows[i].hash == hashes[x]
  }

  lemma {:induction false} PushesNothing<K, V>(hashes: seq<Hash>, rows: seq<Row<Key<K>, V>>, cap: nat, m: seq<nat>,
                                               q: seq<nat>)
    requires cap > 0 && OwnSlots(hashes, cap, rows) && Standing(hashes, rows, m, q)
    ensures Pushed(hashes, rows, cap, m, q) == []
  {
    hide OwnSlots, SlotsBetween;
    if q != [] {
      var n := |q| - 1;
      PushesNothing(hashes, rows, cap, m, q[..n]);
      PassesNothing(hashes, rows, cap, m, q[n]);
    }
  }

  lemma PassesNothing<K, V>(hashes: seq<Hash>, rows: seq<Row<Key<K>, V>>, cap: nat, m: seq<nat>, x: nat)
    requires cap > 0 && OwnSlots(hashes, cap, rows) && x < |m| == |hashes| && m[x] < |rows|
    ensures Passed(hashes, rows, cap, m, x) == 0
  {
    hide Slot, Older;
    PassedNone(HashesOf(rows), cap, Slot(hashes[x], cap), Next(hashes, rows, m, x), m[x]);
  }

  lemma {:induction false} ListsNothing<K, V>(ds: seq<Input<K>>, hashes: seq<Hash>, cap: nat, rows: seq<Row<Key<K>, V>>,
                                              m: seq<nat>, q: seq<nat>, listed: seq<nat>, b: nat)
    requires cap > 0 && Standing(hashes, rows, m, q) && Unrepeated(q) && Below(m, q, b) && OwnSlots(hashes, cap, rows)
    ensures Rounds(ds, hashes, cap, rows, m, q, listed, b).listed == listed
    decreases b
  {
    hide Unequal, Followed, Older, Advanced, Pushed, OwnSlots;
    if q != [] {
      NextRound(ds, hashes, rows, m, q, b);
      PushesNothing(hashes, rows, cap, m, q);
      var f, m' := Followed(hashes, rows, m, q), Advanced(hashes, rows, m, q);
      assert listed + [] == listed;
      if f != [] { ListsNothing(ds, hashes, cap, rows, m', Unequal(ds, rows, m', f, 0), listed, b - 1); }
    }
  }

  /** If nothing is passed over, the lookup is right exactly if every tuple that clashes has a group. */
  lemma NothingPassedOver<K, V>(ds: seq<Input<K>>, hashes: seq<Hash>, cap: nat, rows: seq<Row<Key<K>, V>>)
    requires cap > 0 && OwnSlots(hashes, cap, rows)
    ensures Extra(ds, hashes, cap, rows) == []
    ensures ListsRight(ds, hashes, cap, rows) <==>
      forall x: nat :: x < |hashes| && Clashes(ds, hashes, rows, x) ==> !Missing(ds, rows, x)
  {
    hide OwnSlots, Unequal, HashedAs, Newest, Rounds, Clashes, Missing;
    FirstRound(ds, hashes, rows);
    var m, f := Newest(hashes, rows), HashedAs(hashes, rows, |hashes|, true);
    ListsNothing(ds, hashes, cap, rows, m, Unequal(ds, rows, m, f, 0), HashedAs(hashes, rows, |hashes|, false), |rows|);
  }
}
