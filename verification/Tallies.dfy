/** What the first pass of partition_by_key counts, for any keys and hashes. The small table tells
    elements apart by their key and the slot of their hash. If its directory grows in the middle of a
    pass, equal keys with different hashes may be separated that were counted as one: this is exactly
    when the second pass fails. */
module Tallies {
  import opened Bits
  import opened SlotChains
  import opened Grouping

  /** Keys and hashes of the elements of a selection vector. `rep` says where an element's key is:
      selK in partition_by_key_sel, the element itself in the other two variants. */
  datatype Input<K> = Input(keys: seq<K>, hashes: seq<Hash>, rep: seq<nat>) {
    predicate Has(x: nat) { x < |hashes| && x < |rep| && rep[x] < |keys| }

    ghost predicate Covers(xs: seq<nat>) {
      forall x :: x in xs ==> Has(x)
    }
  }

  /** What the table tells apart: the key, and the slot of the hash. */
  datatype Class<K> = Outside | Class(key: K, slot: nat)

  function ClassOf<K(==)>(d: Input<K>, cap: nat, x: nat): Class<K>
    requires cap > 0
  {
    if d.Has(x) then Class(d.keys[d.rep[x]], Slot(d.hashes[x], cap))
    else Outside
  }

  function Classes<K(==)>(d: Input<K>, cap: nat): nat -> Class<K>
    requires cap > 0
  {
    (x: nat) => ClassOf(d, cap, x)
  }

  // ------------------------------------------------------------ counting

  /** The newest of the entries f that has class c. */
  function EntryOf<C(==)>(cls: nat -> C, f: seq<nat>, c: C): (e: int)
    ensures NONE <= e < |f| && (e != NONE ==> cls(f[e]) == c)
  {
    if f == [] then NONE
    else if cls(f[|f| - 1]) == c then |f| - 1
    else EntryOf(cls, f[..|f| - 1], c)
  }

  /** The table in the middle of pass 1: the capacity of its directory, and for each entry, in
      storage order, the element it was made for and the number of elements counted. */
  datatype Tally = Tally(cap: nat, firsts: seq<nat>, counts: seq<nat>) {
    ghost predicate Valid() { cap > 0 && |firsts| == |counts| }
  }

  /** One more element. */
  ghost function Counting<K>(d: Input<K>, t: Tally, x: nat): (t': Tally)
    requires t.Valid()
    ensures t'.Valid()
  {
    var cls := Classes(d, t.cap);
    var e := EntryOf(cls, t.firsts, cls(x));
    if e != NONE then Tally(t.cap, t.firsts, t.counts[e := t.counts[e] + 1])
    else Tally(if |t.firsts| + 1 > t.cap * 7 / 10 then 2 * t.cap else t.cap, t.firsts + [x], t.counts + [1])
  }

  /** All elements of a partition, from an empty table of this capacity on. */
  ghost function Tallied<K>(d: Input<K>, cap: nat, xs: seq<nat>): (t: Tally)
    requires cap > 0
    ensures t.Valid()
  {
    if xs == [] then Tally(cap, [], []) else Counting(d, Tallied(d, cap, xs[..|xs| - 1]), xs[|xs| - 1])
  }

  /** Elements of one class at capacity a are of one class at capacity b. */
  ghost predicate Together<K>(d: Input<K>, a: nat, b: nat, xs: seq<nat>)
    requires a > 0 && b > 0
  {
    forall x: nat, y: nat :: x in xs && y in xs && Classes(d, a)(x) == Classes(d, a)(y) ==>
      Classes(d, b)(x) == Classes(d, b)(y)
  }

  /** Whenever the directory grows it separates no two elements that share key and slot and have
      been counted. */
  ghost predicate Undivided<K>(d: Input<K>, cap: nat, xs: seq<nat>)
    requires cap > 0
  {
    xs == [] ||
    (Undivided(d, cap, xs[..|xs| - 1]) && Together(d, Tallied(d, cap, xs[..|xs| - 1]).cap, Tallied(d, cap, xs).cap, xs))
  }

  // ----------------------------------------------------------- the entries

  lemma {:induction false} EntrySeen<C>(cls: nat -> C, f: seq<nat>, c: C)
    ensures EntryOf(cls, f, c) == NONE <==> !Seen(cls, f, c)
  {
    if f != [] {
      var n := |f| - 1;
      EntrySeen(cls, f[..n], c);
      if Seen(cls, f[..n], c) {
        var g :| 0 <= g < n && cls(f[..n][g]) == c;
        assert cls(f[g]) == c;
      }
      if Seen(cls, f, c) && cls(f[n]) != c {
        var g :| 0 <= g < |f| && cls(f[g]) == c;
        assert cls(f[..n][g]) == c;
      }
    }
  }

  /** No two entries have the same class. */
  ghost predicate Unlike<C>(cls: nat -> C, f: seq<nat>) {
    forall g, h :: 0 <= g < h < |f| ==> cls(f[g]) != cls(f[h])
  }

  lemma EntryAt<C>(cls: nat -> C, f: seq<nat>, g: nat)
    requires Unlike(cls, f) && g < |f|
    ensures EntryOf(cls, f, cls(f[g])) == g
  {
    EntrySeen(cls, f, cls(f[g]));
    var e := EntryOf(cls, f, cls(f[g]));
    assert e != NONE by { assert Seen(cls, f, cls(f[g])); }
  }

  lemma Halved(h: nat, c: nat)
    requires c > 0
    ensures (h % (2 * c)) % c == h % c
  {
    var q, r := h / (2 * c), h % (2 * c);
    assert h == (2 * c) * q + r;
    assert (2 * c) * q == c * (2 * q);
    var k, m := r / c, r % c;
    assert r == c * k + m;
    assert c * (2 * q + k) == c * (2 * q) + c * k;
    RemainderUnique(h, c, 2 * q + k, m);
  }

  /** Growing only tells more elements apart. */
  lemma Coarser<K>(d: Input<K>, cap: nat, x: nat, y: nat)
    requires cap > 0 && Classes(d, 2 * cap)(x) == Classes(d, 2 * cap)(y)
    ensures Classes(d, cap)(x) == Classes(d, cap)(y)
  {
    if d.Has(x) {
      Halved(d.hashes[x], cap);
      Halved(d.hashes[y], cap);
    }
  }

  ghost predicate Grown(a: nat, b: nat) {
    a > 0 && (b == a || b == 2 * a)
  }

  lemma StillUnlike<K>(d: Input<K>, a: nat, b: nat, f: seq<nat>)
    requires Grown(a, b) && Unlike(Classes(d, a), f)
    ensures Unlike(Classes(d, b), f)
  {
    forall g: nat, h: nat | g < h < |f| ensures Classes(d, b)(f[g]) != Classes(d, b)(f[h]) {
      if Classes(d, b)(f[g]) == Classes(d, b)(f[h]) && b != a { Coarser(d, a, f[g], f[h]); }
    }
  }

  // ------------------------------------------------- counted right, or short

  /** What was counted for a class. */
  ghost function Room<C>(cls: nat -> C, t: Tally, c: C): nat
    requires t.Valid()
  {
    var e := EntryOf(cls, t.firsts, c);
    if e == NONE then 0 else t.counts[e]
  }

  /** There are more elements of the class of x than were counted for it. */
  ghost predicate Short<C>(cls: nat -> C, t: Tally, xs: seq<nat>, x: nat)
    requires t.Valid()
  {
    x in xs && |OfClass(cls, cls(x), xs)| > Room(cls, t, cls(x))
  }

  ghost predicate SomeShort<C>(cls: nat -> C, t: Tally, xs: seq<nat>)
    requires t.Valid()
  {
    exists x: nat :: Short(cls, t, xs, x)
  }

  /** One entry for each class, with the number of its elements. */
  ghost predicate Whole<C>(cls: nat -> C, t: Tally, xs: seq<nat>)
    requires t.Valid()
  {
    && t.firsts == Firsts(cls, xs)
    && forall g :: 0 <= g < |t.firsts| ==> t.counts[g] == |OfClass(cls, cls(t.firsts[g]), xs)|
  }

  ghost predicate Entries<C>(cls: nat -> C, t: Tally, xs: seq<nat>) {
    Unlike(cls, t.firsts) && forall g :: 0 <= g < |t.firsts| ==> t.firsts[g] in xs
  }

  /** Counting, before the directory may grow. */
  ghost function Ungrown<K>(d: Input<K>, t: Tally, x: nat): (t': Tally)
    requires t.Valid()
    ensures t'.Valid()
  {
    Counting(d, t, x).(cap := t.cap)
  }

  lemma RoomStep<K>(d: Input<K>, t: Tally, x: nat, c: Class<K>)
    requires t.Valid()
    ensures var cls, t' := Classes(d, t.cap), Ungrown(d, t, x);
      && Room(cls, t', c) == Room(cls, t, c) + (if cls(x) == c then 1 else 0)
      && t'.firsts == t.firsts + if Seen(cls, t.firsts, cls(x)) then [] else [x]
  {
    var cls, t' := Classes(d, t.cap), Ungrown(d, t, x);
    hide Classes, EntryOf;
    EntrySeen(cls, t.firsts, cls(x));
    var e := EntryOf(cls, t.firsts, cls(x));
    if e == NONE {
      EntryMore(cls, t.firsts, x, c);
    } else if cls(x) != c {
      assert EntryOf(cls, t.firsts, c) != e;
    }
  }

  lemma EntryMore<C>(cls: nat -> C, f: seq<nat>, x: nat, c: C)
    ensures EntryOf(cls, f + [x], c) == if cls(x) == c then |f| else EntryOf(cls, f, c)
  {
    assert (f + [x])[..|f|] == f;
  }

  lemma EntriesStep<K>(d: Input<K>, t: Tally, xs: seq<nat>, x: nat)
    requires t.Valid() && Entries(Classes(d, t.cap), t, xs)
    ensures Entries(Classes(d, t.cap), Ungrown(d, t, x), xs + [x])
  {
    var cls := Classes(d, t.cap);
    hide Classes;
    EntrySeen(cls, t.firsts, cls(x));
  }

  lemma ShortStep<K>(d: Input<K>, t: Tally, xs: seq<nat>, x: nat, y: nat)
    requires t.Valid() && Short(Classes(d, t.cap), t, xs, y)
    ensures Short(Classes(d, t.cap), Ungrown(d, t, x), xs + [x], y)
  {
    var cls := Classes(d, t.cap);
    hide Classes, OfClass, EntryOf, Room, Ungrown;
    RoomStep(d, t, x, cls(y));
    OfClassStep(cls, cls(y), xs, x);
  }

  lemma WholeStep<K>(d: Input<K>, t: Tally, xs: seq<nat>, x: nat)
    requires t.Valid() && Whole(Classes(d, t.cap), t, xs)
    ensures Whole(Classes(d, t.cap), Ungrown(d, t, x), xs + [x])
  {
    var cls, t' := Classes(d, t.cap), Ungrown(d, t, x);
    hide Classes, OfClass;
    RoomStep(d, t, x, cls(x));
    FirstsStep(cls, xs, x);
    if !Seen(cls, t.firsts, cls(x)) { NoneOfClass(cls, xs, cls(x)); }
    forall g: nat | g < |t'.firsts| ensures t'.counts[g] == |OfClass(cls, cls(t'.firsts[g]), xs + [x])| {
      WholeRoom(cls, t, xs, g);
      RoomStep(d, t, x, cls(t'.firsts[g]));
      OfClassStep(cls, cls(t'.firsts[g]), xs, x);
      EntryAt(cls, t'.firsts, g);
    }
  }

  lemma WholeRoom<C>(cls: nat -> C, t: Tally, xs: seq<nat>, g: nat)
    requires t.Valid() && Whole(cls, t, xs)
    ensures Unlike(cls, t.firsts)
    ensures g < |t.firsts| ==> Room(cls, t, cls(t.firsts[g])) == t.counts[g]
  {
    if g < |t.firsts| { EntryAt(cls, t.firsts, g); }
  }

  // ---------------------------------------------------------------- growth

  /** An element whose class has an entry before growth, but not together with that entry after it. */
  lemma Separated<K>(d: Input<K>, t: Tally, cap: nat, xs: seq<nat>, e: nat, x: nat)
    requires t.Valid() && cap == 2 * t.cap && Entries(Classes(d, t.cap), t, xs) && e < |t.firsts| && x in xs
    requires Classes(d, t.cap)(x) == Classes(d, t.cap)(t.firsts[e])
    requires Classes(d, cap)(x) != Classes(d, cap)(t.firsts[e])
    ensures Short(Classes(d, cap), t.(cap := cap), xs, x)
  {
    var cls := Classes(d, cap);
    OfClassMembers(cls, cls(x), xs);
    assert x in OfClass(cls, cls(x), xs);
    var g := EntryOf(cls, t.firsts, cls(x));
    if g != NONE {
      Coarser(d, t.cap, t.firsts[g], x);
      assert false;
    }
  }

  /** What is short stays short. */
  lemma ShortGrown<K>(d: Input<K>, t: Tally, cap: nat, xs: seq<nat>, x: nat)
    requires t.Valid() && cap == 2 * t.cap && Entries(Classes(d, t.cap), t, xs) && Short(Classes(d, t.cap), t, xs, x)
    ensures SomeShort(Classes(d, cap), t.(cap := cap), xs)
  {
    var was, cls := Classes(d, t.cap), Classes(d, cap);
    var e := EntryOf(was, t.firsts, was(x));
    if e == NONE {
      OfClassMembers(cls, cls(x), xs);
      assert x in OfClass(cls, cls(x), xs);
      var g := EntryOf(cls, t.firsts, cls(x));
      if g != NONE {
        Coarser(d, t.cap, t.firsts[g], x);
        EntrySeen(was, t.firsts, was(x));
      }
      assert Short(cls, t.(cap := cap), xs, x);
    } else {
      var z := t.firsts[e];
      if forall y: nat :: y in xs && was(y) == was(z) ==> cls(y) == cls(z) {
        forall y: nat | y in xs ensures was(y) == was(z) <==> cls(y) == cls(z) {
          if cls(y) == cls(z) { Coarser(d, t.cap, y, z); }
        }
        OfSameClass(was, cls, z, xs);
        StillUnlike(d, t.cap, cap, t.firsts);
        EntryAt(cls, t.firsts, e);
        assert Short(cls, t.(cap := cap), xs, z);
      } else {
        var y: nat :| y in xs && was(y) == was(z) && cls(y) != cls(z);
        Separated(d, t, cap, xs, e, y);
      }
    }
  }

  /** Separating elements that were counted as one leaves one of them without an entry. */
  lemma WholeDivided<K>(d: Input<K>, t: Tally, cap: nat, xs: seq<nat>)
    requires t.Valid() && cap == 2 * t.cap && Entries(Classes(d, t.cap), t, xs) && Whole(Classes(d, t.cap), t, xs)
    requires !Together(d, t.cap, cap, xs)
    ensures SomeShort(Classes(d, cap), t.(cap := cap), xs)
  {
    var was, cls := Classes(d, t.cap), Classes(d, cap);
    var x: nat, y: nat :| x in xs && y in xs && was(x) == was(y) && cls(x) != cls(y);
    hide OfClass, Firsts;
    FirstsMembers(was, xs);
    var e: nat :| e < |t.firsts| && was(t.firsts[e]) == was(x);
    Separated(d, t, cap, xs, e, if cls(x) != cls(t.firsts[e]) then x else y);
  }

  lemma WholeGrown<K>(d: Input<K>, t: Tally, cap: nat, xs: seq<nat>)
    requires t.Valid() && cap == 2 * t.cap && Entries(Classes(d, t.cap), t, xs) && Whole(Classes(d, t.cap), t, xs)
    requires Together(d, t.cap, cap, xs)
    ensures Whole(Classes(d, cap), t.(cap := cap), xs)
  {
    var was, cls := Classes(d, t.cap), Classes(d, cap);
    forall x: nat, y: nat | x in xs && y in xs ensures was(x) == was(y) <==> cls(x) == cls(y) {
      if cls(x) == cls(y) { Coarser(d, t.cap, x, y); }
    }
    SameFirsts(was, cls, xs);
    forall g: nat | g < |t.firsts| ensures t.counts[g] == |OfClass(cls, cls(t.firsts[g]), xs)| {
      forall y: nat | y in xs ensures was(y) == was(t.firsts[g]) <==> cls(y) == cls(t.firsts[g]) {
        if cls(y) == cls(t.firsts[g]) { Coarser(d, t.cap, y, t.firsts[g]); }
      }
      OfSameClass(was, cls, t.firsts[g], xs);
    }
  }

  // --------------------------------------------------------------- results

  /** As long as nothing is divided the table is right; once something has been, some class has more
      elements than were counted for it, whatever is counted later. */
  lemma {:induction false} RightOrShort<K>(d: Input<K>, cap: nat, xs: seq<nat>)
    requires cap > 0
    ensures var t := Tallied(d, cap, xs);
      var cls := Classes(d, t.cap);
      Entries(cls, t, xs) && if Undivided(d, cap, xs) then Whole(cls, t, xs) else SomeShort(cls, t, xs)
  {
    if xs != [] {
      var n := |xs| - 1;
      var ys, x := xs[..n], xs[n];
      assert xs == ys + [x];
      RightOrShort(d, cap, ys);
      var t, t' := Tallied(d, cap, ys), Tallied(d, cap, xs);
      hide Classes, OfClass, Firsts, Together, Whole, Entries, Short;
      var u := Ungrown(d, t, x);
      assert t' == u.(cap := t'.cap) && Grown(t.cap, t'.cap);
      EntriesStep(d, t, ys, x);
      if Undivided(d, cap, ys) {
        WholeStep(d, t, ys, x);
      } else {
        var y: nat :| Short(Classes(d, t.cap), t, ys, y);
        ShortStep(d, t, ys, x, y);
      }
      Growing(d, u, t'.cap, xs);
    }
  }

  lemma Growing<K>(d: Input<K>, t: Tally, cap: nat, xs: seq<nat>)
    requires t.Valid() && Grown(t.cap, cap) && Entries(Classes(d, t.cap), t, xs)
    ensures Entries(Classes(d, cap), t.(cap := cap), xs)
    ensures Together(d, t.cap, cap, xs) && Whole(Classes(d, t.cap), t, xs) ==>
      Whole(Classes(d, cap), t.(cap := cap), xs)
    ensures SomeShort(Classes(d, t.cap), t, xs) || (Whole(Classes(d, t.cap), t, xs) && !Together(d, t.cap, cap, xs)) ==>
            SomeShort(Classes(d, cap), t.(cap := cap), xs)
  {
    hide Classes, Together, Whole, Entries, SomeShort, Unlike;
    if cap == t.cap {
      assert t.(cap := cap) == t;
    } else {
      EntriesGrown(d, t, cap, xs);
      if SomeShort(Classes(d, t.cap), t, xs) {
        var x := AShort(Classes(d, t.cap), t, xs);
        ShortGrown(d, t, cap, xs, x);
      }
      if Whole(Classes(d, t.cap), t, xs) {
        if Together(d, t.cap, cap, xs) { WholeGrown(d, t, cap, xs); } else { WholeDivided(d, t, cap, xs); }
      }
    }
    StaysTogether(d, cap, xs);
  }

  lemma StaysTogether<K>(d: Input<K>, cap: nat, xs: seq<nat>)
    requires cap > 0
    ensures Together(d, cap, cap, xs)
  {
  }

  lemma AShort<C>(cls: nat -> C, t: Tally, xs: seq<nat>) returns (x: nat)
    requires t.Valid() && SomeShort(cls, t, xs)
    ensures Short(cls, t, xs, x)
  {
    x :| Short(cls, t, xs, x);
  }

  lemma EntriesGrown<K>(d: Input<K>, t: Tally, cap: nat, xs: seq<nat>)
    requires t.cap > 0 && cap == 2 * t.cap && Entries(Classes(d, t.cap), t, xs)
    ensures Entries(Classes(d, cap), t.(cap := cap), xs)
  {
    StillUnlike(d, t.cap, cap, t.firsts);
  }

  /** Every element finds its entry, and no class has more elements than were counted for it, exactly
      if growth divided nothing. */
  lemma ExactlyUndivided<K>(d: Input<K>, cap: nat, xs: seq<nat>)
    requires cap > 0
    ensures var t := Tallied(d, cap, xs);
      SomeShort(Classes(d, t.cap), t, xs) <==> !Undivided(d, cap, xs)
  {
    var t := Tallied(d, cap, xs);
    var cls := Classes(d, t.cap);
    RightOrShort(d, cap, xs);
    hide Classes, OfClass, Firsts, Undivided, EntryOf;
    if Undivided(d, cap, xs) {
      forall x: nat | x in xs ensures !Short(cls, t, xs, x) {
        FirstsMembers(cls, xs);
        var e: nat :| e < |t.firsts| && cls(t.firsts[e]) == cls(x);
        WholeRoom(cls, t, xs, e);
      }
    }
  }

  lemma {:induction false} TallySize<K>(d: Input<K>, cap: nat, xs: seq<nat>)
    requires cap > 0
    ensures |Tallied(d, cap, xs).firsts| <= |xs|
  {
    hide EntryOf, Classes;
    if xs != [] { TallySize(d, cap, xs[..|xs| - 1]); }
  }

  // ---------------------------------------------- when nothing is divided

  /** Equal keys carry equal hashes, among these elements. */
  ghost predicate HashesFit<K>(d: Input<K>, xs: seq<nat>) {
    forall x: nat, y: nat :: x in xs && y in xs && d.Has(x) && d.Has(y) && d.keys[d.rep[x]] == d.keys[d.rep[y]] ==>
      d.hashes[x] == d.hashes[y]
  }

  lemma {:induction false} FittingHashes<K>(d: Input<K>, cap: nat, xs: seq<nat>)
    requires cap > 0 && HashesFit(d, xs)
    ensures Undivided(d, cap, xs)
  {
    if xs != [] {
      assert xs == xs[..|xs| - 1] + [xs[|xs| - 1]];
      FittingHashes(d, cap, xs[..|xs| - 1]);
    }
  }

  /** Too few classes for the directory to grow. */
  lemma {:induction false} FewClasses<K>(d: Input<K>, cap: nat, xs: seq<nat>)
    requires cap > 0 && |Firsts(Classes(d, cap), xs)| <= cap * 7 / 10
    ensures Undivided(d, cap, xs) && Tallied(d, cap, xs).cap == cap
  {
    if xs != [] {
      var n := |xs| - 1;
      var ys, x := xs[..n], xs[n];
      assert xs == ys + [x];
      FewClasses(d, cap, ys);
      var cls, t := Classes(d, cap), Tallied(d, cap, ys);
      RightOrShort(d, cap, ys);
      FirstsStep(cls, ys, x);
      EntrySeen(cls, t.firsts, cls(x));
      StaysTogether(d, cap, xs);
    }
  }

  // ------------------------------------------------------- a divided pass

  /** Keys and hashes of n elements: 0 and 1 have the same key, but hashes that are 256 apart. */
  ghost function Apart256(n: nat): Input<nat>
    requires n <= 181
  {
    Input(seq(n, (i: nat) => if i < 2 then 0 else i), seq(n, i requires 0 <= i < n => HashOf(i)), FirstNumbers(n))
  }

  function HashOf(i: nat): Hash
    requires i < 181
  {
    if i == 1 then 256 else 512 * i
  }

  ghost function FirstNumbers(n: nat): seq<nat> {
    seq(n, (i: nat) => i)
  }

  lemma OneSlot(n: nat, x: nat)
    requires x < n <= 181
    ensures Classes(Apart256(n), 256)(x) == Class(if x < 2 then 0 else x, 0)
    ensures Classes(Apart256(n), 512)(x) == Class(if x < 2 then 0 else x, if x == 1 then 256 else 0)
  {
  }

  lemma FillingStep(n: nat, t: Tally, k: nat)
    requires 1 <= k <= n <= 181 && t.Valid() && t.cap == 256 && |t.firsts| == if k <= 2 then k - 1 else k - 2
    requires forall g :: 0 <= g < |t.firsts| ==> t.firsts[g] == if g == 0 then 0 else g + 1
    ensures var t' := Counting(Apart256(n), t, k - 1);
      && |t'.firsts| == (if k == 1 then 1 else k - 1) && t'.cap == (if k == 181 then 512 else 256)
      && (forall g :: 0 <= g < |t'.firsts| ==> t'.firsts[g] == if g == 0 then 0 else g + 1)
  {
    var cls, x := Classes(Apart256(n), 256), k - 1;
    hide Apart256, Classes;
    OneSlot(n, x);
    EntrySeen(cls, t.firsts, cls(x));
    forall g | 0 <= g < |t.firsts| ensures cls(t.firsts[g]) == cls(x) <==> k == 2 {
      OneSlot(n, t.firsts[g]);
    }
    if k == 2 { assert cls(t.firsts[0]) == cls(x); }
  }

  lemma {:induction false} Filling(n: nat, k: nat)
    requires 1 <= k <= n <= 181
    ensures var t := Tallied(Apart256(n), 256, FirstNumbers(k));
      && |t.firsts| == (if k == 1 then 1 else k - 1) && t.cap == (if k == 181 then 512 else 256)
      && (forall g :: 0 <= g < |t.firsts| ==> t.firsts[g] == if g == 0 then 0 else g + 1)
  {
    hide Apart256, Counting;
    assert FirstNumbers(k)[..k - 1] == FirstNumbers(k - 1);
    if k > 1 { Filling(n, k - 1); }
    FillingStep(n, Tallied(Apart256(n), 256, FirstNumbers(k - 1)), k);
  }

  /** With 181 elements of 180 keys the directory of 256 slots grows at the last, and separates the
      two that have one key. */
  lemma DividedExample()
    ensures !Undivided(Apart256(181), 256, FirstNumbers(181))
  {
    var d, xs := Apart256(181), FirstNumbers(181);
    hide Apart256, Counting, Classes;
    Filling(181, 180);
    Filling(181, 181);
    assert xs[..180] == FirstNumbers(180);
    assert xs[0] == 0 && xs[1] == 1;
    OneSlot(181, 0);
    OneSlot(181, 1);
    assert 0 in xs && 1 in xs;
    assert !Together(d, 256, 512, xs);
  }
}
