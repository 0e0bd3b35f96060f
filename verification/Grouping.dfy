/** What partitioning by key means: the elements of a sequence, sorted into classes, each class
    complete and in the order of the sequence. */
module Grouping {

  /** The elements of one class, in order. */
  function OfClass<C(==)>(cls: nat -> C, c: C, xs: seq<nat>): (r: seq<nat>)
    ensures |r| <= |xs|
  {
    if xs == [] then [] else
      var n := |xs| - 1;
      OfClass(cls, c, xs[..n]) + if cls(xs[n]) == c then [xs[n]] else []
  }

  predicate Seen<C(==)>(cls: nat -> C, firsts: seq<nat>, c: C) {
    exists g :: 0 <= g < |firsts| && cls(firsts[g]) == c
  }

  /** The first element of each class. */
  function Firsts<C(==)>(cls: nat -> C, xs: seq<nat>): (r: seq<nat>)
    ensures |r| <= |xs|
    ensures forall g, h :: 0 <= g < h < |r| ==> cls(r[g]) != cls(r[h])
  {
    if xs == [] then [] else
      var n := |xs| - 1;
      var f := Firsts(cls, xs[..n]);
      if Seen(cls, f, cls(xs[n])) then f else f + [xs[n]]
  }

  /** The classes of a sequence, in the order in which they first occur. */
  function Split<C(==)>(cls: nat -> C, xs: seq<nat>): (parts: seq<seq<nat>>)
    ensures |parts| == |Firsts(cls, xs)|
  {
    var f := Firsts(cls, xs);
    seq(|f|, g requires 0 <= g < |f| => OfClass(cls, cls(f[g]), xs))
  }

  /** Splits every part. */
  function Refine<C(==)>(cls: nat -> C, parts: seq<seq<nat>>): seq<seq<nat>> {
    if parts == [] then [] else Refine(cls, parts[..|parts| - 1]) + Split(cls, parts[|parts| - 1])
  }

  function Flatten(parts: seq<seq<nat>>): seq<nat> {
    if parts == [] then [] else Flatten(parts[..|parts| - 1]) + parts[|parts| - 1]
  }

  /** Where each part ends when the parts are stored one behind the other, from `start` on. */
  function Ends(parts: seq<seq<nat>>, start: nat): (ends: seq<nat>)
    ensures |ends| == |parts|
  {
    if parts == [] then []
    else Ends(parts[..|parts| - 1], start) + [start + |Flatten(parts)|]
  }

  /** xs sorted into its classes: every part is one whole class in the order of xs, no class
      occurs twice, and none is missing. */
  ghost predicate Groups<C(!new)>(cls: nat -> C, xs: seq<nat>, parts: seq<seq<nat>>) {
    && (forall p :: 0 <= p < |parts| ==> parts[p] != [] && parts[p] == OfClass(cls, cls(parts[p][0]), xs))
    && (forall p, q :: 0 <= p < q < |parts| ==> cls(parts[p][0]) != cls(parts[q][0]))
    && (forall x :: x in xs ==> exists p :: 0 <= p < |parts| && x in parts[p])
  }

  // ----------------------------------------------------- facts about these

  lemma {:induction false} OfClassMembers<C>(cls: nat -> C, c: C, xs: seq<nat>)
    ensures forall x :: x in OfClass(cls, c, xs) <==> x in xs && cls(x) == c
  {
    if xs != [] {
      var n := |xs| - 1;
      OfClassMembers(cls, c, xs[..n]);
      assert xs == xs[..n] + [xs[n]];
    }
  }

  lemma {:induction false} OfClassConcat<C>(cls: nat -> C, c: C, xs: seq<nat>, ys: seq<nat>)
    ensures OfClass(cls, c, xs + ys) == OfClass(cls, c, xs) + OfClass(cls, c, ys)
  {
    if ys == [] {
      assert xs + ys == xs;
    } else {
      var n := |ys| - 1;
      assert (xs + ys)[..|xs + ys| - 1] == xs + ys[..n];
      OfClassConcat(cls, c, xs, ys[..n]);
    }
  }

  lemma OfClassStep<C>(cls: nat -> C, c: C, xs: seq<nat>, x: nat)
    ensures OfClass(cls, c, xs + [x]) == OfClass(cls, c, xs) + if cls(x) == c then [x] else []
  {
    assert (xs + [x])[..|xs|] == xs;
  }

  lemma FirstsStep<C>(cls: nat -> C, xs: seq<nat>, x: nat)
    ensures Firsts(cls, xs + [x]) == Firsts(cls, xs) + if Seen(cls, Firsts(cls, xs), cls(x)) then [] else [x]
  {
    assert (xs + [x])[..|xs|] == xs;
  }

  lemma {:induction false} FirstsMembers<C>(cls: nat -> C, xs: seq<nat>)
    ensures forall x :: x in Firsts(cls, xs) ==> x in xs
    ensures forall x :: x in xs ==> Seen(cls, Firsts(cls, xs), cls(x))
  {
    if xs != [] {
      var n := |xs| - 1;
      FirstsMembers(cls, xs[..n]);
      assert xs == xs[..n] + [xs[n]];
      var f := Firsts(cls, xs[..n]);
      var f' := f + [xs[n]];
      assert cls(f'[|f|]) == cls(xs[n]);
      forall x | x in xs ensures Seen(cls, Firsts(cls, xs), cls(x)) {
        if x in xs[..n] {
          var g :| 0 <= g < |f| && cls(f[g]) == cls(x);
          assert f'[g] == f[g];
        }
      }
    }
  }

  /** The first elements of a prefix are among the first elements, in the same places. */
  lemma {:induction false} FirstsPrefix<C>(cls: nat -> C, xs: seq<nat>, i: nat)
    requires i <= |xs|
    ensures Firsts(cls, xs[..i]) <= Firsts(cls, xs)
  {
    if i == |xs| {
      assert xs[..i] == xs;
    } else {
      var n := |xs| - 1;
      FirstsPrefix(cls, xs[..n], i);
      assert xs[..n][..i] == xs[..i];
    }
  }

  lemma {:induction false} FlattenConcat(a: seq<seq<nat>>, b: seq<seq<nat>>)
    ensures Flatten(a + b) == Flatten(a) + Flatten(b)
  {
    if b == [] {
      assert a + b == a;
    } else {
      var n := |b| - 1;
      assert (a + b)[..|a + b| - 1] == a + b[..n];
      FlattenConcat(a, b[..n]);
    }
  }

  lemma {:induction false} EndsConcat(a: seq<seq<nat>>, b: seq<seq<nat>>, start: nat)
    ensures Ends(a + b, start) == Ends(a, start) + Ends(b, start + |Flatten(a)|)
  {
    if b == [] {
      assert a + b == a;
    } else {
      var n := |b| - 1;
      assert (a + b)[..|a + b| - 1] == a + b[..n];
      EndsConcat(a, b[..n], start);
      FlattenConcat(a, b);
    }
  }

  /** Part p of what is stored. */
  lemma {:induction false} EndsAt(parts: seq<seq<nat>>, start: nat, p: nat)
    requires p < |parts|
    ensures Ends(parts, start)[p] == start + |Flatten(parts[..p + 1])|
    ensures |Flatten(parts[..p + 1])| == |Flatten(parts[..p])| + |parts[p]| <= |Flatten(parts)|
    ensures Flatten(parts)[|Flatten(parts[..p])|..|Flatten(parts[..p + 1])|] == parts[p]
  {
    var n := |parts| - 1;
    assert parts[..p + 1][..p] == parts[..p];
    if p == n {
      assert parts[..p + 1] == parts;
    } else {
      EndsAt(parts[..n], start, p);
      assert parts[..n][..p + 1] == parts[..p + 1] && parts[..n][..p] == parts[..p];
    }
  }

  /** How often y occurs. */
  function Count(xs: seq<nat>, y: nat): nat {
    if xs == [] then 0 else Count(xs[..|xs| - 1], y) + if xs[|xs| - 1] == y then 1 else 0
  }

  lemma {:induction false} CountConcat(a: seq<nat>, b: seq<nat>, y: nat)
    ensures Count(a + b, y) == Count(a, y) + Count(b, y)
  {
    if b == [] {
      assert a + b == a;
    } else {
      assert (a + b)[..|a + b| - 1] == a + b[..|b| - 1];
      CountConcat(a, b[..|b| - 1], y);
    }
  }

  lemma {:induction false} CountOfClass<C>(cls: nat -> C, c: C, xs: seq<nat>, y: nat)
    ensures Count(OfClass(cls, c, xs), y) == if cls(y) == c then Count(xs, y) else 0
  {
    if xs != [] {
      var n := |xs| - 1;
      CountOfClass(cls, c, xs[..n], y);
      CountConcat(OfClass(cls, c, xs[..n]), if cls(xs[n]) == c then [xs[n]] else [], y);
      assert Count([], y) == 0;
      assert Count([xs[n]], y) == Count([xs[n]][..0], y) + if xs[n] == y then 1 else 0;
    }
  }

  lemma {:induction false} CountNone(xs: seq<nat>, y: nat)
    requires y !in xs
    ensures Count(xs, y) == 0
  {
    if xs != [] { CountNone(xs[..|xs| - 1], y); }
  }

  // --------------------------------------------------------------- results

  lemma SplitGroups<C(!new)>(cls: nat -> C, xs: seq<nat>)
    ensures Groups(cls, xs, Split(cls, xs))
  {
    var f, parts := Firsts(cls, xs), Split(cls, xs);
    assert forall p :: 0 <= p < |f| ==> parts[p] == OfClass(cls, cls(f[p]), xs);
    FirstsMembers(cls, xs);
    hide OfClass, Firsts, Split;
    forall p | 0 <= p < |parts|
      ensures parts[p] != [] && cls(parts[p][0]) == cls(f[p]) {
      OfClassMembers(cls, cls(f[p]), xs);
      assert f[p] in f && f[p] in parts[p];
      assert parts[p][0] in parts[p];
    }
    forall x | x in xs ensures exists p :: 0 <= p < |parts| && x in parts[p] {
      var g :| 0 <= g < |f| && cls(f[g]) == cls(x);
      OfClassMembers(cls, cls(f[g]), xs);
      assert x in parts[g];
    }
  }

  /** Partitioning is a stable rearrangement: every element occurs as often as before. */
  lemma {:induction false} GroupsRearrange<C(!new)>(cls: nat -> C, xs: seq<nat>, parts: seq<seq<nat>>, y: nat)
    requires Groups(cls, xs, parts)
    ensures Count(Flatten(parts), y) == Count(xs, y)
  {
    if y in xs {
      var p :| 0 <= p < |parts| && y in parts[p];
      OfClassMembers(cls, cls(parts[p][0]), xs);
      CountParts(cls, xs, parts, y, |parts|);
    } else {
      CountNone(xs, y);
      CountParts(cls, xs, parts, y, |parts|);
    }
    assert parts[..|parts|] == parts;
  }

  ghost predicate HasClass<C>(cls: nat -> C, parts: seq<seq<nat>>, k: nat, c: C)
    requires k <= |parts| && forall p :: 0 <= p < |parts| ==> parts[p] != []
  {
    exists p: nat :: p < k && cls(parts[p][0]) == c
  }

  lemma {:induction false} CountParts<C(!new)>(cls: nat -> C, xs: seq<nat>, parts: seq<seq<nat>>, y: nat, k: nat)
    requires Groups(cls, xs, parts) && k <= |parts|
    ensures Count(Flatten(parts[..k]), y) == if HasClass(cls, parts, k, cls(y)) then Count(xs, y) else 0
  {
    hide OfClass, Flatten, Count;
    FlattenTake(parts, k);
    if k > 0 {
      CountParts(cls, xs, parts, y, k - 1);
      CountConcat(Flatten(parts[..k - 1]), parts[k - 1], y);
      CountOfClass(cls, cls(parts[k - 1][0]), xs, y);
    } else {
      CountNone([], y);
    }
  }

  lemma FlattenTake(parts: seq<seq<nat>>, k: nat)
    requires k <= |parts|
    ensures k == 0 ==> Flatten(parts[..k]) == []
    ensures k > 0 ==> Flatten(parts[..k]) == Flatten(parts[..k - 1]) + parts[k - 1]
    ensures k == |parts| ==> parts[..k] == parts
  {
    if k > 0 { assert parts[..k][..k - 1] == parts[..k - 1]; }
  }

  /** Where part p starts. */
  function Before(ends: seq<nat>, p: nat): nat
    requires p < |ends|
  {
    if p == 0 then 0 else ends[p - 1]
  }

  lemma BoundAt(parts: seq<seq<nat>>, p: nat)
    requires p < |parts| && parts[p] != []
    ensures Before(Ends(parts, 0), p) < Ends(parts, 0)[p]
    ensures p == |parts| - 1 ==> Ends(parts, 0)[p] == |Flatten(parts)|
  {
    EndsAt(parts, 0, p);
    if p > 0 { EndsAt(parts, 0, p - 1); }
    if p == |parts| - 1 { assert parts[..p + 1] == parts; }
  }

  /** The bounds are strictly increasing, to the number of elements. */
  lemma GroupsBounds<C(!new)>(cls: nat -> C, xs: seq<nat>, parts: seq<seq<nat>>)
    requires Groups(cls, xs, parts)
    ensures forall p :: 0 <= p < |parts| ==> Before(Ends(parts, 0), p) < Ends(parts, 0)[p]
    ensures |parts| > 0 ==> Ends(parts, 0)[|parts| - 1] == |Flatten(parts)|
  {
    hide Ends, Flatten, OfClass;
    forall p: nat | p < |parts|
      ensures Before(Ends(parts, 0), p) < Ends(parts, 0)[p]
      ensures p == |parts| - 1 ==> Ends(parts, 0)[p] == |Flatten(parts)| {
      BoundAt(parts, p);
    }
  }

  /** Two classifications at once. */
  function Both<A, B>(a: nat -> A, b: nat -> B): nat -> (A, B) {
    (n: nat) => (a(n), b(n))
  }

  /** A class of a class. */
  lemma {:induction false} OfClassTwice<A, B>(a: nat -> A, b: nat -> B, x: A, y: B, xs: seq<nat>)
    ensures OfClass(b, y, OfClass(a, x, xs)) == OfClass(Both(a, b), (x, y), xs)
  {
    if xs != [] {
      var n := |xs| - 1;
      OfClassTwice(a, b, x, y, xs[..n]);
      OfClassConcat(b, y, OfClass(a, x, xs[..n]), if a(xs[n]) == x then [xs[n]] else []);
      if a(xs[n]) == x {
        assert [xs[n]][..0] == [];
        assert OfClass(b, y, [xs[n]]) == if b(xs[n]) == y then [xs[n]] else [];
      }
    }
  }

  /** The parts refined so far: complete classes of both keys, of the first k parts only. */
  ghost predicate Refined<A(!new), B(!new)>(a: nat -> A, b: nat -> B, xs: seq<nat>, parts: seq<seq<nat>>, k: nat,
                                            out: seq<seq<nat>>)
    requires k <= |parts| && Groups(a, xs, parts)
  {
    && (forall r :: 0 <= r < |out| ==>
          out[r] != [] && out[r] == OfClass(Both(a, b), Both(a, b)(out[r][0]), xs))
    && (forall r :: 0 <= r < |out| ==> exists p :: 0 <= p < k && a(out[r][0]) == a(parts[p][0]))
    && (forall q, r :: 0 <= q < r < |out| ==> Both(a, b)(out[q][0]) != Both(a, b)(out[r][0]))
    && (forall p :: 0 <= p < k ==> forall x :: x in parts[p] ==> exists r :: 0 <= r < |out| && x in out[r])
  }

  lemma SplitPart<A(!new), B(!new)>(a: nat -> A, b: nat -> B, xs: seq<nat>, parts: seq<seq<nat>>, k: nat, r: nat)
    requires k < |parts| && Groups(a, xs, parts) && r < |Split(b, parts[k])|
    ensures var part := Split(b, parts[k])[r];
      && part != [] && a(part[0]) == a(parts[k][0])
      && part == OfClass(Both(a, b), Both(a, b)(part[0]), xs)
  {
    var part := Split(b, parts[k])[r];
    var x := a(parts[k][0]);
    SplitGroups(b, parts[k]);
    OfClassMembers(b, b(part[0]), parts[k]);
    assert part[0] in part;
    OfClassMembers(a, x, xs);
    OfClassTwice(a, b, x, b(part[0]), xs);
  }

  /** Parts split off a later part are of other classes. */
  lemma RefinedDistinct<A(!new), B(!new)>(a: nat -> A, b: nat -> B, xs: seq<nat>, parts: seq<seq<nat>>, k: nat,
                                          out: seq<seq<nat>>)
    requires k < |parts| && Groups(a, xs, parts) && Refined(a, b, xs, parts, k, out)
    requires forall r :: 0 <= r < |out + Split(b, parts[k])| ==> (out + Split(b, parts[k]))[r] != []
    ensures var out' := out + Split(b, parts[k]);
      forall q, r :: 0 <= q < r < |out'| ==> Both(a, b)(out'[q][0]) != Both(a, b)(out'[r][0])
  {
    hide Split, OfClass;
    var more := Split(b, parts[k]);
    var out' := out + more;
    SplitGroups(b, parts[k]);
    forall q: nat, r: nat | q < r < |out'| ensures Both(a, b)(out'[q][0]) != Both(a, b)(out'[r][0]) {
      if r >= |out| {
        SplitPart(a, b, xs, parts, k, r - |out|);
        if q < |out| {
          var p :| 0 <= p < k && a(out[q][0]) == a(parts[p][0]);
          assert a(parts[p][0]) != a(parts[k][0]);
        } else {
          assert b(more[q - |out|][0]) != b(more[r - |out|][0]);
        }
      }
    }
  }

  lemma RefinedStep<A(!new), B(!new)>(a: nat -> A, b: nat -> B, xs: seq<nat>, parts: seq<seq<nat>>, k: nat,
                                     out: seq<seq<nat>>)
    requires k < |parts| && Groups(a, xs, parts) && Refined(a, b, xs, parts, k, out)
    ensures Refined(a, b, xs, parts, k + 1, out + Split(b, parts[k]))
  {
    hide Split, OfClass, Both;
    var more := Split(b, parts[k]);
    var out' := out + more;
    SplitGroups(b, parts[k]);
    forall r | 0 <= r < |out'|
      ensures out'[r] != [] && out'[r] == OfClass(Both(a, b), Both(a, b)(out'[r][0]), xs)
      ensures exists p :: 0 <= p < k + 1 && a(out'[r][0]) == a(parts[p][0]) {
      if r >= |out| { SplitPart(a, b, xs, parts, k, r - |out|); }
    }
    RefinedDistinct(a, b, xs, parts, k, out);
    forall p, x | 0 <= p < k + 1 && x in parts[p] ensures exists r :: 0 <= r < |out'| && x in out'[r] {
      if p < k {
        var r :| 0 <= r < |out| && x in out[r];
        assert out'[r] == out[r];
      } else {
        var r :| 0 <= r < |more| && x in more[r];
        assert out'[|out| + r] == more[r];
      }
    }
  }

  lemma {:induction false} RefinedUpTo<A(!new), B(!new)>(a: nat -> A, b: nat -> B, xs: seq<nat>, parts: seq<seq<nat>>,
                                                         k: nat)
    requires k <= |parts| && Groups(a, xs, parts)
    ensures Refined(a, b, xs, parts, k, Refine(b, parts[..k]))
  {
    if k > 0 {
      RefinedUpTo(a, b, xs, parts, k - 1);
      hide Refined, Groups;
      assert parts[..k][..k - 1] == parts[..k - 1];
      RefinedStep(a, b, xs, parts, k - 1, Refine(b, parts[..k - 1]));
    }
  }

  /** Refining a grouping by one key with another key is grouping by both. */
  lemma RefineGroups<A(!new), B(!new)>(a: nat -> A, b: nat -> B, xs: seq<nat>, parts: seq<seq<nat>>)
    requires Groups(a, xs, parts)
    ensures Groups(Both(a, b), xs, Refine(b, parts))
  {
    var out := Refine(b, parts);
    assert parts[..|parts|] == parts;
    RefinedUpTo(a, b, xs, parts, |parts|);
    assert Refined(a, b, xs, parts, |parts|, out);
    forall x | x in xs ensures exists r :: 0 <= r < |out| && x in out[r] {
      var p :| 0 <= p < |parts| && x in parts[p];
    }
  }

  // ------------------------------------------------------------ how it grows

  lemma {:induction false} OfClassPrefix<C>(cls: nat -> C, c: C, xs: seq<nat>, i: nat)
    requires i < |xs|
    ensures OfClass(cls, c, xs[..i + 1]) == OfClass(cls, c, xs[..i]) + if cls(xs[i]) == c then [xs[i]] else []
    ensures |OfClass(cls, c, xs[..i + 1])| <= |OfClass(cls, c, xs)|
  {
    assert xs[..i + 1] == xs[..i] + [xs[i]];
    OfClassStep(cls, c, xs[..i], xs[i]);
    assert xs == xs[..i + 1] + xs[i + 1..];
    OfClassConcat(cls, c, xs[..i + 1], xs[i + 1..]);
  }

  lemma {:induction false} FlattenUpdate(parts: seq<seq<nat>>, g: nat, part: seq<nat>)
    requires g < |parts|
    ensures |Flatten(parts[g := part])| == |Flatten(parts)| - |parts[g]| + |part|
  {
    var n := |parts| - 1;
    if g == n {
      assert parts[g := part][..n] == parts[..n];
    } else {
      assert parts[g := part][..n] == parts[..n][g := part];
      FlattenUpdate(parts[..n], g, part);
    }
  }

  /** Splitting loses nothing. */
  lemma {:induction false} SplitLength<C>(cls: nat -> C, xs: seq<nat>)
    ensures |Flatten(Split(cls, xs))| == |xs|
  {
    if xs != [] {
      var n := |xs| - 1;
      var ys, x := xs[..n], xs[n];
      assert xs == ys + [x];
      SplitLength(cls, ys);
      SplitStep(cls, ys, x);
    }
  }

  lemma SplitStep<C>(cls: nat -> C, ys: seq<nat>, x: nat)
    ensures |Flatten(Split(cls, ys + [x]))| == |Flatten(Split(cls, ys))| + 1
  {
    hide OfClass, Firsts, Flatten;
    var f, parts := Firsts(cls, ys), Split(cls, ys);
    var f', parts' := Firsts(cls, ys + [x]), Split(cls, ys + [x]);
    FirstsStep(cls, ys, x);
    if Seen(cls, f, cls(x)) {
      var g: nat :| g < |f| && cls(f[g]) == cls(x);
      forall h | 0 <= h < |f| ensures parts'[h] == parts[g := parts[g] + [x]][h] {
        OfClassStep(cls, cls(f[h]), ys, x);
      }
      assert parts' == parts[g := parts[g] + [x]];
      FlattenUpdate(parts, g, parts[g] + [x]);
    } else {
      forall h | 0 <= h < |f| ensures parts'[h] == parts[h] {
        assert f'[h] == f[h] && Seen(cls, f, cls(f[h]));
        OfClassStep(cls, cls(f[h]), ys, x);
      }
      OfClassStep(cls, cls(x), ys, x);
      NoneOfClass(cls, ys, cls(x));
      assert f'[|f|] == x && parts'[|f|] == [] + [x] == [x];
      assert parts' == parts + [[x]];
      FlattenConcat(parts, [[x]]);
      FlattenTake([[x]], 0);
      FlattenTake([[x]], 1);
    }
  }

  lemma NoneOfClass<C>(cls: nat -> C, xs: seq<nat>, c: C)
    requires !Seen(cls, Firsts(cls, xs), c)
    ensures OfClass(cls, c, xs) == []
  {
    var r := OfClass(cls, c, xs);
    assert |r| > 0 ==> r[0] in r;
    OfClassMembers(cls, c, xs);
    FirstsMembers(cls, xs);
  }

  /** Where part g starts, relative to the first. */
  function Offset(parts: seq<seq<nat>>, g: nat): nat
    requires g <= |parts|
  {
    |Flatten(parts[..g])|
  }

  lemma OffsetNext(parts: seq<seq<nat>>, g: nat)
    requires g < |parts|
    ensures Offset(parts, g + 1) == Offset(parts, g) + |parts[g]| <= |Flatten(parts)|
    ensures Offset(parts, 0) == 0 && Offset(parts, |parts|) == |Flatten(parts)|
    ensures Ends(parts[..g + 1], 0) == Ends(parts[..g], 0) + [Offset(parts, g + 1)]
  {
    EndsAt(parts, 0, g);
    assert parts[..|parts|] == parts;
    assert parts[..g + 1][..g] == parts[..g];
  }

  lemma {:induction false} OffsetOrder(parts: seq<seq<nat>>, g: nat, h: nat)
    requires g < h <= |parts|
    ensures Offset(parts, g) + |parts[g]| <= Offset(parts, h) <= |Flatten(parts)|
    decreases h
  {
    OffsetNext(parts, h - 1);
    if g < h - 1 { OffsetOrder(parts, g, h - 1); }
  }

  /** Parts stored one behind the other, put together. */
  lemma {:induction false} Assemble(parts: seq<seq<nat>>, out: seq<nat>, k: nat)
    requires k <= |parts| && |Flatten(parts)| == |out|
    requires forall g :: 0 <= g < |parts| ==>
      Offset(parts, g) + |parts[g]| <= |out| && out[Offset(parts, g)..Offset(parts, g) + |parts[g]|] == parts[g]
    ensures Offset(parts, k) <= |out| && out[..Offset(parts, k)] == Flatten(parts[..k])
  {
    hide Flatten, Offset;
    OffsetTake(parts, k);
    FlattenTake(parts, k);
    if k > 0 {
      Assemble(parts, out, k - 1);
      JoinSlices(out, Offset(parts, k - 1), Offset(parts, k));
    }
  }

  lemma OffsetTake(parts: seq<seq<nat>>, k: nat)
    requires k <= |parts|
    ensures k == 0 ==> Offset(parts, k) == 0
    ensures k > 0 ==> Offset(parts, k) == Offset(parts, k - 1) + |parts[k - 1]|
  {
    FlattenTake(parts, k);
  }

  lemma JoinSlices(s: seq<nat>, a: nat, b: nat)
    requires a <= b <= |s|
    ensures s[..b] == s[..a] + s[a..b]
  {
  }

  // ----------------------------------------- classes told apart in two ways

  lemma {:induction false} OfSameClass<A, B>(a: nat -> A, b: nat -> B, g: nat, xs: seq<nat>)
    requires forall x: nat :: x in xs ==> (a(x) == a(g) <==> b(x) == b(g))
    ensures OfClass(a, a(g), xs) == OfClass(b, b(g), xs)
  {
    if xs != [] {
      assert xs == xs[..|xs| - 1] + [xs[|xs| - 1]];
      OfSameClass(a, b, g, xs[..|xs| - 1]);
    }
  }

  lemma {:induction false} SameFirsts<A, B>(a: nat -> A, b: nat -> B, xs: seq<nat>)
    requires forall x: nat, y: nat :: x in xs && y in xs ==> (a(x) == a(y) <==> b(x) == b(y))
    ensures Firsts(a, xs) == Firsts(b, xs)
  {
    if xs != [] {
      var n := |xs| - 1;
      assert xs == xs[..n] + [xs[n]];
      SameFirsts(a, b, xs[..n]);
      FirstsMembers(a, xs[..n]);
      assert forall g: nat :: g < |Firsts(a, xs[..n])| ==> Firsts(a, xs[..n])[g] in xs;
    }
  }

  lemma SameSplit<C>(a: nat -> C, b: nat -> C, xs: seq<nat>)
    requires forall x: nat :: x in xs ==> a(x) == b(x)
    ensures Split(a, xs) == Split(b, xs)
  {
    SameFirsts(a, b, xs);
    var f := Firsts(a, xs);
    FirstsMembers(a, xs);
    hide OfClass, Firsts;
    forall g: nat | g < |f| ensures OfClass(a, a(f[g]), xs) == OfClass(b, b(f[g]), xs) {
      OfSameClass(a, b, f[g], xs);
    }
  }

  /** Two classifications that agree on the elements group them alike. */
  lemma SameGroups<A(!new), B(!new)>(a: nat -> A, b: nat -> B, xs: seq<nat>, parts: seq<seq<nat>>)
    requires Groups(a, xs, parts)
    requires forall x: nat, y: nat :: x in xs && y in xs ==> (a(x) == a(y) <==> b(x) == b(y))
    ensures Groups(b, xs, parts)
  {
    forall p: nat | p < |parts| ensures parts[p][0] in xs {
      OfClassMembers(a, a(parts[p][0]), xs);
      assert parts[p][0] in parts[p];
    }
    hide OfClass;
    forall p: nat | p < |parts| ensures parts[p] == OfClass(b, b(parts[p][0]), xs) {
      OfSameClass(a, b, parts[p][0], xs);
    }
  }

  /** One partition of all elements. */
  lemma OnePart<C(!new)>(cls: nat -> C, xs: seq<nat>)
    requires xs != [] && forall x: nat, y: nat :: cls(x) == cls(y)
    ensures Groups(cls, xs, [xs])
  {
    AllOfClass(cls, cls(xs[0]), xs);
    assert [xs][0] == xs;
  }

  lemma {:induction false} AllOfClass<C>(cls: nat -> C, c: C, xs: seq<nat>)
    requires forall x: nat :: cls(x) == c
    ensures OfClass(cls, c, xs) == xs
  {
    if xs != [] {
      AllOfClass(cls, c, xs[..|xs| - 1]);
    }
  }
}
