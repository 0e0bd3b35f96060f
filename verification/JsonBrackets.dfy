/** How a run of the tokenizer ends, for every input: decided by the characters alone. Outside of strings and
    primitives only brackets matter. */
module JsonBrackets {
  import opened Jsmn

  // ------------------------------------------------------------- the verdict

  predicate Opener(c: char) { c == '{' || c == '[' }

  predicate Closer(c: char) { c == '}' || c == ']' }

  predicate Pair(o: char, c: char) { (o == '{' && c == '}') || (o == '[' && c == ']') }

  predicate Between(c: char) { c == '\t' || c == '\r' || c == '\n' || c == ':' || c == ',' || c == ' ' }

  /** How reading on from p ends, with these brackets open. */
  function Verdict(js: string, beyond: char, p: nat, open: string): Error
    requires p <= |js|
    decreases |js| - p
  {
    if p == |js| then (if open == "" then Success else Part)
    else
      var c := js[p];
      if Opener(c) then Verdict(js, beyond, p + 1, open + [c])
      else if Closer(c) then
        if open != "" && Pair(open[|open| - 1], c) then Verdict(js, beyond, p + 1, open[..|open| - 1]) else Inval
      else if c == '"' then
        match ScanString(js, beyond, p + 1)
        case Bad => Inval
        case Unfinished => Part
        case Ends(at) => Verdict(js, beyond, at + 1, open)
      else if Between(c) then Verdict(js, beyond, p + 1, open)
      else
        match ScanPrimitive(js, p)
        case Ends(at) => if at > p then Verdict(js, beyond, at, open) else Inval
        case _ => Inval
  }

  function Bracket(t: Token): char { if t.typ == Object then '{' else '[' }

  /** The brackets of the open tokens among the first n. */
  function OpenBrackets(toks: seq<Token>, n: nat): string
    requires n <= |toks|
  {
    if n == 0 then ""
    else OpenBrackets(toks, n - 1) + if Open(toks[n - 1]) then [Bracket(toks[n - 1])] else ""
  }

  ghost predicate OnlyContainersOpen(toks: seq<Token>) {
    forall i :: 0 <= i < |toks| && Open(toks[i]) ==> Container(toks[i])
  }

  lemma {:induction false} LastIsTop(toks: seq<Token>, n: nat)
    requires n <= |toks|
    ensures var i := LastOpen(toks, n); var open := OpenBrackets(toks, n);
      && (i == -1 <==> open == "")
      && (i != -1 ==> open != "" && open[|open| - 1] == Bracket(toks[i]) && open[..|open| - 1] == OpenBrackets(toks, i))
  {
    if n > 0 {
      var before := OpenBrackets(toks, n - 1);
      if Open(toks[n - 1]) {
        assert (before + [Bracket(toks[n - 1])])[..|before|] == before;
      } else {
        assert before + "" == before;
        LastIsTop(toks, n - 1);
      }
    }
  }

  lemma {:induction false} SameBrackets(a: seq<Token>, b: seq<Token>, n: nat)
    requires n <= |a| && n <= |b|
    requires forall i :: 0 <= i < n ==> (Open(a[i]) <==> Open(b[i])) && a[i].typ == b[i].typ
    ensures OpenBrackets(a, n) == OpenBrackets(b, n)
  {
    if n > 0 { SameBrackets(a, b, n - 1); }
  }

  /** A token behind the others, and a size counted. */
  lemma AddBrackets(toks: seq<Token>, super: int, t: Token)
    requires -1 <= super < |toks| && OnlyContainersOpen(toks) && (Open(t) ==> Container(t))
    ensures var all := Counted(toks, super) + [t];
      && OnlyContainersOpen(all)
      && OpenBrackets(all, |all|) ==
         if Open(t) then OpenBrackets(toks, |toks|) + [Bracket(t)] else OpenBrackets(toks, |toks|)
  {
    var all := Counted(toks, super) + [t];
    SameBrackets(all, toks, |toks|);
  }

  /** Closing the innermost open token. */
  lemma CloseBrackets(toks: seq<Token>, end: nat)
    requires OnlyContainersOpen(toks) && LastOpen(toks, |toks|) != -1
    ensures var i := LastOpen(toks, |toks|); var all := WithEnd(toks, i, end);
      OnlyContainersOpen(all) && OpenBrackets(all, |all|) == OpenBrackets(toks, i)
  {
    var i := LastOpen(toks, |toks|);
    var all := WithEnd(toks, i, end);
    SameBrackets(all, toks, i);
    NoneBehind(all, i, |all|);
  }

  lemma {:induction false} NoneBehind(toks: seq<Token>, i: nat, n: nat)
    requires i <= n <= |toks| && forall j :: i <= j < n ==> !Open(toks[j])
    ensures OpenBrackets(toks, n) == OpenBrackets(toks, i)
  {
    if i < n { NoneBehind(toks, i, n - 1); }
  }

  /** What one step does, as seen from the brackets. */
  lemma StepVerdict(js: string, beyond: char, n: nat, st: State)
    requires st.pos < |js| && Sound(st) && OnlyContainersOpen(st.toks) && |st.toks| < n
    ensures var r := Step(js, beyond, n, st);
      r.More? ==>
        && st.pos < r.st.pos <= |js| && Sound(r.st) && OnlyContainersOpen(r.st.toks) && |r.st.toks| <= |st.toks| + 1
        && Verdict(js, beyond, r.st.pos, OpenBrackets(r.st.toks, |r.st.toks|)) ==
           Verdict(js, beyond, st.pos, OpenBrackets(st.toks, |st.toks|))
    ensures var r := Step(js, beyond, n, st);
      r.Stop? ==> r.error == Verdict(js, beyond, st.pos, OpenBrackets(st.toks, |st.toks|))
  {
    hide ScanString, ScanPrimitive, LastOpen, OpenBrackets, OnlyContainersOpen;
    StepAdvances(js, beyond, n, st);
    var c := js[st.pos];
    if Opener(c) {
      AddBrackets(st.toks, st.toksuper, Token(if c == '{' then Object else Array, st.pos, -1, 0));
    } else if Closer(c) {
      LastIsTop(st.toks, |st.toks|);
      if LastOpen(st.toks, |st.toks|) != -1 {
        OpenIsContainer(st.toks);
        CloseBrackets(st.toks, st.pos + 1);
      }
    } else if c == '"' {
      var scan := ScanString(js, beyond, st.pos + 1);
      if scan.Ends? { AddBrackets(st.toks, st.toksuper, Token(String, st.pos + 1, scan.at, 0)); }
    } else if !Between(c) {
      var scan := ScanPrimitive(js, st.pos);
      PrimitiveAdvances(js, st.pos);
      if scan.Ends? { AddBrackets(st.toks, st.toksuper, Token(Primitive, st.pos, scan.at, 0)); }
    }
  }

  lemma OpenIsContainer(toks: seq<Token>)
    requires OnlyContainersOpen(toks) && LastOpen(toks, |toks|) != -1
    ensures Container(toks[LastOpen(toks, |toks|)])
  {
  }

  lemma PrimitiveAdvances(js: string, p: nat)
    requires p < |js| && !Opener(js[p]) && !Closer(js[p]) && !Between(js[p])
    ensures var scan := ScanPrimitive(js, p); scan == Bad || (scan.Ends? && scan.at > p)
  {
  }

  lemma {:induction false} ParseVerdict(js: string, beyond: char, n: nat, st: State)
    requires st.pos <= |js| && Sound(st) && OnlyContainersOpen(st.toks) && |st.toks| + (|js| - st.pos) <= n
    ensures Parse(js, beyond, n, st).0 == Verdict(js, beyond, st.pos, OpenBrackets(st.toks, |st.toks|))
    decreases |js| - st.pos
  {
    hide Step, Verdict, LastOpen, OpenBrackets, OnlyContainersOpen;
    if st.pos < |js| {
      StepAdvances(js, beyond, n, st);
      StepVerdict(js, beyond, n, st);
      match Step(js, beyond, n, st)
      case More(st') => ParseVerdict(js, beyond, n, st');
      case Stop(_, _) =>
    } else {
      LastIsTop(st.toks, |st.toks|);
      AtEnd(js, beyond, OpenBrackets(st.toks, |st.toks|));
    }
  }

  lemma AtEnd(js: string, beyond: char, open: string)
    ensures Verdict(js, beyond, |js|, open) == if open == "" then Success else Part
  {
  }

  /** Every run ends as the characters say, or has run out of room, which it does not if there is a token for
      every character. */
  lemma EveryOutcome(js: string, beyond: char, n: nat)
    ensures Parse(js, beyond, n, Init()).0 == NoMem || Parse(js, beyond, n, Init()).0 == Verdict(js, beyond, 0, "")
    ensures n >= |js| ==> Parse(js, beyond, n, Init()).0 == Verdict(js, beyond, 0, "")
  {
    hide Parse, Verdict;
    var room := if n < |js| then |js| else n;
    MoreRoom(js, beyond, n, room, Init());
    ParseVerdict(js, beyond, room, Init());
  }

  // ---------------------------------------------------- brackets by themselves

  /** Trees of brackets, and the texts they stand for. */
  datatype Forest = Empty | Tree(open: char, inside: Forest, close: char, more: Forest)

  predicate Paired(f: Forest) { f.Tree? ==> Pair(f.open, f.close) && Paired(f.inside) && Paired(f.more) }

  function Text(f: Forest): string {
    match f
    case Empty => ""
    case Tree(open, inside, close, more) => [open] + (Text(inside) + ([close] + Text(more)))
  }

  /** The brackets can be paired, each closing one with the opening one of its kind. */
  ghost predicate Balanced(b: string) { exists f :: Paired(f) && Text(f) == b }

  /** The closing bracket at k has an opening one of its kind, with nothing unpaired between them. */
  ghost predicate HasPartner(b: string, k: nat)
    requires k < |b|
  {
    exists j: nat :: j < k && Pair(b[j], b[k]) && Balanced(b[j + 1..k])
  }

  ghost predicate AllClosersPaired(b: string) {
    forall k: nat :: k < |b| && Closer(b[k]) ==> HasPartner(b, k)
  }

  predicate Brackets(b: string) { forall i :: 0 <= i < |b| ==> Opener(b[i]) || Closer(b[i]) }

  datatype Stack = Fails | Leaves(open: string)

  /** What reading brackets leaves open. */
  function Left(b: string): Stack {
    if b == "" then Leaves("")
    else
      var c := b[|b| - 1];
      match Left(b[..|b| - 1])
      case Fails => Fails
      case Leaves(open) =>
        if Opener(c) then Leaves(open + [c])
        else if open != "" && Pair(open[|open| - 1], c) then Leaves(open[..|open| - 1])
        else Fails
  }

  lemma LeftMore(b: string, c: char)
    ensures Left(b + [c]) ==
      match Left(b)
      case Fails => Fails
      case Leaves(open) =>
        if Opener(c) then Leaves(open + [c])
        else if open != "" && Pair(open[|open| - 1], c) then Leaves(open[..|open| - 1])
        else Fails
  {
    assert (b + [c])[..|b|] == b;
  }

  lemma {:induction false} StillFails(b: string, more: string)
    requires Left(b) == Fails
    ensures Left(b + more) == Fails
  {
    if more == "" {
      assert b + more == b;
    } else {
      assert (b + more)[..|b + more| - 1] == b + more[..|more| - 1];
      StillFails(b, more[..|more| - 1]);
    }
  }

  function Append(f: Forest, g: Forest): Forest {
    match f
    case Empty => g
    case Tree(open, inside, close, more) => Tree(open, inside, close, Append(more, g))
  }

  lemma {:induction false} AppendText(f: Forest, g: Forest)
    requires Paired(f) && Paired(g)
    ensures Paired(Append(f, g)) && Text(Append(f, g)) == Text(f) + Text(g)
  {
    if f.Tree? {
      AppendText(f.more, g);
      Regroup(f.open, Text(f.inside), f.close, Text(f.more), Text(g));
    }
  }

  lemma Regroup(open: char, inside: string, close: char, more: string, rest: string)
    ensures [open] + (inside + ([close] + (more + rest))) == [open] + (inside + ([close] + more)) + rest
  {
  }

  lemma BalancedEmpty()
    ensures Balanced("")
  {
    assert Paired(Empty) && Text(Empty) == "";
  }

  lemma BalancedAround(a: string, o: char, b: string, c: char)
    requires Balanced(a) && Balanced(b) && Pair(o, c)
    ensures Balanced(a + [o] + b + [c])
  {
    hide Paired, Text;
    var f :| Paired(f) && Text(f) == a;
    var g :| Paired(g) && Text(g) == b;
    var t := Tree(o, g, c, Empty);
    TreeText(g, o, c);
    AppendText(f, t);
    assert Text(Append(f, t)) == a + [o] + b + [c];
  }

  lemma TreeText(g: Forest, o: char, c: char)
    requires Paired(g) && Pair(o, c)
    ensures var t := Tree(o, g, c, Empty); Paired(t) && Text(t) == [o] + Text(g) + [c]
  {
    assert [o] + (Text(g) + ([c] + "")) == [o] + Text(g) + [c];
  }

  /** Balanced brackets leave things as they were. */
  lemma {:induction false} ForestLeft(u: string, f: Forest)
    requires Paired(f) && Left(u).Leaves?
    ensures Left(u + Text(f)) == Left(u)
    decreases f
  {
    hide Left;
    if f == Empty {
      assert u + Text(f) == u;
    } else {
      var open := Left(u).open;
      LeftMore(u, f.open);
      ForestLeft(u + [f.open], f.inside);
      LeftMore(u + [f.open] + Text(f.inside), f.close);
      assert (open + [f.open])[..|open|] == open;
      ForestLeft(u + [f.open] + Text(f.inside) + [f.close], f.more);
      assert u + Text(f) == u + [f.open] + Text(f.inside) + [f.close] + Text(f.more);
    }
  }

  /** What is left open and the balanced rest behind it. */
  ghost predicate Shaped(u: string, open: string, j: nat)
    requires open != ""
  {
    j < |u| && u[j] == open[|open| - 1] && Left(u[..j]) == Leaves(open[..|open| - 1]) && Balanced(u[j + 1..])
  }

  lemma OpenerShape(w: string, c: char)
    requires Left(w).Leaves? && Opener(c)
    ensures Shaped(w + [c], Left(w).open + [c], |w|)
  {
    hide Balanced, Left;
    var open := Left(w).open;
    assert (w + [c])[|w| + 1..] == "" && (w + [c])[..|w|] == w && (open + [c])[..|open|] == open;
    BalancedEmpty();
  }

  /** With the top bracket at k closed, what is behind the bracket below it is balanced. */
  lemma CloserBalances(w: string, k: nat, c: char, j: nat)
    requires j <= k < |w| && Pair(w[k], c) && Balanced(w[j..k]) && Balanced(w[k + 1..])
    ensures Balanced((w + [c])[j..])
  {
    hide Balanced;
    BalancedAround(w[j..k], w[k], w[k + 1..], c);
    assert (w + [c])[j..] == w[j..k] + [w[k]] + w[k + 1..] + [c];
  }

  lemma {:induction false} LeftShape(u: string) returns (j: nat)
    requires Left(u).Leaves?
    ensures Left(u).open == "" ==> Balanced(u)
    ensures Left(u).open != "" ==> Shaped(u, Left(u).open, j)
    decreases |u|
  {
    hide Balanced, Left;
    j := 0;
    if u == "" {
      BalancedEmpty();
      NothingLeft("");
      assert ""[..0] == "";
    } else {
      var w, c := u[..|u| - 1], u[|u| - 1];
      assert u == w + [c];
      LeftMore(w, c);
      var k := LeftShape(w);
      if Opener(c) {
        j := |w|;
        OpenerShape(w, c);
      } else {
        j := LeftShape(w[..k]);
        if Left(u).open == "" {
          assert w[..k] == w[0..k] && (w + [c])[0..] == u;
          CloserBalances(w, k, c, 0);
        } else {
          assert w[..k][j + 1..] == w[j + 1..k] && u[..j] == w[..k][..j];
          CloserBalances(w, k, c, j + 1);
        }
      }
    }
  }

  /** Balanced is what leaves nothing open. */
  lemma BalancedLeavesNothing(b: string)
    ensures Left(b) == Leaves("") <==> Balanced(b)
  {
    if Left(b) == Leaves("") { var _ := LeftShape(b); }
    if f :| Paired(f) && Text(f) == b {
      ForestLeft("", f);
      assert "" + Text(f) == b;
    }
  }

  lemma {:induction false} PrefixLeaves(b: string, k: nat)
    requires k <= |b| && Left(b).Leaves?
    ensures Left(b[..k]).Leaves?
  {
    var u, v := b[..k], b[k..];
    assert u + v == b;
    if Left(u) == Fails { StillFails(u, v); }
  }

  /** A closing bracket with a partner can be read, if what is in front of it can. */
  lemma PartnerReads(b: string, k: nat)
    requires k < |b| && Closer(b[k]) && Left(b[..k]).Leaves?
    ensures HasPartner(b, k) <==> Left(b[..k + 1]).Leaves?
  {
    hide Left, Balanced;
    assert b[..k + 1] == b[..k] + [b[k]];
    LeftMore(b[..k], b[k]);
    var open := Left(b[..k]).open;
    if j: nat :| j < k && Pair(b[j], b[k]) && Balanced(b[j + 1..k]) {
      PartnerOnTop(b[..k], j);
    }
    if Left(b[..k + 1]).Leaves? {
      var j := LeftShape(b[..k]);
      assert b[..k][j + 1..] == b[j + 1..k];
      assert Pair(b[j], b[k]);
    }
  }

  lemma PartnerOnTop(u: string, j: nat)
    requires j < |u| && Opener(u[j]) && Left(u).Leaves? && Balanced(u[j + 1..])
    ensures Left(u).open != "" && Left(u).open[|Left(u).open| - 1] == u[j]
  {
    hide Left, Paired, Text;
    PrefixLeaves(u, j);
    assert u[..j + 1] == u[..j] + [u[j]];
    LeftMore(u[..j], u[j]);
    var f :| Paired(f) && Text(f) == u[j + 1..];
    ForestLeft(u[..j + 1], f);
    assert u[..j + 1] + Text(f) == u;
  }

  lemma {:induction false} ClosersPaired(b: string, n: nat)
    requires n <= |b| && Brackets(b)
    ensures Left(b[..n]).Leaves? <==> forall k: nat :: k < n && Closer(b[k]) ==> HasPartner(b, k)
  {
    hide Left, HasPartner;
    if n == 0 {
      NothingLeft(b);
    } else {
      ClosersPaired(b, n - 1);
      assert b[..n] == b[..n - 1] + [b[n - 1]];
      LeftMore(b[..n - 1], b[n - 1]);
      if Left(b[..n - 1]).Leaves? && Closer(b[n - 1]) { PartnerReads(b, n - 1); }
    }
  }

  lemma NothingLeft(b: string)
    ensures Left(b[..0]) == Leaves("")
  {
  }

  // ------------------------------------------------ inputs without other errors

  /** From p on every string and every primitive can be read. */
  predicate Scans(js: string, beyond: char, p: nat)
    requires p <= |js|
    decreases |js| - p
  {
    if p == |js| then true
    else if js[p] == '"' then
      match ScanString(js, beyond, p + 1)
      case Ends(at) => Scans(js, beyond, at + 1)
      case _ => false
    else if Opener(js[p]) || Closer(js[p]) || Between(js[p]) then Scans(js, beyond, p + 1)
    else
      match ScanPrimitive(js, p)
      case Ends(at) => at > p && Scans(js, beyond, at)
      case _ => false
  }

  /** The brackets from p on that are in no string and no primitive. */
  function Outer(js: string, beyond: char, p: nat): (b: string)
    requires p <= |js| && Scans(js, beyond, p)
    ensures Brackets(b)
    decreases |js| - p
  {
    if p == |js| then ""
    else if js[p] == '"' then Outer(js, beyond, ScanString(js, beyond, p + 1).at + 1)
    else if Opener(js[p]) || Closer(js[p]) then [js[p]] + Outer(js, beyond, p + 1)
    else if Between(js[p]) then Outer(js, beyond, p + 1)
    else Outer(js, beyond, ScanPrimitive(js, p).at)
  }

  lemma {:induction false} VerdictOfBrackets(js: string, beyond: char, p: nat, before: string)
    requires p <= |js| && Scans(js, beyond, p) && Left(before).Leaves?
    ensures Verdict(js, beyond, p, Left(before).open) ==
      match Left(before + Outer(js, beyond, p))
      case Fails => Inval
      case Leaves(open) => if open == "" then Success else Part
    decreases |js| - p
  {
    hide Left, ScanString, ScanPrimitive;
    if p == |js| {
      assert before + "" == before;
    } else if Opener(js[p]) || Closer(js[p]) {
      LeftMore(before, js[p]);
      var rest := Outer(js, beyond, p + 1);
      assert before + ([js[p]] + rest) == before + [js[p]] + rest;
      if Left(before + [js[p]]).Leaves? {
        VerdictOfBrackets(js, beyond, p + 1, before + [js[p]]);
      } else {
        StillFails(before + [js[p]], rest);
      }
    } else if js[p] == '"' {
      VerdictOfBrackets(js, beyond, ScanString(js, beyond, p + 1).at + 1, before);
    } else if Between(js[p]) {
      VerdictOfBrackets(js, beyond, p + 1, before);
    } else {
      VerdictOfBrackets(js, beyond, ScanPrimitive(js, p).at, before);
    }
  }

  /** If all strings and primitives can be read and there is room, a run succeeds exactly if the brackets outside of
      them are balanced, is invalid exactly if some closing one has no partner, and else is short of some. */
  lemma BracketsDecide(js: string, beyond: char, n: nat)
    requires Scans(js, beyond, 0) && n >= |js|
    ensures var b := Outer(js, beyond, 0);
      Parse(js, beyond, n, Init()).0 ==
        if Balanced(b) then Success else if !AllClosersPaired(b) then Inval else Part
    ensures Balanced(Outer(js, beyond, 0)) ==> AllClosersPaired(Outer(js, beyond, 0))
  {
    hide Parse, Verdict, Left, Balanced, HasPartner, Scans, Outer;
    var b := Outer(js, beyond, 0);
    EveryOutcome(js, beyond, n);
    NothingLeft("");
    assert ""[..0] == "" && "" + b == b;
    VerdictOfBrackets(js, beyond, 0, "");
    BalancedLeavesNothing(b);
    ClosersPaired(b, |b|);
    assert b[..|b|] == b;
  }

  /** A closing bracket that closes nothing, and one of the wrong kind. */
  lemma StrayBrackets(beyond: char, n: nat)
    requires n >= 3
    ensures Parse("]", beyond, n, Init()).0 == Inval && Parse("[}]", beyond, n, Init()).0 == Inval
  {
    EveryOutcome("]", beyond, n);
    EveryOutcome("[}]", beyond, n);
    assert "" + ['['] == "[";
  }

  // ------------------------------------------------- strings and primitives

  /** What may stand between the quotes of a string: anything but a quote or a backslash, or one of the escapes. */
  predicate Body(s: string)
    decreases |s|
  {
    if s == "" then true
    else if s[0] == '\\' then |s| >= 2 && s[1] in "\"/\\bfrntu" && Body(s[2..])
    else s[0] != '"' && Body(s[1..])
  }

  /** A string ends at the first quote that is no part of an escape. */
  lemma {:induction false} StringEnds(js: string, beyond: char, p: nat, at: nat)
    requires p <= at < |js|
    ensures ScanString(js, beyond, p) == Ends(at) <==> js[at] == '"' && Body(js[p..at])
    decreases |js| - p
  {
    var s := js[p..at];
    if p == at {
      EndsAtQuote(js, beyond, p);
    } else if js[p] == '\\' {
      if p + 2 <= at {
        assert s[2..] == js[p + 2..at] && s[1] == js[p + 1];
        EscapeIs(js[p + 1]);
        StringEnds(js, beyond, p + 2, at);
      } else {
        EndsLater(js, beyond, p + 2);
      }
    } else {
      assert s[1..] == js[p + 1..at];
      StringEnds(js, beyond, p + 1, at);
    }
  }

  lemma EscapeIs(c: char)
    ensures Escape(c) <==> c in "\"/\\bfrntu"
  {
  }

  lemma EndsLater(js: string, beyond: char, p: nat)
    ensures ScanString(js, beyond, p).Ends? ==> ScanString(js, beyond, p).at >= p
  {
  }

  lemma EndsAtQuote(js: string, beyond: char, p: nat)
    requires p < |js|
    ensures ScanString(js, beyond, p) == Ends(p) <==> js[p] == '"'
  {
    EndsLater(js, beyond, p + 1);
    EndsLater(js, beyond, p + 2);
  }

  /** A primitive goes on to the next of these characters, or to the end, through printable ones. */
  lemma {:induction false} PrimitiveEnds(js: string, p: nat, at: nat)
    requires p <= at <= |js|
    ensures ScanPrimitive(js, p) == Ends(at) <==>
      && (forall i :: p <= i < at ==> 32 <= js[i] as int < 127 && js[i] !in ":\t\r\n ,]}")
      && (at < |js| ==> js[at] in ":\t\r\n ,]}")
    decreases |js| - p
  {
    if p < at {
      PrimitiveEnds(js, p + 1, at);
    } else if p < |js| && !EndsPrimitive(js[p]) {
      LaterEnds(js, p + 1);
    }
  }

  lemma LaterEnds(js: string, p: nat)
    requires p <= |js|
    ensures ScanPrimitive(js, p).Ends? ==> ScanPrimitive(js, p).at >= p
  {
  }
}
