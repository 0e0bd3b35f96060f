/** The jsmn tokenizer, without JSMN_STRICT. */
module Jsmn {

  datatype Type = Primitive | Object | Array | String

  /** A position of -1 is not known yet. */
  datatype Token = Token(typ: Type, start: int, end: int, size: nat)

  datatype Error = Success | NoMem | Inval | Part

  /** The parser and the tokens in use: toks has toknext elements. */
  datatype State = State(pos: nat, toks: seq<Token>, toksuper: int)

  function Init(): State { State(0, [], -1) }

  predicate Container(t: Token) { t.typ == Object || t.typ == Array }

  /** start != -1 && end == -1. */
  predicate Open(t: Token) { t.start != -1 && t.end == -1 }

  // --------------------------------------------------------- specification

  datatype Scan = Ends(at: nat) | Bad | Unfinished

  predicate EndsPrimitive(c: char) {
    c == ':' || c == '\t' || c == '\r' || c == '\n' || c == ' ' || c == ',' || c == ']' || c == '}'
  }

  /** Where a primitive ends. */
  function ScanPrimitive(js: string, p: nat): (r: Scan)
    requires p <= |js|
    ensures r.Ends? ==> p <= r.at <= |js|
    ensures !r.Unfinished?
    decreases |js| - p
  {
    if p == |js| || EndsPrimitive(js[p]) then Ends(p)
    else if js[p] as int < 32 || js[p] as int >= 127 then Bad
    else ScanPrimitive(js, p + 1)
  }

  predicate Escape(c: char) {
    c == '"' || c == '/' || c == '\\' || c == 'b' || c == 'f' || c == 'r' || c == 'n' || c == 't' || c == 'u'
  }

  /** Where the closing quote is. `beyond` is the byte after the input, which is looked at if the
      input ends in a backslash. */
  function ScanString(js: string, beyond: char, p: nat): (r: Scan)
    ensures r.Ends? ==> p <= r.at < |js|
    decreases |js| - p
  {
    if p >= |js| then Unfinished
    else if js[p] == '"' then Ends(p)
    else if js[p] == '\\' then
      if Escape(if p + 1 < |js| then js[p + 1] else beyond) then ScanString(js, beyond, p + 2) else Bad
    else ScanString(js, beyond, p + 1)
  }

  /** The last open token before `n`, or -1. */
  function LastOpen(toks: seq<Token>, n: nat): (i: int)
    requires n <= |toks|
    ensures -1 <= i < n
    ensures i >= 0 ==> Open(toks[i])
    ensures forall j :: i < j < n ==> !Open(toks[j])
  {
    if n == 0 then -1 else if Open(toks[n - 1]) then n - 1 else LastOpen(toks, n - 1)
  }

  predicate Sound(st: State) { -1 <= st.toksuper < |st.toks| }

  /** tokens[toksuper].size++. */
  function Counted(toks: seq<Token>, super: int): (r: seq<Token>)
    requires -1 <= super < |toks|
    ensures |r| == |toks|
  {
    if super == -1 then toks else toks[super := toks[super].(size := toks[super].size + 1)]
  }

  /** tokens[i].end = end. */
  function WithEnd(toks: seq<Token>, i: nat, end: int): (r: seq<Token>)
    requires i < |toks|
    ensures |r| == |toks|
  {
    toks[i := toks[i].(end := end)]
  }

  datatype Outcome = More(st: State) | Stop(error: Error, st: State)

  /** One iteration of the main loop, with room for n tokens. */
  function Step(js: string, beyond: char, n: nat, st: State): Outcome
    requires st.pos < |js| && Sound(st)
  {
    var c := js[st.pos];
    if c == '{' || c == '[' then
      if |st.toks| >= n then Stop(NoMem, st)
      else
        var token := Token(if c == '{' then Object else Array, st.pos, -1, 0);
        More(State(st.pos + 1, Counted(st.toks, st.toksuper) + [token], |st.toks|))
    else if c == '}' || c == ']' then
      var i := LastOpen(st.toks, |st.toks|);
      if i == -1 || st.toks[i].typ != (if c == '}' then Object else Array) then Stop(Inval, st)
      else
        More(State(st.pos + 1, WithEnd(st.toks, i, st.pos + 1), LastOpen(st.toks, i)))
    else if c == '"' then
      match ScanString(js, beyond, st.pos + 1)
      case Bad => Stop(Inval, st)
      case Unfinished => Stop(Part, st)
      case Ends(at) =>
        if |st.toks| >= n then Stop(NoMem, st)
        else More(State(at + 1, Counted(st.toks, st.toksuper) + [Token(String, st.pos + 1, at, 0)], st.toksuper))
    else if c == '\t' || c == '\r' || c == '\n' || c == ':' || c == ',' || c == ' ' then
      More(st.(pos := st.pos + 1))
    else
      match ScanPrimitive(js, st.pos)
      case Bad => Stop(Inval, st)
      case Unfinished => Stop(Part, st)
      case Ends(at) =>
        if |st.toks| >= n then Stop(NoMem, st)
        else More(State(at, Counted(st.toks, st.toksuper) + [Token(Primitive, st.pos, at, 0)], st.toksuper))
  }

  lemma StepAdvances(js: string, beyond: char, n: nat, st: State)
    requires st.pos < |js| && Sound(st)
    ensures var r := Step(js, beyond, n, st);
      match r
      case More(st') => st.pos < st'.pos <= |js| && Sound(st') && |st'.toks| >= |st.toks|
      case Stop(e, st') => st' == st && e != Success
  {
  }

  /** jsmn_parse. */
  function Parse(js: string, beyond: char, n: nat, st: State): (Error, State)
    requires st.pos <= |js| && Sound(st)
    decreases |js| - st.pos
  {
    if st.pos == |js| then (if LastOpen(st.toks, |st.toks|) == -1 then Success else Part, st)
    else
      StepAdvances(js, beyond, n, st);
      match Step(js, beyond, n, st)
      case More(st') => Parse(js, beyond, n, st')
      case Stop(e, st') => (e, st')
  }

  // ------------------------------------------------------------ resumption

  /** More room changes nothing but running out of it. */
  lemma {:induction false} MoreRoom(js: string, beyond: char, n: nat, n': nat, st: State)
    requires st.pos <= |js| && Sound(st) && n <= n'
    ensures var (e, st') := Parse(js, beyond, n, st);
      && st'.pos <= |js| && Sound(st')
      && (e != NoMem ==> Parse(js, beyond, n', st) == (e, st'))
      && (e == NoMem ==> Parse(js, beyond, n', st) == Parse(js, beyond, n', st'))
    decreases |js| - st.pos
  {
    if st.pos < |js| {
      StepAdvances(js, beyond, n, st);
      match Step(js, beyond, n, st)
      case More(st') => MoreRoom(js, beyond, n, n', st');
      case Stop(e, st') =>
    }
  }

  /** Calling the parser again with a larger array after it ran out of tokens gives what one run with
      the larger array gives, however often it is done. */
  lemma ResumeIsOneRun(js: string, beyond: char, n: nat, n': nat)
    requires n <= n' && Parse(js, beyond, n, Init()).0 == NoMem
    ensures var st := Parse(js, beyond, n, Init()).1;
      st.pos <= |js| && Sound(st) && Parse(js, beyond, n', st) == Parse(js, beyond, n', Init())
  {
    MoreRoom(js, beyond, n, n', Init());
  }

  // ------------------------------------------------ the byte behind the input

  /** The scan of a string comes to a backslash that is the last byte. */
  predicate ScanLooksBeyond(js: string, p: nat)
    decreases |js| - p
  {
    && p < |js| && js[p] != '"'
    && if js[p] == '\\' then p + 1 == |js| || (Escape(js[p + 1]) && ScanLooksBeyond(js, p + 2))
       else ScanLooksBeyond(js, p + 1)
  }

  /** A run comes to a string token whose scan does so. Until then the byte behind the input plays no
      part, so that any byte serves to follow the run. */
  predicate LooksBeyond(js: string, n: nat, st: State)
    requires st.pos <= |js| && Sound(st)
    decreases |js| - st.pos
  {
    st.pos < |js| &&
    if js[st.pos] == '"' && ScanLooksBeyond(js, st.pos + 1) then true
    else
      StepAdvances(js, 'n', n, st);
      match Step(js, 'n', n, st)
      case More(st') => LooksBeyond(js, n, st')
      case Stop(_, _) => false
  }

  lemma {:induction false} ScanLooking(js: string, beyond: char, p: nat)
    ensures ScanLooksBeyond(js, p) ==> ScanString(js, beyond, p) == if Escape(beyond) then Unfinished else Bad
    ensures !ScanLooksBeyond(js, p) ==> ScanString(js, beyond, p) == ScanString(js, 'n', p)
    decreases |js| - p
  {
    if p < |js| && js[p] != '"' {
      ScanLooking(js, beyond, if js[p] == '\\' then p + 2 else p + 1);
    }
  }

  /** A run that looks at the byte behind the input ends there, and that byte decides how; a run that
      does not is the same whatever the byte is. */
  lemma {:induction false} BeyondDecides(js: string, n: nat, st: State) returns (last: State)
    requires st.pos <= |js| && Sound(st)
    ensures LooksBeyond(js, n, st) ==>
      forall beyond :: Parse(js, beyond, n, st) == (if Escape(beyond) then Part else Inval, last)
    ensures !LooksBeyond(js, n, st) ==> forall beyond :: Parse(js, beyond, n, st) == Parse(js, 'n', n, st)
    decreases |js| - st.pos
  {
    last := st;
    if st.pos < |js| {
      forall beyond ensures js[st.pos] == '"' && ScanLooksBeyond(js, st.pos + 1) ==>
        Step(js, beyond, n, st) == Stop(if Escape(beyond) then Part else Inval, st)
      ensures !(js[st.pos] == '"' && ScanLooksBeyond(js, st.pos + 1)) ==>
        Step(js, beyond, n, st) == Step(js, 'n', n, st) {
        ScanLooking(js, beyond, st.pos + 1);
      }
      if !(js[st.pos] == '"' && ScanLooksBeyond(js, st.pos + 1)) {
        StepAdvances(js, 'n', n, st);
        match Step(js, 'n', n, st)
        case More(st') => last := BeyondDecides(js, n, st');
        case Stop(_, _) =>
      }
    }
  }

  /** The outcome depends on the input alone exactly if the run never looks behind it. */
  lemma OutcomeIsOfInput(js: string, n: nat, st: State)
    requires st.pos <= |js| && Sound(st)
    ensures (forall a, b :: Parse(js, a, n, st) == Parse(js, b, n, st)) <==> !LooksBeyond(js, n, st)
  {
    var last := BeyondDecides(js, n, st);
    assert Parse(js, 'n', n, st) == Parse(js, 'x', n, st) || LooksBeyond(js, n, st);
    if LooksBeyond(js, n, st) {
      assert Parse(js, 'n', n, st).0 != Parse(js, 'x', n, st).0;
    }
  }

  /** What a caller can check: nothing behind the input is looked at unless its last byte is a
      backslash. */
  lemma {:induction false} NoBackslashAtEnd(js: string, n: nat, st: State)
    requires st.pos <= |js| && Sound(st) && (js == "" || js[|js| - 1] != '\\')
    ensures !LooksBeyond(js, n, st)
    decreases |js| - st.pos
  {
    if st.pos < |js| {
      NoBackslashScan(js, st.pos + 1);
      StepAdvances(js, 'n', n, st);
      match Step(js, 'n', n, st)
      case More(st') => NoBackslashAtEnd(js, n, st');
      case Stop(_, _) =>
    }
  }

  lemma {:induction false} NoBackslashScan(js: string, p: nat)
    requires js != "" && js[|js| - 1] != '\\'
    ensures !ScanLooksBeyond(js, p)
    decreases |js| - p
  {
    if p < |js| { NoBackslashScan(js, if js[p] == '\\' then p + 2 else p + 1); }
  }

  /** The shortest input for which the byte behind it matters: a quote and a backslash. */
  lemma LoneBackslash(n: nat)
    ensures Parse("\"\\", 'n', n, Init()) == (Part, Init())
    ensures Parse("\"\\", 'x', n, Init()) == (Inval, Init())
  {
    var js := "\"\\";
    assert js[0] == '"' && js[1] == '\\' && |js| == 2;
    assert ScanString(js, 'n', 3) == Unfinished;
  }

  // --------------------------------------------------------------- nesting

  /** Token i is a container that holds token j: it was open when j started. */
  predicate Holds(toks: seq<Token>, i: nat, j: nat)
    requires i < |toks| && j < |toks|
  {
    i < j && Container(toks[i]) && (Open(toks[i]) || toks[j].start < toks[i].end)
  }

  /** The innermost container among the first n tokens that holds token j, or -1. */
  function Parent(toks: seq<Token>, j: nat, n: nat): (i: int)
    requires n <= j < |toks|
    ensures -1 <= i < n
    ensures i >= 0 ==> Holds(toks, i, j)
    ensures forall k :: i < k < n ==> !Holds(toks, k, j)
  {
    if n == 0 then -1 else if Holds(toks, n - 1, j) then n - 1 else Parent(toks, j, n - 1)
  }

  /** The direct children of token i among the first n tokens. */
  function Children(toks: seq<Token>, i: nat, n: nat): nat
    requires n <= |toks|
  {
    if n == 0 then 0
    else Children(toks, i, n - 1) + if Parent(toks, n - 1, n - 1) == i then 1 else 0
  }

  predicate ClosedBy(js: string, t: Token) {
    && 0 <= t.start && t.start < t.end && t.end <= |js|
    && (t.typ == Object ==> js[t.start] == '{' && js[t.end - 1] == '}')
    && (t.typ == Array ==> js[t.start] == '[' && js[t.end - 1] == ']')
  }

  /** A token by itself, when the parser has come to `pos`. */
  predicate TokenOk(js: string, pos: nat, t: Token) {
    && 0 <= t.start < pos
    && (Container(t) ==> (t.end == -1 || (ClosedBy(js, t) && t.end <= pos)))
    && (Container(t) && t.end == -1 ==> t.start < |js| && js[t.start] == (if t.typ == Object then '{' else '['))
    && (!Container(t) ==> t.start <= t.end <= pos)
  }

  /** Two tokens, the first of which was found first: disjoint, or the second inside the first. */
  predicate PairOk(a: Token, b: Token) {
    && a.start < b.start
    && (a.end == -1 || a.end <= b.start || (Container(a) && b.end != -1 && b.end < a.end))
  }

  ghost predicate Nested(js: string, st: State) {
    && Sound(st) && st.pos <= |js|
    && (forall i :: 0 <= i < |st.toks| ==> TokenOk(js, st.pos, st.toks[i]))
    && (forall i, j :: 0 <= i < j < |st.toks| ==> PairOk(st.toks[i], st.toks[j]))
    && st.toksuper == LastOpen(st.toks, |st.toks|)
    && (forall i :: 0 <= i < |st.toks| ==> st.toks[i].size == Children(st.toks, i, |st.toks|))
  }

  /** The first |a| tokens of b hold each other as those of a do. */
  ghost predicate SameHolds(a: seq<Token>, b: seq<Token>) {
    |a| <= |b| && forall i, j :: 0 <= i < j < |a| ==> (Holds(a, i, j) <==> Holds(b, i, j))
  }

  lemma {:induction false} SameParent(a: seq<Token>, b: seq<Token>, j: nat, n: nat)
    requires SameHolds(a, b) && n <= j < |a|
    ensures Parent(a, j, n) == Parent(b, j, n)
  {
    if n > 0 {
      assert Holds(a, n - 1, j) <==> Holds(b, n - 1, j);
      SameParent(a, b, j, n - 1);
    }
  }

  lemma {:induction false} SameChildren(a: seq<Token>, b: seq<Token>, i: nat, n: nat)
    requires SameHolds(a, b) && n <= |a|
    ensures Children(a, i, n) == Children(b, i, n)
  {
    if n > 0 {
      SameParent(a, b, n - 1, n - 1);
      SameChildren(a, b, i, n - 1);
    }
  }

  /** A token that starts behind everything so far is a child of the last open container. */
  lemma {:induction false} NewParent(toks: seq<Token>, n: nat)
    requires |toks| > 0 && n < |toks|
    requires forall i :: 0 <= i < |toks| - 1 ==> toks[i].start >= 0 && (Open(toks[i]) ==> Container(toks[i]))
    requires forall i :: 0 <= i < |toks| - 1 ==> toks[i].end == -1 || toks[i].end <= toks[|toks| - 1].start
    ensures Parent(toks, |toks| - 1, n) == LastOpen(toks, n)
  {
    if n > 0 { NewParent(toks, n - 1); }
  }

  lemma {:induction false} LastOpenSame(a: seq<Token>, b: seq<Token>, n: nat)
    requires n <= |a| && n <= |b| && forall i :: 0 <= i < n ==> (Open(a[i]) <==> Open(b[i]))
    ensures LastOpen(a, n) == LastOpen(b, n)
  {
    if n > 0 { LastOpenSame(a, b, n - 1); }
  }

  lemma ChildrenNone(toks: seq<Token>, i: nat, n: nat)
    requires n <= |toks| && n <= i
    ensures Children(toks, i, n) == 0
  {
    if n > 0 { ChildrenNone(toks, i, n - 1); }
  }

  /** What adding a token does to the others: nothing but one size. */
  lemma AddOthers(js: string, st: State, t: Token)
    requires Nested(js, st) && st.pos <= t.start
    ensures var toks := Counted(st.toks, st.toksuper) + [t];
      && (forall i :: 0 <= i < |st.toks| ==> toks[i].(size := 0) == st.toks[i].(size := 0))
      && SameHolds(st.toks, toks)
      && LastOpen(toks, |st.toks|) == st.toksuper
      && Parent(toks, |st.toks|, |st.toks|) == st.toksuper
  {
    hide Children;
    var n := |st.toks|;
    var toks := Counted(st.toks, st.toksuper) + [t];
    forall i | 0 <= i < n ensures toks[i].(size := 0) == st.toks[i].(size := 0) { }
    assert SameHolds(st.toks, toks);
    LastOpenSame(st.toks, toks, n);
    forall i | 0 <= i < n ensures toks[i].start >= 0 && (Open(toks[i]) ==> Container(toks[i]))
      && (toks[i].end == -1 || toks[i].end <= t.start) {
      assert TokenOk(js, st.pos, st.toks[i]);
    }
    NewParent(toks, n);
  }

  /** Adding a token behind everything so far. */
  lemma AddKeeps(js: string, st: State, t: Token, pos: nat)
    requires Nested(js, st) && st.pos <= t.start && st.pos < pos <= |js| && t.size == 0
    requires TokenOk(js, pos, t) && (Open(t) ==> Container(t))
    ensures var toks := Counted(st.toks, st.toksuper) + [t];
      Nested(js, State(pos, toks, if Open(t) then |st.toks| else st.toksuper))
  {
    hide Children, Parent, LastOpen, ClosedBy;
    var n := |st.toks|;
    var toks := Counted(st.toks, st.toksuper) + [t];
    AddOthers(js, st, t);
    AddTokens(js, st, t, pos);
    LastOpenNext(toks, n);
    forall i: nat | i < n + 1 ensures toks[i].size == Children(toks, i, n + 1) {
      AddChild(toks, i, n);
      if i < n { SameChildren(st.toks, toks, i, n); } else { ChildrenNone(toks, n, n); }
    }
  }

  lemma LastOpenNext(toks: seq<Token>, n: nat)
    requires n < |toks|
    ensures LastOpen(toks, n + 1) == if Open(toks[n]) then n else LastOpen(toks, n)
  {
  }

  lemma AddChild(toks: seq<Token>, i: nat, n: nat)
    requires n < |toks|
    ensures Children(toks, i, n + 1) == Children(toks, i, n) + if Parent(toks, n, n) == i then 1 else 0
  {
  }

  lemma AddTokens(js: string, st: State, t: Token, pos: nat)
    requires Nested(js, st) && st.pos <= t.start && st.pos < pos <= |js| && TokenOk(js, pos, t)
    ensures var toks := Counted(st.toks, st.toksuper) + [t];
      && (forall i :: 0 <= i < |toks| ==> TokenOk(js, pos, toks[i]))
      && (forall i, j :: 0 <= i < j < |toks| ==> PairOk(toks[i], toks[j]))
  {
    hide Children, Parent, LastOpen;
    var n := |st.toks|;
    var toks := Counted(st.toks, st.toksuper) + [t];
    forall i | 0 <= i < n ensures TokenOk(js, pos, toks[i]) { assert TokenOk(js, st.pos, st.toks[i]); }
    forall i, j | 0 <= i < j < n + 1 ensures PairOk(toks[i], toks[j]) {
      assert TokenOk(js, st.pos, st.toks[i]);
      if j < n { assert PairOk(st.toks[i], st.toks[j]); }
    }
  }

  lemma {:induction false} LastOpenBelow(toks: seq<Token>, i: nat, n: nat)
    requires i < n <= |toks| && forall j :: i <= j < n ==> !Open(toks[j])
    ensures LastOpen(toks, n) == LastOpen(toks, i)
  {
    if i < n - 1 { LastOpenBelow(toks, i, n - 1); }
  }

  /** Closing the innermost open container. */
  lemma CloseKeeps(js: string, st: State)
    requires Nested(js, st) && st.pos < |js|
    requires var i := LastOpen(st.toks, |st.toks|);
      i != -1 && js[st.pos] == if st.toks[i].typ == Object then '}' else ']'
    ensures var i := LastOpen(st.toks, |st.toks|);
      Nested(js, State(st.pos + 1, WithEnd(st.toks, i, st.pos + 1), LastOpen(st.toks, i)))
  {
    hide Children, Parent, LastOpen;
    var i, n := LastOpen(st.toks, |st.toks|), |st.toks|;
    var toks := st.toks[i := st.toks[i].(end := st.pos + 1)];
    assert TokenOk(js, st.pos, st.toks[i]);
    forall k | 0 <= k < n ensures TokenOk(js, st.pos + 1, toks[k]) { assert TokenOk(js, st.pos, st.toks[k]); }
    forall k, j | 0 <= k < j < n
      ensures PairOk(toks[k], toks[j])
      ensures Holds(st.toks, k, j) <==> Holds(toks, k, j) {
      assert PairOk(st.toks[k], st.toks[j]);
      assert TokenOk(js, st.pos, st.toks[j]);
    }
    LastOpenBelow(toks, i, n);
    LastOpenSame(st.toks, toks, i);
    forall k: nat | k < n ensures toks[k].size == Children(toks, k, n) {
      SameChildren(st.toks, toks, k, n);
    }
  }

  lemma NestedSound(js: string, st: State)
    requires Nested(js, st)
    ensures Sound(st) && st.pos <= |js| && st.toksuper == LastOpen(st.toks, |st.toks|)
  {
  }

  lemma SkipKeeps(js: string, st: State)
    requires Nested(js, st) && st.pos < |js|
    ensures Nested(js, st.(pos := st.pos + 1))
  {
    hide Children, LastOpen, PairOk;
    forall i | 0 <= i < |st.toks| ensures TokenOk(js, st.pos + 1, st.toks[i]) {
      assert TokenOk(js, st.pos, st.toks[i]);
    }
  }

  /** Every step keeps the nesting. */
  lemma StepKeeps(js: string, beyond: char, n: nat, st: State)
    requires Nested(js, st) && st.pos < |js|
    ensures var r := Step(js, beyond, n, st);
      match r case More(st') => Nested(js, st') case Stop(_, st') => st' == st
  {
    hide Children, LastOpen, PairOk, Nested;
    NestedSound(js, st);
    StepAdvances(js, beyond, n, st);
    var c := js[st.pos];
    var r := Step(js, beyond, n, st);
    if r.More? {
      if c == '{' || c == '[' {
        AddKeeps(js, st, Token(if c == '{' then Object else Array, st.pos, -1, 0), st.pos + 1);
      } else if c == '}' || c == ']' {
        ContainerOpen(js, st);
        CloseKeeps(js, st);
      } else if c == '"' {
        var at := ScanString(js, beyond, st.pos + 1).at;
        AddKeeps(js, st, Token(String, st.pos + 1, at, 0), at + 1);
      } else if c == '\t' || c == '\r' || c == '\n' || c == ':' || c == ',' || c == ' ' {
        SkipKeeps(js, st);
      } else {
        var at := ScanPrimitive(js, st.pos).at;
        AddKeeps(js, st, Token(Primitive, st.pos, at, 0), at);
      }
    }
  }

  lemma ContainerOpen(js: string, st: State)
    requires Nested(js, st)
    ensures forall i :: 0 <= i < |st.toks| && Open(st.toks[i]) ==> Container(st.toks[i])
  {
    forall i | 0 <= i < |st.toks| && Open(st.toks[i]) ensures Container(st.toks[i]) {
      assert TokenOk(js, st.pos, st.toks[i]);
    }
  }

  lemma {:induction false} ParseKeeps(js: string, beyond: char, n: nat, st: State)
    requires Nested(js, st)
    ensures Nested(js, Parse(js, beyond, n, st).1)
    ensures Parse(js, beyond, n, st).0 == Success ==>
      Parse(js, beyond, n, st).1.pos == |js| && Parse(js, beyond, n, st).1.toksuper == -1
    decreases |js| - st.pos
  {
    hide Nested, Step;
    NestedSound(js, st);
    if st.pos < |js| {
      StepAdvances(js, beyond, n, st);
      StepKeeps(js, beyond, n, st);
      match Step(js, beyond, n, st)
      case More(st') => ParseKeeps(js, beyond, n, st');
      case Stop(e, st') =>
    }
  }

  /** After a successful run: every container is closed by a bracket of its own type, tokens lie inside
      one another or apart, in the order of their starts, and every size is the number of direct
      children. */
  lemma SuccessIsNested(js: string, beyond: char, n: nat)
    requires Parse(js, beyond, n, Init()).0 == Success
    ensures var toks := Parse(js, beyond, n, Init()).1.toks;
      && (forall i :: 0 <= i < |toks| && Container(toks[i]) ==> ClosedBy(js, toks[i]))
      && (forall i, j :: 0 <= i < j < |toks| ==>
            && toks[i].start < toks[j].start
            && (toks[i].end <= toks[j].start || (Container(toks[i]) && toks[j].end < toks[i].end)))
      && (forall i :: 0 <= i < |toks| ==> toks[i].size == Children(toks, i, |toks|))
  {
    hide Children, Parent;
    ParseKeeps(js, beyond, n, Init());
    var st := Parse(js, beyond, n, Init()).1;
    forall i | 0 <= i < |st.toks| ensures st.toks[i].end != -1 && (Container(st.toks[i]) ==> ClosedBy(js, st.toks[i])) {
      assert TokenOk(js, st.pos, st.toks[i]);
      assert !Open(st.toks[i]);
    }
    forall i, j | 0 <= i < j < |st.toks| ensures PairOk(st.toks[i], st.toks[j]) { }
  }

  /** However a run ends, toksuper is the innermost open container, or -1. */
  lemma SuperIsInnermost(js: string, beyond: char, n: nat)
    ensures var st := Parse(js, beyond, n, Init()).1;
      && -1 <= st.toksuper < |st.toks|
      && (st.toksuper >= 0 ==> Container(st.toks[st.toksuper]) && Open(st.toks[st.toksuper]))
      && (forall i :: st.toksuper < i < |st.toks| ==> !Open(st.toks[i]))
  {
    ParseKeeps(js, beyond, n, Init());
    var st := Parse(js, beyond, n, Init()).1;
    if st.toksuper >= 0 { assert TokenOk(js, st.pos, st.toks[st.toksuper]); }
  }

  // ---------------------------------------------------------------- parser

  class Parser {
    var pos: nat
    var toknext: nat
    var toksuper: int

    /** jsmn_init. */
    constructor ()
      ensures pos == 0 && toknext == 0 && toksuper == -1
    {
      pos, toknext, toksuper := 0, 0, -1;
    }

    ghost predicate Valid(js: string, tokens: array<Token>)
      reads this
    {
      pos <= |js| && toknext <= tokens.Length && -1 <= toksuper < toknext
    }

    ghost function Abstract(tokens: array<Token>): State
      reads this, tokens
      requires toknext <= tokens.Length
    {
      State(pos, tokens[..toknext], toksuper)
    }

    /** jsmn_alloc_token; -1 stands for NULL. */
    method AllocToken(tokens: array<Token>, numTokens: nat) returns (i: int)
      requires toknext <= tokens.Length && numTokens <= tokens.Length
      modifies this`toknext, tokens
      ensures i == -1 <==> old(toknext) >= numTokens
      ensures i == -1 ==> toknext == old(toknext) && tokens[..] == old(tokens[..])
      ensures i != -1 ==>
        i == old(toknext) && toknext == i + 1 && tokens[i].start == tokens[i].end == -1 && tokens[i].size == 0
      ensures tokens[..old(toknext)] == old(tokens[..toknext])
    {
      if toknext >= numTokens { return -1; }
      i := toknext;
      toknext := toknext + 1;
      tokens[i] := tokens[i].(start := -1, end := -1, size := 0);
    }

    /** A scan that ends a token: what is then allocated and filled. */
    ghost predicate Filled(before: State, numTokens: nat, error: Error, t: Token, tokens: array<Token>)
      reads this, tokens
      requires toknext <= tokens.Length
    {
      if |before.toks| >= numTokens then error == NoMem && Abstract(tokens) == before
      else error == Success && tokens[..toknext] == before.toks + [t] && toksuper == before.toksuper
    }

    /** jsmn_parse_primitive; it leaves the position on the last character of the primitive. */
    method ParsePrimitive(js: string, tokens: array<Token>, numTokens: nat) returns (error: Error)
      requires Valid(js, tokens) && numTokens <= tokens.Length && pos < |js| && !EndsPrimitive(js[pos])
      modifies this`pos, this`toknext, tokens
      ensures Valid(js, tokens)
      ensures var before := old(Abstract(tokens));
        match ScanPrimitive(js, old(pos))
        case Bad => error == Inval && Abstract(tokens) == before
        case Unfinished => false
        case Ends(at) =>
          && Filled(before, numTokens, error, Token(Primitive, old(pos), at, 0), tokens)
          && (error == Success ==> pos + 1 == at)
    {
      var start := pos;
      while pos < |js| && !EndsPrimitive(js[pos])
        invariant start <= pos <= |js| && toknext == old(toknext) && tokens[..] == old(tokens[..])
        invariant ScanPrimitive(js, start) == ScanPrimitive(js, pos)
      {
        if js[pos] as int < 32 || js[pos] as int >= 127 {
          pos := start;
          return Inval;
        }
        pos := pos + 1;
      }
      var token := AllocToken(tokens, numTokens);
      if token == -1 {
        pos := start;
        return NoMem;
      }
      tokens[token] := Token(Primitive, start, pos, 0);
      pos := pos - 1;
      error := Success;
    }

    /** jsmn_parse_string; it leaves the position on the closing quote. */
    method ParseString(js: string, beyond: char, tokens: array<Token>, numTokens: nat) returns (error: Error)
      requires Valid(js, tokens) && numTokens <= tokens.Length && pos < |js|
      modifies this`pos, this`toknext, tokens
      ensures Valid(js, tokens)
      ensures var before := old(Abstract(tokens));
        match ScanString(js, beyond, old(pos) + 1)
        case Bad => error == Inval && Abstract(tokens) == before
        case Unfinished => error == Part && Abstract(tokens) == before
        case Ends(at) =>
          && Filled(before, numTokens, error, Token(String, old(pos) + 1, at, 0), tokens)
          && (error == Success ==> pos == at)
    {
      var start := pos;
      pos := pos + 1;
      while pos < |js|
        invariant start < pos && toknext == old(toknext) && tokens[..] == old(tokens[..])
        invariant ScanString(js, beyond, start + 1) == ScanString(js, beyond, pos)
        decreases |js| - pos
      {
        var c := js[pos];
        if c == '"' {
          var token := AllocToken(tokens, numTokens);
          if token == -1 {
            pos := start;
            return NoMem;
          }
          tokens[token] := Token(String, start + 1, pos, 0);
          return Success;
        }
        if c == '\\' {
          pos := pos + 1;
          if !Escape(if pos < |js| then js[pos] else beyond) {
            pos := start;
            return Inval;
          }
        }
        pos := pos + 1;
      }
      pos := start;
      error := Part;
    }

    /** tokens[toksuper].size++, if there is a super token. */
    method CountChild(tokens: array<Token>)
      requires -1 <= toksuper < toknext <= tokens.Length
      modifies tokens
      ensures tokens[..toknext] == Counted(old(tokens[..toknext]), toksuper)
    {
      if toksuper != -1 {
        tokens[toksuper] := tokens[toksuper].(size := tokens[toksuper].size + 1);
      }
    }

    /** A closing bracket: the innermost open token must be of its type; the one around it becomes the
        super token. */
    method Close(tokens: array<Token>, typ: Type) returns (ok: bool)
      requires toknext <= tokens.Length
      modifies this`toksuper, tokens
      ensures var before := old(tokens[..toknext]);
        var i := LastOpen(before, |before|);
        && (ok <==> i != -1 && before[i].typ == typ)
        && (ok ==> toksuper == LastOpen(before, i) && tokens[..toknext] == WithEnd(before, i, pos + 1))
        && (!ok ==> toksuper == old(toksuper) && tokens[..] == old(tokens[..]))
    {
      ghost var before := tokens[..toknext];
      var i: int := toknext - 1;
      while i >= 0 && !Open(tokens[i])
        invariant -1 <= i < toknext && tokens[..] == old(tokens[..]) && toksuper == old(toksuper)
        invariant LastOpen(before, toknext) == LastOpen(before, i + 1)
      {
        i := i - 1;
      }
      if i == -1 || tokens[i].typ != typ { return false; }
      toksuper := -1;
      tokens[i] := tokens[i].(end := pos + 1);
      ghost var after := tokens[..];
      var k: int := i - 1;
      while k >= 0 && !Open(tokens[k])
        invariant -1 <= k < i && tokens[..] == after && toksuper == -1
        invariant LastOpen(before, i) == LastOpen(before, k + 1)
      {
        k := k - 1;
      }
      toksuper := k;
      ok := true;
    }

    /** The body of the main loop. */
    method ParseOne(js: string, beyond: char, tokens: array<Token>, numTokens: nat) returns (error: Error)
      requires Valid(js, tokens) && numTokens <= tokens.Length && pos < |js|
      modifies this, tokens
      ensures Valid(js, tokens)
      ensures match Step(js, beyond, numTokens, old(Abstract(tokens)))
        case More(st) => error == Success && Abstract(tokens) == st.(pos := st.pos - 1) && st.pos > 0
        case Stop(e, st) => error == e != Success && Abstract(tokens) == st
    {
      hide ScanPrimitive, ScanString, LastOpen, Counted;
      ghost var before := Abstract(tokens);
      var c := js[pos];
      if c == '{' || c == '[' {
        error := OpenContainer(if c == '{' then Object else Array, tokens, numTokens);
      } else if c == '}' || c == ']' {
        var ok := Close(tokens, if c == '}' then Object else Array);
        error := if ok then Success else Inval;
      } else if c == '"' {
        error := ParseString(js, beyond, tokens, numTokens);
        if error == Success {
          assert tokens[..toknext][..|before.toks|] == before.toks;
          assert tokens[..toknext - 1] == before.toks;
          CountLast(tokens);
        }
      } else if c == '\t' || c == '\r' || c == '\n' || c == ':' || c == ',' || c == ' ' {
        error := Success;
      } else {
        error := ParsePrimitive(js, tokens, numTokens);
        if error == Success {
          assert tokens[..toknext][..|before.toks|] == before.toks;
          assert tokens[..toknext - 1] == before.toks;
          CountLast(tokens);
        }
      }
    }

    /** Counting after the token has been added: it is not its own super token. */
    method CountLast(tokens: array<Token>)
      requires 0 < toknext <= tokens.Length && -1 <= toksuper < toknext - 1
      modifies tokens
      ensures tokens[..toknext] == Counted(old(tokens[..toknext - 1]), toksuper) + [old(tokens[toknext - 1])]
    {
      ghost var before, last := tokens[..toknext - 1], tokens[toknext - 1];
      assert tokens[..toknext] == before + [last];
      CountChild(tokens);
      assert Counted(before + [last], toksuper) == Counted(before, toksuper) + [last];
    }

    method OpenContainer(typ: Type, tokens: array<Token>, numTokens: nat) returns (error: Error)
      requires toknext <= tokens.Length && -1 <= toksuper < toknext && numTokens <= tokens.Length
      modifies this`toknext, this`toksuper, tokens
      ensures toknext <= tokens.Length
      ensures var before := old(tokens[..toknext]);
        if |before| >= numTokens then error == NoMem && Abstract(tokens) == old(Abstract(tokens))
        else
          && error == Success && toksuper == |before|
          && tokens[..toknext] == Counted(before, old(toksuper)) + [Token(typ, pos, -1, 0)]
    {
      var token := AllocToken(tokens, numTokens);
      if token == -1 { return NoMem; }
      CountLast(tokens);
      tokens[token] := tokens[token].(typ := typ, start := pos);
      toksuper := toknext - 1;
      error := Success;
    }

    /** jsmn_parse. */
    method Run(js: string, beyond: char, tokens: array<Token>, numTokens: nat) returns (error: Error)
      requires Valid(js, tokens) && numTokens <= tokens.Length
      modifies this, tokens
      ensures Valid(js, tokens)
      ensures (error, Abstract(tokens)) == Parse(js, beyond, numTokens, old(Abstract(tokens)))
    {
      hide Step;
      ghost var goal := Parse(js, beyond, numTokens, Abstract(tokens));
      while pos < |js|
        invariant Valid(js, tokens)
        invariant goal == Parse(js, beyond, numTokens, Abstract(tokens))
        decreases |js| - pos
      {
        StepAdvances(js, beyond, numTokens, Abstract(tokens));
        error := ParseOne(js, beyond, tokens, numTokens);
        if error != Success { return; }
        pos := pos + 1;
      }
      ghost var toks := tokens[..toknext];
      var i: int := toknext - 1;
      while i >= 0
        invariant -1 <= i < toknext
        invariant LastOpen(toks, toknext) == LastOpen(toks, i + 1)
      {
        if Open(tokens[i]) { return Part; }
        i := i - 1;
      }
      error := Success;
    }
  }
}
