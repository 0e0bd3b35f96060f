/** Every text of the JSON grammar (sections 2 to 7 of RFC 8259) is accepted by the tokenizer, with the
    tokens of its values. */
module JsonTexts {
  import opened Jsmn

  // ------------------------------------------------------------ the grammar

  datatype Char = Plain(c: char) | Escaped(c: char) | Code(hex: string)

  datatype Exponent = NoExponent | Exponent(mark: char, sign: string, digits: string)

  /** The name of a member, and the whitespace on both sides of the colon behind it. */
  datatype Name = Unnamed | Name(chars: seq<Char>, before: string, after: string)

  /** Values, with the whitespace inside them. */
  datatype Value =
    | Word(text: string)
    | Number(minus: bool, whole: string, fraction: string, exponent: Exponent)
    | Quoted(chars: seq<Char>)
    | Bracketed(items: Items)
    | Braced(items: Items)

  /** What stands between brackets or braces. */
  datatype Items =
    | Nothing(blank: string)
    | Single(item: Item)
    | Several(item: Item, more: Items)

  datatype Item = Item(before: string, name: Name, value: Value, after: string)

  predicate Blank(s: string) {
    forall c :: c in s ==> c == ' ' || c == '\t' || c == '\n' || c == '\r'
  }

  predicate Digits(s: string) {
    forall c :: c in s ==> '0' <= c <= '9'
  }

  predicate Hex(c: char) {
    '0' <= c <= '9' || 'a' <= c <= 'f' || 'A' <= c <= 'F'
  }

  predicate ValidChar(c: Char) {
    match c
    case Plain(c) => c as int >= 32 && c != '"' && c != '\\'
    case Escaped(c) => c in "\"\\/bfnrt"
    case Code(hex) => |hex| == 4 && forall i :: 0 <= i < 4 ==> Hex(hex[i])
  }

  predicate ValidChars(s: seq<Char>) {
    forall i :: 0 <= i < |s| ==> ValidChar(s[i])
  }

  predicate ValidExponent(e: Exponent) {
    e.Exponent? ==> (e.mark == 'e' || e.mark == 'E') && e.sign in ["", "+", "-"] && e.digits != "" && Digits(e.digits)
  }

  predicate ValidName(n: Name) {
    n.Name? ==> ValidChars(n.chars) && Blank(n.before) && Blank(n.after)
  }

  predicate Valid(v: Value)
    decreases v
  {
    match v
    case Word(text) => text in ["false", "null", "true"]
    case Number(_, whole, fraction, exponent) =>
      && whole != "" && Digits(whole) && (|whole| > 1 ==> whole[0] != '0')
      && Digits(fraction) && ValidExponent(exponent)
    case Quoted(chars) => ValidChars(chars)
    case Bracketed(items) => ValidItems(items, false)
    case Braced(items) => ValidItems(items, true)
  }

  predicate ValidItems(items: Items, named: bool)
    decreases items
  {
    match items
    case Nothing(blank) => Blank(blank)
    case Single(item) => ValidItem(item, named)
    case Several(item, more) => ValidItem(item, named) && !more.Nothing? && ValidItems(more, named)
  }

  predicate ValidItem(item: Item, named: bool)
    decreases item
  {
    && Blank(item.before) && Blank(item.after) && item.name.Name? == named && ValidName(item.name)
    && Valid(item.value)
  }

  // --------------------------------------------------------------- its texts

  function CharText(c: Char): string {
    match c
    case Plain(c) => [c]
    case Escaped(c) => ['\\', c]
    case Code(hex) => ['\\', 'u'] + hex
  }

  function CharsText(s: seq<Char>): string {
    if s == [] then "" else CharText(s[0]) + CharsText(s[1..])
  }

  function QuotedText(s: seq<Char>): string {
    ['"'] + CharsText(s) + ['"']
  }

  function NumberText(v: Value): string
    requires v.Number?
  {
    (if v.minus then "-" else "") + v.whole + (if v.fraction == "" then "" else "." + v.fraction) +
    match v.exponent
    case NoExponent => ""
    case Exponent(mark, sign, digits) => [mark] + sign + digits
  }

  function NameText(n: Name): string {
    match n
    case Unnamed => ""
    case Name(chars, before, after) => QuotedText(chars) + (before + [':'] + after)
  }

  function Text(v: Value): string
    decreases v
  {
    match v
    case Word(text) => text
    case Number(_, _, _, _) => NumberText(v)
    case Quoted(chars) => QuotedText(chars)
    case Bracketed(items) => ['['] + (ItemsText(items) + [']'])
    case Braced(items) => ['{'] + (ItemsText(items) + ['}'])
  }

  function ItemsText(items: Items): string
    decreases items
  {
    match items
    case Nothing(blank) => blank
    case Single(item) => ItemText(item)
    case Several(item, more) => ItemText(item) + ([','] + ItemsText(more))
  }

  function ItemText(item: Item): string
    decreases item
  {
    item.before + (NameText(item.name) + (Text(item.value) + item.after))
  }

  // -------------------------------------------------------------- its tokens

  predicate AllClosed(toks: seq<Token>) {
    forall i :: 0 <= i < |toks| ==> !Open(toks[i])
  }

  /** One token for each value and each name, in the order of their starts. The size of an array is the
      number of its values, that of an object the number of its names and values. */
  function TokensOf(v: Value, at: nat): (toks: seq<Token>)
    ensures toks != [] && AllClosed(toks)
    decreases v
  {
    match v
    case Word(_) => [Token(Primitive, at, at + |Text(v)|, 0)]
    case Number(_, _, _, _) => [Token(Primitive, at, at + |Text(v)|, 0)]
    case Quoted(chars) => [Token(String, at + 1, at + 1 + |CharsText(chars)|, 0)]
    case Bracketed(items) => [Token(Array, at, at + |Text(v)|, Count(items))] + ItemsTokens(items, at + 1)
    case Braced(items) => [Token(Object, at, at + |Text(v)|, Count(items))] + ItemsTokens(items, at + 1)
  }

  function Count(items: Items): nat {
    match items
    case Nothing(_) => 0
    case Single(item) => ItemCount(item)
    case Several(item, more) => ItemCount(item) + Count(more)
  }

  function ItemCount(item: Item): nat { if item.name.Name? then 2 else 1 }

  function ItemsTokens(items: Items, at: nat): (toks: seq<Token>)
    ensures AllClosed(toks)
    decreases items
  {
    match items
    case Nothing(_) => []
    case Single(item) => ItemTokens(item, at)
    case Several(item, more) => ItemTokens(item, at) + ItemsTokens(more, at + |ItemText(item)| + 1)
  }

  function ItemTokens(item: Item, at: nat): (toks: seq<Token>)
    ensures AllClosed(toks)
    decreases item
  {
    NameTokens(item.name, at + |item.before|) +
    TokensOf(item.value, at + |item.before| + |NameText(item.name)|)
  }

  function NameTokens(n: Name, at: nat): seq<Token> {
    if n.Name? then [Token(String, at + 1, at + 1 + |CharsText(n.chars)|, 0)] else []
  }

  // --------------------------------------------------------------- reading

  predicate Stands(js: string, at: nat, s: string) {
    at + |s| <= |js| && js[at..at + |s|] == s
  }

  lemma StandsParts(js: string, at: nat, a: string, b: string)
    requires Stands(js, at, a + b)
    ensures Stands(js, at, a) && Stands(js, at + |a|, b)
  {
    assert js[at..at + |a|] == (a + b)[..|a|] == a;
    assert js[at + |a|..at + |a| + |b|] == (a + b)[|a|..] == b;
  }

  lemma StandsAt(js: string, at: nat, s: string, i: nat)
    requires Stands(js, at, s) && i < |s|
    ensures js[at + i] == s[i]
  {
    assert js[at..at + |s|][i] == s[i];
  }

  /** Nothing more of a primitive stands here. */
  predicate Ended(js: string, at: nat)
    requires at <= |js|
  {
    at == |js| || EndsPrimitive(js[at])
  }

  /** toksuper is where the parser left it: at the innermost open container. */
  predicate Ready(js: string, st: State) {
    Sound(st) && st.pos <= |js| && st.toksuper == LastOpen(st.toks, |st.toks|)
  }

  /** The parser comes from one state to the other. */
  ghost predicate Leads(js: string, beyond: char, n: nat, a: State, b: State) {
    Ready(js, a) && Ready(js, b) && Parse(js, beyond, n, a) == Parse(js, beyond, n, b)
  }

  function Skips(c: char): bool { c == '\t' || c == '\r' || c == '\n' || c == ':' || c == ',' || c == ' ' }

  lemma {:induction false} ReadGap(js: string, beyond: char, n: nat, st: State, s: string)
    requires Ready(js, st) && Stands(js, st.pos, s) && forall i :: 0 <= i < |s| ==> Skips(s[i])
    ensures Leads(js, beyond, n, st, st.(pos := st.pos + |s|))
    decreases |s|
  {
    if s != "" {
      StandsAt(js, st.pos, s, 0);
      assert s == [s[0]] + s[1..];
      StandsParts(js, st.pos, [s[0]], s[1..]);
      ReadGap(js, beyond, n, st.(pos := st.pos + 1), s[1..]);
    }
  }

  /** A state with a token more. */
  function Added(st: State, pos: nat, toks: seq<Token>): State
    requires Sound(st)
  {
    State(pos, Counted(st.toks, st.toksuper) + toks, st.toksuper)
  }

  lemma {:induction false} CountedOpen(toks: seq<Token>, more: seq<Token>, super: int)
    requires -1 <= super < |toks| && AllClosed(more)
    ensures var all := Counted(toks, super) + more;
      LastOpen(all, |all|) == LastOpen(toks, |toks|) == LastOpen(all, |toks|)
    decreases |more|
  {
    hide LastOpen;
    var all := Counted(toks, super) + more;
    LastOpenSame(all, toks, |toks|);
    if more != [] { LastOpenBelow(all, |toks|, |all|); }
  }

  lemma AddedReady(js: string, st: State, pos: nat, toks: seq<Token>)
    requires Ready(js, st) && pos <= |js| && AllClosed(toks)
    ensures Ready(js, Added(st, pos, toks))
  {
    hide LastOpen;
    CountedOpen(st.toks, toks, st.toksuper);
  }

  // ----------------------------------------------------------- primitives

  /** A character of a number or a literal. */
  predicate InWord(c: char) {
    32 <= c as int < 127 && !EndsPrimitive(c) && c != '{' && c != '[' && c != '"'
  }

  predicate IsWord(s: string) {
    s != "" && forall i :: 0 <= i < |s| ==> InWord(s[i])
  }

  lemma {:induction false} ScanWord(js: string, at: nat, s: string)
    requires Stands(js, at, s) && Ended(js, at + |s|) && forall i :: 0 <= i < |s| ==> InWord(s[i])
    ensures ScanPrimitive(js, at) == Ends(at + |s|)
    decreases |s|
  {
    if s != "" {
      StandsAt(js, at, s, 0);
      assert s == [s[0]] + s[1..];
      StandsParts(js, at, [s[0]], s[1..]);
      ScanWord(js, at + 1, s[1..]);
    }
  }

  lemma ReadWord(js: string, beyond: char, n: nat, st: State, s: string)
    requires Ready(js, st) && Stands(js, st.pos, s) && IsWord(s) && Ended(js, st.pos + |s|) && |st.toks| < n
    ensures Leads(js, beyond, n, st, Added(st, st.pos + |s|, [Token(Primitive, st.pos, st.pos + |s|, 0)]))
  {
    hide LastOpen, ScanPrimitive;
    StandsAt(js, st.pos, s, 0);
    assert InWord(s[0]);
    ScanWord(js, st.pos, s);
    AddedReady(js, st, st.pos + |s|, [Token(Primitive, st.pos, st.pos + |s|, 0)]);
  }

  lemma WordsAreWords(v: Value)
    requires Valid(v) && v.Word?
    ensures IsWord(Text(v))
  {
  }

  lemma DigitsInWord(s: string)
    requires Digits(s)
    ensures forall i :: 0 <= i < |s| ==> InWord(s[i])
  {
    forall i | 0 <= i < |s| ensures InWord(s[i]) { assert s[i] in s; }
  }

  lemma InWordJoin(a: string, b: string)
    requires (forall i :: 0 <= i < |a| ==> InWord(a[i])) && (forall i :: 0 <= i < |b| ==> InWord(b[i]))
    ensures forall i :: 0 <= i < |a + b| ==> InWord((a + b)[i])
  {
  }

  lemma NumbersAreWords(v: Value)
    requires Valid(v) && v.Number?
    ensures IsWord(Text(v))
  {
    hide InWord;
    var sign := if v.minus then "-" else "";
    var fraction := if v.fraction == "" then "" else "." + v.fraction;
    var exponent := match v.exponent
      case NoExponent => ""
      case Exponent(mark, sign, digits) => [mark] + sign + digits;
    assert InWord('-') && InWord('.') && InWord('+') && InWord('e') && InWord('E') by { SignsInWord(); }
    DigitsInWord(v.whole);
    DigitsInWord(v.fraction);
    InWordJoin(sign, v.whole);
    InWordJoin(sign + v.whole, fraction);
    if v.exponent.Exponent? {
      DigitsInWord(v.exponent.digits);
      InWordJoin([v.exponent.mark], v.exponent.sign);
      InWordJoin([v.exponent.mark] + v.exponent.sign, v.exponent.digits);
    }
    InWordJoin(sign + v.whole + fraction, exponent);
    assert Text(v) == sign + v.whole + fraction + exponent;
  }

  lemma SignsInWord()
    ensures InWord('-') && InWord('.') && InWord('+') && InWord('e') && InWord('E')
  {
  }

  // -------------------------------------------------------------- strings

  lemma {:induction false} ScanChars(js: string, beyond: char, at: nat, s: seq<Char>)
    requires ValidChars(s) && Stands(js, at, CharsText(s) + ['"'])
    ensures ScanString(js, beyond, at) == Ends(at + |CharsText(s)|)
    decreases |s|
  {
    if s == [] {
      StandsAt(js, at, CharsText(s) + ['"'], 0);
    } else {
      assert CharsText(s) + ['"'] == CharText(s[0]) + (CharsText(s[1..]) + ['"']);
      StandsParts(js, at, CharText(s[0]), CharsText(s[1..]) + ['"']);
      ScanChars(js, beyond, at + |CharText(s[0])|, s[1..]);
      ScanChar(js, beyond, at, s[0]);
    }
  }

  lemma ScanChar(js: string, beyond: char, at: nat, c: Char)
    requires ValidChar(c) && Stands(js, at, CharText(c))
    ensures ScanString(js, beyond, at) == ScanString(js, beyond, at + |CharText(c)|)
  {
    StandsAt(js, at, CharText(c), 0);
    if !c.Plain? { StandsAt(js, at, CharText(c), 1); }
    if c.Code? {
      assert CharText(c) == ['\\', 'u'] + c.hex;
      StandsParts(js, at, ['\\', 'u'], c.hex);
      HexScan(js, beyond, at + 2, c.hex);
    }
  }

  lemma {:induction false} HexScan(js: string, beyond: char, at: nat, hex: string)
    requires Stands(js, at, hex) && forall i :: 0 <= i < |hex| ==> Hex(hex[i])
    ensures ScanString(js, beyond, at) == ScanString(js, beyond, at + |hex|)
    decreases |hex|
  {
    if hex != "" {
      StandsAt(js, at, hex, 0);
      assert hex == [hex[0]] + hex[1..];
      StandsParts(js, at, [hex[0]], hex[1..]);
      HexScan(js, beyond, at + 1, hex[1..]);
    }
  }

  lemma ReadQuoted(js: string, beyond: char, n: nat, st: State, s: seq<Char>)
    requires Ready(js, st) && ValidChars(s) && Stands(js, st.pos, QuotedText(s)) && |st.toks| < n
    ensures Leads(js, beyond, n, st,
                  Added(st, st.pos + |QuotedText(s)|, [Token(String, st.pos + 1, st.pos + 1 + |CharsText(s)|, 0)]))
  {
    hide LastOpen, ScanString, CharsText;
    var text := CharsText(s);
    StandsAt(js, st.pos, QuotedText(s), 0);
    assert QuotedText(s) == ['"'] + (text + ['"']);
    StandsParts(js, st.pos, ['"'], text + ['"']);
    ScanChars(js, beyond, st.pos + 1, s);
    AddedReady(js, st, st.pos + |QuotedText(s)|, [Token(String, st.pos + 1, st.pos + 1 + |text|, 0)]);
  }

  // ------------------------------------------------------ arrays and objects

  /** So many children more for the super token, and these tokens. */
  function Plus(st: State, pos: nat, children: nat, toks: seq<Token>): State
    requires Sound(st)
  {
    State(pos, Sized(st.toks, st.toksuper, children) + toks, st.toksuper)
  }

  function Sized(toks: seq<Token>, super: int, children: nat): (r: seq<Token>)
    requires -1 <= super < |toks|
    ensures |r| == |toks|
  {
    if super == -1 then toks else toks[super := toks[super].(size := toks[super].size + children)]
  }

  lemma PlusPlus(st: State, p: nat, c: nat, a: seq<Token>, q: nat, d: nat, b: seq<Token>)
    requires Sound(st)
    ensures Sound(Plus(st, p, c, a)) && Plus(Plus(st, p, c, a), q, d, b) == Plus(st, q, c + d, a + b)
  {
    var once, all := Sized(st.toks, st.toksuper, c), Sized(st.toks, st.toksuper, c + d);
    assert Sized(once + a, st.toksuper, d) == all + a;
    assert all + a + b == all + (a + b);
  }

  lemma PlusNothing(st: State, pos: nat)
    requires Sound(st)
    ensures Plus(st, pos, 0, []) == st.(pos := pos)
  {
    assert Sized(st.toks, st.toksuper, 0) == st.toks;
  }

  /** One step after the other. */
  lemma LeadsOn(js: string, beyond: char, n: nat, a: State, b: State, c: State)
    requires Leads(js, beyond, n, a, b) && Leads(js, beyond, n, b, c)
    ensures Leads(js, beyond, n, a, c)
  {
  }

  lemma BlankSkips(s: string)
    requires Blank(s)
    ensures forall i :: 0 <= i < |s| ==> Skips(s[i]) && EndsPrimitive(s[i])
  {
    forall i | 0 <= i < |s| ensures Skips(s[i]) && EndsPrimitive(s[i]) { assert s[i] in s; }
  }

  lemma EndedBy(js: string, at: nat, blank: string)
    requires Blank(blank) && Stands(js, at, blank) && Ended(js, at + |blank|)
    ensures Ended(js, at)
  {
    if blank != "" {
      BlankSkips(blank);
      StandsAt(js, at, blank, 0);
    }
  }

  lemma ReadName(js: string, beyond: char, n: nat, st: State, name: Name)
    requires Ready(js, st) && ValidName(name) && name.Name? && Stands(js, st.pos, NameText(name)) && |st.toks| < n
    ensures Leads(js, beyond, n, st, Plus(st, st.pos + |NameText(name)|, 1, NameTokens(name, st.pos)))
  {
    hide CharsText, LastOpen, Ready, Parse, Counted, Sized, Stands;
    ReadySound(js, st);
    var quoted, gap := QuotedText(name.chars), name.before + [':'] + name.after;
    StandsParts(js, st.pos, quoted, gap);
    ReadQuoted(js, beyond, n, st, name.chars);
    var st' := Added(st, st.pos + |quoted|, NameTokens(name, st.pos));
    ColonSkips(name.before, name.after);
    ReadGap(js, beyond, n, st', gap);
    AddedPlus(st, st.pos + |quoted|, st.pos + |NameText(name)|, NameTokens(name, st.pos));
  }

  lemma ColonSkips(before: string, after: string)
    requires Blank(before) && Blank(after)
    ensures var gap := before + [':'] + after; forall i :: 0 <= i < |gap| ==> Skips(gap[i])
  {
    BlankSkips(before);
    BlankSkips(after);
  }

  lemma AddedPlus(st: State, p: nat, q: nat, toks: seq<Token>)
    requires Sound(st)
    ensures Added(st, p, toks).(pos := q) == Plus(st, q, 1, toks)
  {
  }

  lemma ReadySound(js: string, st: State)
    requires Ready(js, st)
    ensures Sound(st) && st.pos <= |js|
  {
  }

  lemma ReadNameOrNothing(js: string, beyond: char, n: nat, st: State, name: Name)
    requires Ready(js, st) && ValidName(name) && Stands(js, st.pos, NameText(name))
    requires |st.toks| + |NameTokens(name, st.pos)| <= n
    ensures Leads(js, beyond, n, st,
                  Plus(st, st.pos + |NameText(name)|, if name.Name? then 1 else 0, NameTokens(name, st.pos)))
    ensures |NameTokens(name, st.pos)| == if name.Name? then 1 else 0
  {
    hide CharsText, LastOpen, Parse;
    if name.Name? { ReadName(js, beyond, n, st, name); } else { PlusNothing(st, st.pos); }
  }

  lemma ReadHead(js: string, beyond: char, n: nat, st: State, item: Item, named: bool)
    requires Ready(js, st) && ValidItem(item, named) && Stands(js, st.pos, item.before + NameText(item.name))
    requires |st.toks| + ItemCount(item) <= n + 1
    ensures var at := st.pos + |item.before|;
      && |NameTokens(item.name, at)| == ItemCount(item) - 1
      && Leads(js, beyond, n, st,
               Plus(st, at + |NameText(item.name)|, ItemCount(item) - 1, NameTokens(item.name, at)))
  {
    hide LastOpen, Ready, Parse, Valid, Blank, ValidName, NameTokens, NameText;
    ReadySound(js, st);
    var at, name := st.pos + |item.before|, NameText(item.name);
    StandsParts(js, st.pos, item.before, name);
    BlankSkips(item.before);
    ReadGap(js, beyond, n, st, item.before);
    NameCount(item.name, at);
    ReadNameOrNothing(js, beyond, n, st.(pos := at), item.name);
    LeadsOn(js, beyond, n, st, st.(pos := at), Plus(st, at + |name|, ItemCount(item) - 1, NameTokens(item.name, at)));
  }

  lemma NameCount(name: Name, at: nat)
    ensures |NameTokens(name, at)| == if name.Name? then 1 else 0
  {
  }

  lemma {:induction false} ReadItem(js: string, beyond: char, n: nat, st: State, item: Item, named: bool)
    requires Ready(js, st) && ValidItem(item, named) && Stands(js, st.pos, ItemText(item))
    requires Ended(js, st.pos + |ItemText(item)|) && |st.toks| + |ItemTokens(item, st.pos)| <= n
    ensures Leads(js, beyond, n, st,
                  Plus(st, st.pos + |ItemText(item)|, ItemCount(item), ItemTokens(item, st.pos)))
    decreases item, 0
  {
    hide LastOpen, Ready, Leads, Text, TokensOf, Valid, Blank, Ended, ValidName, NameTokens, NameText, Stands, Plus,
      Added;
    ReadySound(js, st);
    var head, text := item.before + NameText(item.name), Text(item.value);
    var names := NameTokens(item.name, st.pos + |item.before|);
    var tokens := TokensOf(item.value, st.pos + |head|);
    assert ItemText(item) == head + (text + item.after);
    StandsParts(js, st.pos, head, text + item.after);
    StandsParts(js, st.pos + |head|, text, item.after);
    NameCount(item.name, st.pos + |item.before|);
    ReadHead(js, beyond, n, st, item, named);
    var here := Plus(st, st.pos + |head|, ItemCount(item) - 1, names);
    LeadsReady(js, beyond, n, st, here);
    PlusSize(st, st.pos + |head|, ItemCount(item) - 1, names);
    StandsInside(js, st.pos + |head|, text);
    StandsInside(js, st.pos + |head| + |text|, item.after);
    EndedBy(js, st.pos + |head| + |text|, item.after);
    ReadValue(js, beyond, n, here, item.value);
    PlusPlus(st, st.pos + |head|, ItemCount(item) - 1, names, st.pos + |head| + |text|, 1, tokens);
    AddedIsPlus(here, st.pos + |head| + |text|, tokens);
    var read := Plus(st, st.pos + |head| + |text|, ItemCount(item), names + tokens);
    LeadsOn(js, beyond, n, st, here, read);
    PlusSize(st, st.pos + |head| + |text|, ItemCount(item), names + tokens);
    ReadAfter(js, beyond, n, st, read, item.after);
    PlusAt(st, st.pos + |head| + |text|, read.pos + |item.after|, ItemCount(item), names + tokens);
  }

  lemma AddedIsPlus(st: State, pos: nat, toks: seq<Token>)
    requires Sound(st)
    ensures Added(st, pos, toks) == Plus(st, pos, 1, toks)
  {
  }

  lemma PlusAt(st: State, p: nat, q: nat, children: nat, toks: seq<Token>)
    requires Sound(st)
    ensures Plus(st, p, children, toks).(pos := q) == Plus(st, q, children, toks)
  {
  }

  lemma ReadAfter(js: string, beyond: char, n: nat, st: State, read: State, after: string)
    requires Leads(js, beyond, n, st, read) && Blank(after) && Stands(js, read.pos, after)
    ensures Leads(js, beyond, n, st, read.(pos := read.pos + |after|))
  {
    hide Parse, LastOpen;
    BlankSkips(after);
    ReadGap(js, beyond, n, read, after);
  }

  lemma LeadsReady(js: string, beyond: char, n: nat, a: State, b: State)
    requires Leads(js, beyond, n, a, b)
    ensures Ready(js, b) && Sound(b)
  {
  }

  lemma StandsInside(js: string, at: nat, s: string)
    requires Stands(js, at, s)
    ensures at + |s| <= |js|
  {
  }

  lemma {:induction false} ReadItems(js: string, beyond: char, n: nat, st: State, items: Items, named: bool)
    requires Ready(js, st) && ValidItems(items, named) && Stands(js, st.pos, ItemsText(items))
    requires Ended(js, st.pos + |ItemsText(items)|) && |st.toks| + |ItemsTokens(items, st.pos)| <= n
    ensures Leads(js, beyond, n, st,
                  Plus(st, st.pos + |ItemsText(items)|, Count(items), ItemsTokens(items, st.pos)))
    decreases items, 1
  {
    hide LastOpen, Ready, Leads, Valid, ItemText, ItemTokens, Blank;
    ReadySound(js, st);
    match items
    case Nothing(blank) =>
      BlankSkips(blank);
      ReadGap(js, beyond, n, st, blank);
      PlusNothing(st, st.pos + |blank|);
    case Single(item) =>
      ReadItem(js, beyond, n, st, item, named);
    case Several(_, _) =>
      ReadSeveral(js, beyond, n, st, items, named);
  }

  lemma {:induction false} ReadSeveral(js: string, beyond: char, n: nat, st: State, items: Items, named: bool)
    requires items.Several? && Ready(js, st) && ValidItems(items, named) && Stands(js, st.pos, ItemsText(items))
    requires Ended(js, st.pos + |ItemsText(items)|) && |st.toks| + |ItemsTokens(items, st.pos)| <= n
    ensures Leads(js, beyond, n, st,
                  Plus(st, st.pos + |ItemsText(items)|, Count(items), ItemsTokens(items, st.pos)))
    decreases items, 0
  {
    hide LastOpen, Ready, Leads, Valid, ItemText, ItemTokens, Blank, Stands, ItemCount, Plus;
    ReadySound(js, st);
    var item, more, text := items.item, items.more, ItemText(items.item);
    StandsParts(js, st.pos, text, [','] + ItemsText(more));
    StandsParts(js, st.pos + |text|, [','], ItemsText(more));
    StandsAt(js, st.pos + |text|, [','], 0);
    StandsInside(js, st.pos + |text|, [',']);
    ReadItem(js, beyond, n, st, item, named);
    ReadComma(js, beyond, n, st, item);
    var at, tokens := st.pos + |text| + 1, ItemTokens(item, st.pos);
    var next, end, rest := Plus(st, at, ItemCount(item), tokens), at + |ItemsText(more)|, ItemsTokens(more, at);
    PlusSize(st, at, ItemCount(item), tokens);
    LeadsReady(js, beyond, n, st, next);
    assert ItemsTokens(items, st.pos) == tokens + rest;
    ReadItems(js, beyond, n, next, more, named);
    PlusPlus(st, at, ItemCount(item), tokens, end, Count(more), rest);
    LeadsOn(js, beyond, n, st, next, Plus(next, end, Count(more), rest));
  }

  lemma PlusSize(st: State, pos: nat, children: nat, toks: seq<Token>)
    requires Sound(st)
    ensures Plus(st, pos, children, toks).pos == pos
    ensures |Plus(st, pos, children, toks).toks| == |st.toks| + |toks|
  {
  }

  lemma ReadComma(js: string, beyond: char, n: nat, st: State, item: Item)
    requires Ready(js, st) && Stands(js, st.pos + |ItemText(item)|, [','])
    requires Leads(js, beyond, n, st,
                   Plus(st, st.pos + |ItemText(item)|, ItemCount(item), ItemTokens(item, st.pos)))
    ensures Leads(js, beyond, n, st,
                  Plus(st, st.pos + |ItemText(item)| + 1, ItemCount(item), ItemTokens(item, st.pos)))
  {
    hide LastOpen, ItemText, ItemTokens, Parse;
    ReadGap(js, beyond, n, Plus(st, st.pos + |ItemText(item)|, ItemCount(item), ItemTokens(item, st.pos)), [',']);
  }

  /** The state behind an opening bracket. */
  function Opened(st: State, typ: Type): State
    requires Sound(st)
  {
    State(st.pos + 1, Counted(st.toks, st.toksuper) + [Token(typ, st.pos, -1, 0)], |st.toks|)
  }

  lemma ReadOpening(js: string, beyond: char, n: nat, st: State, typ: Type)
    requires Ready(js, st) && st.pos < |js| && |st.toks| < n
    requires (typ == Object && js[st.pos] == '{') || (typ == Array && js[st.pos] == '[')
    ensures Leads(js, beyond, n, st, Opened(st, typ))
  {
  }

  lemma ReadClosing(js: string, beyond: char, n: nat, st: State, typ: Type, now: State, count: nat,
                    tokens: seq<Token>)
    requires Ready(js, st) && now.pos < |js| && AllClosed(tokens)
    requires now == Plus(Opened(st, typ), now.pos, count, tokens)
    requires Ready(js, now)
    requires (typ == Object && js[now.pos] == '}') || (typ == Array && js[now.pos] == ']')
    ensures Leads(js, beyond, n, now,
                  Added(st, now.pos + 1, [Token(typ, st.pos, now.pos + 1, count)] + tokens))
  {
    hide LastOpen, AllClosed;
    var k, end := |st.toks|, now.pos + 1;
    var closed := [Token(typ, st.pos, end, count)] + tokens;
    assert now.toks == Counted(st.toks, st.toksuper) + [Token(typ, st.pos, -1, count)] + tokens;
    assert WithEnd(now.toks, k, end) == Counted(st.toks, st.toksuper) + closed;
    LastOpenSame(now.toks, st.toks, k);
    AllClosedMore(Token(typ, st.pos, end, count), tokens);
    AddedReady(js, st, end, closed);
    assert Step(js, beyond, n, now) == More(Added(st, end, closed));
  }

  lemma AllClosedMore(t: Token, tokens: seq<Token>)
    requires AllClosed(tokens) && !Open(t)
    ensures AllClosed([t] + tokens)
  {
  }

  lemma {:induction false} ReadContainer(js: string, beyond: char, n: nat, st: State, items: Items, typ: Type)
    requires Ready(js, st) && ValidItems(items, typ == Object) && (typ == Object || typ == Array)
    requires Stands(js, st.pos, (if typ == Object then ['{'] else ['[']) +
                    (ItemsText(items) + if typ == Object then ['}'] else [']']))
    requires |st.toks| + 1 + |ItemsTokens(items, st.pos + 1)| <= n
    ensures var end := st.pos + |ItemsText(items)| + 2;
      Leads(js, beyond, n, st,
            Added(st, end, [Token(typ, st.pos, end, Count(items))] + ItemsTokens(items, st.pos + 1)))
    decreases items, 2
  {
    hide LastOpen, Ready, Parse, ValidItems, ItemsText, ItemsTokens, Count;
    ReadySound(js, st);
    var left, right := if typ == Object then ['{'] else ['['], if typ == Object then ['}'] else [']'];
    var text, tokens := ItemsText(items), ItemsTokens(items, st.pos + 1);
    StandsParts(js, st.pos, left, text + right);
    StandsParts(js, st.pos + 1, text, right);
    StandsAt(js, st.pos, left, 0);
    StandsAt(js, st.pos + 1 + |text|, right, 0);
    ReadOpening(js, beyond, n, st, typ);
    ReadItems(js, beyond, n, Opened(st, typ), items, typ == Object);
    var now := Plus(Opened(st, typ), st.pos + 1 + |text|, Count(items), tokens);
    LeadsOn(js, beyond, n, st, Opened(st, typ), now);
    ReadClosing(js, beyond, n, st, typ, now, Count(items), tokens);
    LeadsOn(js, beyond, n, st, now,
            Added(st, now.pos + 1, [Token(typ, st.pos, now.pos + 1, Count(items))] + tokens));
  }

  /** A value that stands in the text becomes its tokens, wherever it stands and whatever the parser has
      read before. */
  lemma {:induction false} ReadValue(js: string, beyond: char, n: nat, st: State, v: Value)
    requires Ready(js, st) && Valid(v) && Stands(js, st.pos, Text(v)) && Ended(js, st.pos + |Text(v)|)
    requires |st.toks| + |TokensOf(v, st.pos)| <= n
    ensures Leads(js, beyond, n, st, Added(st, st.pos + |Text(v)|, TokensOf(v, st.pos)))
    decreases v, 0
  {
    hide LastOpen, Ready, Parse, CharsText, IsWord, ValidItems, ItemsText, ItemsTokens, Count;
    ReadySound(js, st);
    match v
    case Word(_) =>
      WordsAreWords(v);
      ReadWord(js, beyond, n, st, Text(v));
    case Number(_, _, _, _) =>
      NumbersAreWords(v);
      ReadWord(js, beyond, n, st, Text(v));
    case Quoted(chars) => ReadQuoted(js, beyond, n, st, chars);
    case Bracketed(items) => ReadContainer(js, beyond, n, st, items, Array);
    case Braced(items) => ReadContainer(js, beyond, n, st, items, Object);
  }

  // ---------------------------------------------------------------- texts

  lemma NothingRead(toks: seq<Token>)
    ensures Added(Init(), 0, toks).toks == toks && LastOpen([], 0) == -1
  {
  }

  /** Every JSON text, whitespace around its value included, is read to the end with exactly the tokens of its
      value, if there is room for them, and else runs out of room; whatever the byte behind it is. */
  lemma EveryTextRead(before: string, v: Value, after: string, beyond: char, n: nat)
    requires Blank(before) && Valid(v) && Blank(after)
    ensures var js, tokens := before + (Text(v) + after), TokensOf(v, |before|);
      if |tokens| <= n then Parse(js, beyond, n, Init()) == (Success, State(|js|, tokens, -1))
      else Parse(js, beyond, n, Init()).0 == NoMem
  {
    hide LastOpen, Text, TokensOf, Valid, Blank, Step;
    var js, tokens := before + (Text(v) + after), TokensOf(v, |before|);
    if |tokens| <= n {
      RoomForText(before, v, after, beyond, n);
    } else {
      RoomForText(before, v, after, beyond, |tokens|);
      MoreRoom(js, beyond, n, |tokens|, Init());
      WithinRoom(js, beyond, n, Init());
    }
  }

  lemma RoomForText(before: string, v: Value, after: string, beyond: char, n: nat)
    requires Blank(before) && Valid(v) && Blank(after) && |TokensOf(v, |before|)| <= n
    ensures var js, tokens := before + (Text(v) + after), TokensOf(v, |before|);
      Parse(js, beyond, n, Init()) == (Success, State(|js|, tokens, -1))
  {
    hide Text, TokensOf, Valid, Blank, Step, LastOpen;
    var text, tokens := Text(v), TokensOf(v, |before|);
    var js, start := before + (text + after), Init().(pos := |before|);
    NothingRead(tokens);
    assert Stands(js, 0, js);
    StandsParts(js, 0, before, text + after);
    StandsParts(js, |before|, text, after);
    BlankSkips(before);
    BlankSkips(after);
    ReadGap(js, beyond, n, Init(), before);
    EndedBy(js, |before| + |text|, after);
    ReadValue(js, beyond, n, start, v);
    var read := Added(start, |before| + |text|, tokens);
    LeadsOn(js, beyond, n, Init(), start, read);
    ReadGap(js, beyond, n, read, after);
    LeadsOn(js, beyond, n, Init(), read, read.(pos := |js|));
  }

  /** The parser never has more tokens than there is room for. */
  lemma {:induction false} WithinRoom(js: string, beyond: char, n: nat, st: State)
    requires st.pos <= |js| && Sound(st) && |st.toks| <= n
    ensures |Parse(js, beyond, n, st).1.toks| <= n
    decreases |js| - st.pos
  {
    hide LastOpen, ScanString, ScanPrimitive;
    if st.pos < |js| {
      StepAdvances(js, beyond, n, st);
      match Step(js, beyond, n, st)
      case More(st') => WithinRoom(js, beyond, n, st');
      case Stop(_, _) =>
    }
  }
}
