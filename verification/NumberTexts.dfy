/** Which texts Numeric::castString accepts, what it reads them as, and how it ends for all others. */
module NumberTexts {
  import opened Digits
  import opened Decimal

  /** A sign or none, digits, and perhaps a point with digits behind it. */
  datatype Number = Number(sign: string, whole: string, point: bool, fraction: string)

  predicate Sign(s: string) { s == "" || s == "-" || s == "+" }

  ghost predicate Parts(n: Number) {
    Sign(n.sign) && AllDigits(n.whole) && AllDigits(n.fraction) && (!n.point ==> n.fraction == "")
  }

  function Tail(n: Number): string { if n.point then "." + n.fraction else "" }

  function Text(n: Number): string { n.sign + n.whole + Tail(n) }

  /** Digits without the zeros at their end. */
  function Significant(f: string): (g: string)
    ensures |g| <= |f| && g == f[..|g|]
  {
    if f != "" && f[|f| - 1] == '0' then Significant(f[..|f| - 1]) else f
  }

  // ------------------------------------------------------------- values

  lemma ValueLast(s: string, c: char)
    requires AllDigits(s) && IsDigit(c)
    ensures AllDigits(s + [c]) && ValueOf(s + [c]) == 10 * ValueOf(s) + DigitValue(c)
  {
    assert (s + [c])[..|s|] == s;
  }

  lemma {:induction false} ValueConcat(a: string, b: string)
    requires AllDigits(a) && AllDigits(b)
    ensures AllDigits(a + b) && ValueOf(a + b) == ValueOf(a) * Pow10(|b|) + ValueOf(b)
  {
    hide ValueOf, Pow10, DigitValue;
    if b == "" {
      assert a + b == a;
      PowZero();
      EmptyValue();
    } else {
      var c := b[..|b| - 1];
      assert b == c + [b[|b| - 1]] && a + b == a + c + [b[|b| - 1]];
      ValueConcat(a, c);
      ValueLast(c, b[|b| - 1]);
      ValueLast(a + c, b[|b| - 1]);
      PowStep(|b|);
      TenTimes(ValueOf(a), Pow10(|c|));
    }
  }

  lemma ValueOne(c: char)
    requires IsDigit(c)
    ensures AllDigits([c]) && ValueOf([c]) == DigitValue(c)
  {
    assert [c][..0] == "";
  }

  /** Zeros at the end of a fraction say nothing. */
  lemma {:induction false} SignificantValue(f: string)
    requires AllDigits(f)
    ensures var g := Significant(f); AllDigits(g) && ValueOf(f) == ValueOf(g) * Pow10(|f| - |g|)
  {
    if f != "" && f[|f| - 1] == '0' {
      SignificantValue(f[..|f| - 1]);
      PowStep(|f| - |Significant(f)|);
      TenTimes(ValueOf(Significant(f)), Pow10(|f| - 1 - |Significant(f)|));
    } else {
      PowZero();
    }
  }

  lemma {:induction false} StripIs(t: string, dot: nat, limit: nat)
    requires dot < limit <= |t| && t[dot] != '0'
    ensures Strip(t, dot, limit) == dot + 1 + |Significant(t[dot + 1..limit])|
  {
    var f := t[dot + 1..limit];
    if f != "" {
      assert f[|f| - 1] == t[limit - 1] && f[..|f| - 1] == t[dot + 1..limit - 1];
      if t[limit - 1] == '0' { StripIs(t, dot, limit - 1); }
    }
  }

  lemma {:induction false} StripAbove(t: string, dot: nat, limit: nat, j: nat)
    requires dot <= j < limit <= |t| && t[dot] != '0' && t[j] != '0'
    ensures Strip(t, dot, limit) > j
  {
    if t[limit - 1] == '0' { StripAbove(t, dot, limit - 1, j); }
  }

  // ------------------------------------------------------ reading digits

  /** Reading digits, whether they overflow or not. */
  lemma {:induction false} DigitsRead(t: string, iter: nat, limit: nat, st: State, d: string)
    requires iter + |d| <= limit <= |t| && t[iter..iter + |d|] == d && AllDigits(d) && st.result <= INT64_MAX
    ensures ParseFrom(t, iter, limit, st) ==
            if Read(st, d).result > INT64_MAX then Undefined else ParseFrom(t, iter + |d|, limit, Read(st, d))
    decreases |d|
  {
    hide ParseFrom, Read;
    if d == "" {
      ReadNothing(st);
    } else {
      var c, e := d[0], d[1..];
      assert t[iter] == d[0] && t[iter + 1..iter + 1 + |e|] == e;
      ReadFirst(st, c, e);
      assert [c] + e == d;
      if st.result * 10 + DigitValue(c) > INT64_MAX {
        DigitOverflows(t, iter, limit, st);
        ReadGrows(Next(st, c), e);
      } else {
        ParseOne(t, iter, limit, st);
        DigitsRead(t, iter + 1, limit, Next(st, c), e);
      }
    }
  }

  function Next(st: State, c: char): State
    requires IsDigit(c)
  {
    State(st.result * 10 + DigitValue(c), st.fraction,
          if st.fraction then st.digitsSeen else st.digitsSeen + 1,
          if st.fraction then st.digitsSeenFraction + 1 else st.digitsSeenFraction)
  }

  lemma DigitOverflows(t: string, iter: nat, limit: nat, st: State)
    requires iter < limit <= |t| && IsDigit(t[iter]) && st.result * 10 + DigitValue(t[iter]) > INT64_MAX
    ensures ParseFrom(t, iter, limit, st) == Undefined
  {
  }

  lemma ReadFirst(st: State, c: char, e: string)
    requires IsDigit(c) && AllDigits(e)
    ensures AllDigits([c] + e) && Read(Next(st, c), e) == Read(st, [c] + e)
  {
    ValueOne(c);
    ValueConcat([c], e);
    PowStep(|e| + 1);
    TenTimes(st.result, Pow10(|e|));
    Shift(st.result, DigitValue(c), Pow10(|e|));
  }

  lemma Shift(r: nat, c: nat, p: nat)
    ensures (r * 10 + c) * p == 10 * (r * p) + c * p
  {
    assert (r * 10) * p == 10 * (r * p);
  }

  lemma ReadGrows(st: State, e: string)
    requires AllDigits(e)
    ensures Read(st, e).result >= st.result
  {
    AtLeast(st.result, Pow10(|e|));
  }

  lemma ReadWholePart(whole: string)
    requires AllDigits(whole)
    ensures Read(State(0, false, 0, 0), whole) == State(ValueOf(whole), false, |whole|, 0)
  {
  }

  lemma ReadFractionPart(whole: string, g: string)
    requires AllDigits(whole) && AllDigits(g)
    ensures AllDigits(whole + g)
    ensures Read(State(ValueOf(whole), true, |whole|, 0), g) == State(ValueOf(whole + g), true, |whole|, |g|)
  {
    ValueConcat(whole, g);
  }

  lemma LongerIsMore(whole: string, g: string)
    requires AllDigits(whole) && AllDigits(g)
    ensures AllDigits(whole + g) && ValueOf(whole + g) >= ValueOf(whole)
  {
    ValueConcat(whole, g);
    AtLeast(ValueOf(whole), Pow10(|g|));
  }

  // -------------------------------------------------------- accepted texts

  lemma AtPoint(t: string, dot: nat, st: State)
    requires dot < |t| && t[dot] == '.' && !st.fraction
    ensures ParseFrom(t, dot, |t|, st) == ParseFrom(t, dot + 1, Strip(t, dot, |t|), st.(fraction := true))
  {
  }

  lemma AtEnd(t: string, limit: nat, st: State)
    requires limit <= |t|
    ensures ParseFrom(t, limit, limit, st) == Ok(st)
  {
  }

  /** The digits of a number, read to the end. */
  lemma ReadNumber(t: string, start: nat, n: Number)
    requires Parts(n) && start <= |t| && t[start..] == n.whole + Tail(n)
    ensures var g := Significant(n.fraction);
      && AllDigits(n.whole + g)
      && ParseFrom(t, start, |t|, State(0, false, 0, 0)) ==
         if ValueOf(n.whole + g) > INT64_MAX then Undefined
         else Ok(State(ValueOf(n.whole + g), n.point, |n.whole|, |g|))
  {
    hide ParseFrom, Read, ValueOf, Strip, Significant, Pow10;
    var g, dot := Significant(n.fraction), start + |n.whole|;
    CutAt(t, start, n.whole, Tail(n));
    LongerIsMore(n.whole, g);
    DigitsRead(t, start, |t|, State(0, false, 0, 0), n.whole);
    ReadWholePart(n.whole);
    if ValueOf(n.whole) <= INT64_MAX {
      if n.point {
        ReadFraction(t, dot, n.whole, n.fraction);
      } else {
        NothingSignificant();
        assert n.whole + g == n.whole;
        AtEnd(t, |t|, State(ValueOf(n.whole), false, |n.whole|, 0));
      }
    }
  }

  lemma ReadFraction(t: string, dot: nat, whole: string, fraction: string)
    requires AllDigits(whole) && AllDigits(fraction) && ValueOf(whole) <= INT64_MAX
    requires dot <= |t| && t[dot..] == "." + fraction
    ensures var g := Significant(fraction);
      && AllDigits(whole + g)
      && ParseFrom(t, dot, |t|, State(ValueOf(whole), false, |whole|, 0)) ==
         if ValueOf(whole + g) > INT64_MAX then Undefined else Ok(State(ValueOf(whole + g), true, |whole|, |g|))
  {
    hide ParseFrom, Read, ValueOf, Strip, Significant, Pow10;
    var g := Significant(fraction);
    var end := dot + 1 + |g|;
    PointAhead(t, dot, fraction);
    AtPoint(t, dot, State(ValueOf(whole), false, |whole|, 0));
    StripIs(t, dot, |t|);
    assert t[dot + 1..|t|] == fraction;
    assert t[dot + 1..end] == fraction[..|g|];
    DigitsRead(t, dot + 1, end, State(ValueOf(whole), true, |whole|, 0), g);
    ReadFractionPart(whole, g);
    AtEnd(t, end, State(ValueOf(whole + g), true, |whole|, |g|));
  }

  lemma NothingSignificant()
    ensures Significant("") == ""
  {
  }

  lemma CutAt(t: string, start: nat, a: string, b: string)
    requires start <= |t| && t[start..] == a + b
    ensures start + |a| <= |t| && t[start..start + |a|] == a && t[start + |a|..] == b
  {
    assert t[start..start + |a|] == t[start..][..|a|];
    assert t[start + |a|..] == t[start..][|a|..];
  }

  lemma PointAhead(t: string, dot: nat, fraction: string)
    requires dot <= |t| && t[dot..] == "." + fraction
    ensures dot < |t| && t[dot] == '.' && t[dot + 1..] == fraction
  {
    assert t[dot..][0] == '.' && t[dot..][1..] == fraction;
  }

  /** What a text with blanks around a number is read as: the number, scaled to the precision; it is rejected if it
      has too many digits, and has no meaning if the digits read or the scaled value exceed 63 bits. */
  function Outcome(n: Number, precision: nat): Outcome<int>
    requires AllDigits(n.whole + Significant(n.fraction))
  {
    var g := Significant(n.fraction);
    var v := ValueOf(n.whole + g);
    if v > INT64_MAX then Undefined
    else if |n.whole| > 18 || |g| > precision then InvalidFormat
    else if v * Pow10(precision - |g|) > INT64_MAX then Undefined
    else Ok(if n.sign == "-" then -(v * Pow10(precision - |g|)) else v * Pow10(precision - |g|))
  }

  lemma NumberIsBare(n: Number)
    requires Parts(n) && (n.point || n.whole != "")
    ensures var t := Text(n);
      && Bare(t) && t != "" && t[|n.sign|..] == n.whole + Tail(n) && |t| > |n.sign|
      && (Signed(t) <==> n.sign != "") && (t[0] == '-' <==> n.sign == "-")
  {
    hide Tail;
    var t := Text(n);
    var rest := n.whole + Tail(n);
    EndsOf(n);
    assert t == n.sign + rest;
    assert t[|n.sign|] == rest[0] && t[|t| - 1] == rest[|rest| - 1];
    assert t[|n.sign|..] == rest;
  }

  lemma EndsOf(n: Number)
    requires Parts(n) && (n.point || n.whole != "")
    ensures var rest := n.whole + Tail(n);
      && rest != "" && (IsDigit(rest[0]) || rest[0] == '.') && (IsDigit(rest[|rest| - 1]) || rest[|rest| - 1] == '.')
  {
    var rest := n.whole + Tail(n);
    if n.whole != "" { assert rest[0] == n.whole[0]; } else { assert rest[0] == '.'; }
    if n.fraction != "" {
      assert rest[|rest| - 1] == n.fraction[|n.fraction| - 1];
    } else if n.point {
      assert rest[|rest| - 1] == '.';
    } else {
      assert rest[|rest| - 1] == n.whole[|n.whole| - 1];
    }
  }

  lemma Accepts(left: string, n: Number, right: string, precision: nat)
    requires Blanks(left) && Blanks(right) && Parts(n) && (n.point || n.whole != "")
    ensures AllDigits(n.whole + Significant(n.fraction))
    ensures ParseNumeric(left + Text(n) + right, precision) == Outcome(n, precision)
  {
    hide ParseFrom, ValueOf, Pow10, TrimLeft, TrimRight, Text, Significant, Blanks;
    NumberIsBare(n);
    Trims(left, Text(n), right);
    ReadNumber(Text(n), |n.sign|, n);
  }

  /** Read as people do: with no more than 18 digits before the point and no more behind it than the
      precision has, a text is read as the sum of its digits' values, if that fits. */
  lemma ReadsDecimal(left: string, n: Number, right: string, precision: nat)
    requires Blanks(left) && Blanks(right) && Parts(n) && (n.point || n.whole != "")
    requires |n.whole| <= 18 && |n.fraction| <= precision
    requires ValueOf(n.whole) * Pow10(precision) + ValueOf(n.fraction) * Pow10(precision - |n.fraction|) <= INT64_MAX
    ensures var v := ValueOf(n.whole) * Pow10(precision) + ValueOf(n.fraction) * Pow10(precision - |n.fraction|);
      ParseNumeric(left + Text(n) + right, precision) == Ok(if n.sign == "-" then -(v as int) else v)
  {
    hide ParseNumeric, Pow10, ValueOf, Significant, Text, Blanks;
    Accepts(left, n, right, precision);
    DigitsScaled(n.whole, n.fraction, precision);
  }

  lemma DigitsScaled(whole: string, fraction: string, precision: nat)
    requires AllDigits(whole) && AllDigits(fraction) && |fraction| <= precision
    ensures var g := Significant(fraction);
      && AllDigits(whole + g)
      && ValueOf(whole + g) * Pow10(precision - |g|) ==
         ValueOf(whole) * Pow10(precision) + ValueOf(fraction) * Pow10(precision - |fraction|)
      && ValueOf(whole + g) <= ValueOf(whole + g) * Pow10(precision - |g|)
  {
    hide Pow10, ValueOf, Significant;
    var g := Significant(fraction);
    SignificantValue(fraction);
    ValueConcat(whole, g);
    Scaled(ValueOf(fraction), ValueOf(g), |fraction| - |g|, precision - |fraction|);
    Compose(ValueOf(whole), ValueOf(g) * Pow10(precision - |g|), ValueOf(g), precision, |g|);
    AtLeast(ValueOf(whole + g), Pow10(precision - |g|));
  }

  lemma Scaled(f: nat, g: nat, a: nat, b: nat)
    requires f == g * Pow10(a)
    ensures f * Pow10(b) == g * Pow10(a + b)
  {
    hide Pow10;
    Pow10Add(a, b);
    assert g * Pow10(a) * Pow10(b) == g * (Pow10(a) * Pow10(b));
  }

  // -------------------------------------------------------- all other texts

  /** A number, and then a character that cannot go on with it. */
  ghost predicate Breaks(n: Number, c: char) {
    && Parts(n) && !IsDigit(c) && (c == '.' ==> n.point)
    && (n.whole == "" && !n.point && n.sign == "" ==> c != '-' && c != '+')
  }

  lemma Broken(t: string, iter: nat, limit: nat, st: State)
    requires iter < limit <= |t| && !IsDigit(t[iter]) && (t[iter] == '.' ==> st.fraction)
    ensures ParseFrom(t, iter, limit, st) == InvalidFormat
  {
  }

  /** The reading ends at that character, unless the digits before it have overflowed. */
  lemma ReadBroken(t: string, start: nat, n: Number, c: char, rest: string)
    requires Breaks(n, c) && start <= |t| && t[start..] == n.whole + Tail(n) + [c] + rest
    ensures AllDigits(n.whole + n.fraction)
    ensures ParseFrom(t, start, |t|, State(0, false, 0, 0)) ==
            if ValueOf(n.whole + n.fraction) > INT64_MAX then Undefined else InvalidFormat
  {
    hide ParseFrom, Read, ValueOf, Strip, Pow10;
    var dot := start + |n.whole|;
    assert n.whole + Tail(n) + [c] + rest == n.whole + (Tail(n) + [c] + rest);
    CutAt(t, start, n.whole, Tail(n) + [c] + rest);
    LongerIsMore(n.whole, n.fraction);
    DigitsRead(t, start, |t|, State(0, false, 0, 0), n.whole);
    ReadWholePart(n.whole);
    if ValueOf(n.whole) <= INT64_MAX { ReadBrokenTail(t, dot, n, c, rest); }
  }

  lemma ReadBrokenTail(t: string, dot: nat, n: Number, c: char, rest: string)
    requires Breaks(n, c) && ValueOf(n.whole) <= INT64_MAX && dot <= |t| && t[dot..] == Tail(n) + [c] + rest
    ensures AllDigits(n.whole + n.fraction)
    ensures ParseFrom(t, dot, |t|, State(ValueOf(n.whole), false, |n.whole|, 0)) ==
            if ValueOf(n.whole + n.fraction) > INT64_MAX then Undefined else InvalidFormat
  {
    hide ParseFrom, ValueOf, Pow10;
    if n.point {
      assert "." + n.fraction + [c] + rest == "." + (n.fraction + [c] + rest);
      ReadBrokenFraction(t, dot, n.whole, n.fraction, c, rest);
    } else {
      assert n.whole + n.fraction == n.whole;
      BreaksHere(t, dot, c, rest);
      Broken(t, dot, |t|, State(ValueOf(n.whole), false, |n.whole|, 0));
    }
  }

  lemma BreaksHere(t: string, dot: nat, c: char, rest: string)
    requires dot <= |t| && t[dot..] == "" + [c] + rest
    ensures dot < |t| && t[dot] == c
  {
    assert t[dot..][0] == c;
  }

  lemma ReadBrokenFraction(t: string, dot: nat, whole: string, fraction: string, c: char, rest: string)
    requires AllDigits(whole) && AllDigits(fraction) && ValueOf(whole) <= INT64_MAX && !IsDigit(c)
    requires dot <= |t| && t[dot..] == "." + (fraction + [c] + rest)
    ensures AllDigits(whole + fraction)
    ensures ParseFrom(t, dot, |t|, State(ValueOf(whole), false, |whole|, 0)) ==
            if ValueOf(whole + fraction) > INT64_MAX then Undefined else InvalidFormat
  {
    hide ParseFrom, Read, ValueOf, Strip, Pow10;
    var at := dot + 1 + |fraction|;
    PointAhead(t, dot, fraction + [c] + rest);
    assert t[dot + 1..at] == t[dot + 1..][..|fraction|] == fraction;
    assert t[at] == t[dot + 1..][|fraction|] == c;
    AtPoint(t, dot, State(ValueOf(whole), false, |whole|, 0));
    StripAbove(t, dot, |t|, at);
    var limit := Strip(t, dot, |t|);
    DigitsRead(t, dot + 1, limit, State(ValueOf(whole), true, |whole|, 0), fraction);
    ReadFractionPart(whole, fraction);
    if ValueOf(whole + fraction) <= INT64_MAX {
      Broken(t, at, limit, State(ValueOf(whole + fraction), true, |whole|, |fraction|));
    }
  }

  lemma Rejects(left: string, n: Number, c: char, rest: string, right: string, precision: nat)
    requires Blanks(left) && Blanks(right) && Breaks(n, c) && Bare(Text(n) + [c] + rest)
    ensures AllDigits(n.whole + n.fraction)
    ensures ParseNumeric(left + (Text(n) + [c] + rest) + right, precision) ==
            if ValueOf(n.whole + n.fraction) > INT64_MAX then Undefined else InvalidFormat
  {
    hide ParseFrom, ValueOf, TrimLeft, TrimRight, Blanks;
    var t := Text(n) + [c] + rest;
    Trims(left, t, right);
    assert t == n.sign + (n.whole + Tail(n) + [c] + rest);
    assert t[|n.sign|..] == n.whole + Tail(n) + [c] + rest;
    SignOf(t, n, c, rest);
    ReadBroken(t, |n.sign|, n, c, rest);
  }

  lemma SignOf(t: string, n: Number, c: char, rest: string)
    requires Breaks(n, c) && t == n.sign + (n.whole + Tail(n) + [c] + rest)
    ensures t != "" && (Signed(t) <==> n.sign != "") && |t| > |n.sign|
  {
    var after := n.whole + Tail(n) + [c] + rest;
    assert t[|n.sign|] == after[0];
    assert n.sign == "" ==> t[0] == after[0];
  }

  /** A sign alone, or nothing. */
  lemma NothingToRead(left: string, sign: string, right: string, precision: nat)
    requires Blanks(left) && Blanks(right) && Sign(sign)
    ensures ParseNumeric(left + sign + right, precision) == InvalidFormat
  {
    hide TrimLeft, TrimRight, ParseFrom, Blanks;
    Trims(left, sign, right);
  }

  // --------------------------------------------------------- every text

  datatype Form =
    | Nothing(sign: string)
    | Complete(n: Number)
    | Incomplete(n: Number, c: char, rest: string)

  function FormText(f: Form): string {
    match f
    case Nothing(sign) => sign
    case Complete(n) => Text(n)
    case Incomplete(n, c, rest) => Text(n) + [c] + rest
  }

  ghost predicate FormOk(f: Form) {
    match f
    case Nothing(sign) => Sign(sign)
    case Complete(n) => Parts(n) && (n.point || n.whole != "")
    case Incomplete(n, c, rest) => Breaks(n, c) && Bare(FormText(f))
  }

  lemma {:induction false} SplitDigits(s: string) returns (d: string, rest: string)
    ensures s == d + rest && AllDigits(d) && (rest == "" || !IsDigit(rest[0]))
    decreases |s|
  {
    if s != "" && IsDigit(s[0]) {
      d, rest := SplitDigits(s[1..]);
      d := [s[0]] + d;
      assert s == [s[0]] + s[1..];
    } else {
      d, rest := "", s;
    }
  }

  lemma SplitSign(t: string) returns (sign: string, rest: string)
    ensures t == sign + rest && Sign(sign) && (sign == "" && rest != "" ==> rest[0] != '-' && rest[0] != '+')
  {
    if t != "" && (t[0] == '-' || t[0] == '+') {
      sign, rest := t[..1], t[1..];
    } else {
      sign, rest := "", t;
    }
  }

  lemma SplitNumber(sign: string, rest: string) returns (f: Form)
    requires Sign(sign) && (sign == "" && rest != "" ==> rest[0] != '-' && rest[0] != '+') && Bare(sign + rest)
    ensures FormText(f) == sign + rest && FormOk(f)
  {
    hide Bare;
    if rest == "" {
      assert sign + rest == sign;
      return Nothing(sign);
    }
    var whole, after := SplitDigits(rest);
    if after == "" {
      f := Complete(Number(sign, whole, false, ""));
      assert sign + whole + "" == sign + rest;
    } else if after[0] == '.' {
      assert sign + whole + "." + after[1..] == sign + (whole + after);
      f := SplitTail(sign, whole, after[1..]);
    } else {
      f := Incomplete(Number(sign, whole, false, ""), after[0], after[1..]);
      assert whole == "" ==> after == rest;
      assert sign + whole + "" + [after[0]] + after[1..] == sign + (whole + after);
    }
  }

  lemma SplitTail(sign: string, whole: string, behind: string) returns (f: Form)
    requires Sign(sign) && AllDigits(whole) && Bare(sign + whole + "." + behind)
    ensures FormText(f) == sign + whole + "." + behind && FormOk(f)
  {
    hide Bare;
    var fraction, more := SplitDigits(behind);
    var n := Number(sign, whole, true, fraction);
    if more == "" {
      f := Complete(n);
      assert sign + whole + ("." + fraction) == sign + whole + "." + behind;
    } else {
      f := Incomplete(n, more[0], more[1..]);
      assert sign + whole + ("." + fraction) + [more[0]] + more[1..] == sign + whole + "." + (fraction + more);
    }
  }

  /** What castString makes of any text at all: with the blanks around it taken away it is a number, or nothing but
      a sign, or breaks off somewhere; and that decides. */
  lemma EveryText(s: string, precision: nat) returns (left: string, f: Form, right: string)
    ensures s == left + FormText(f) + right && Blanks(left) && Blanks(right) && FormOk(f)
    ensures match f
      case Nothing(_) => ParseNumeric(s, precision) == InvalidFormat
      case Complete(n) =>
        AllDigits(n.whole + Significant(n.fraction)) && ParseNumeric(s, precision) == Outcome(n, precision)
      case Incomplete(n, _, _) =>
        AllDigits(n.whole + n.fraction) &&
        ParseNumeric(s, precision) == if ValueOf(n.whole + n.fraction) > INT64_MAX then Undefined else InvalidFormat
  {
    hide ParseNumeric, ValueOf, Significant, Text, Parts, Outcome;
    var behind, t, sign, rest;
    left, behind := SplitBlanks(s);
    t, right := SplitBlanksBehind(behind);
    assert s == left + t + right;
    sign, rest := SplitSign(t);
    f := SplitNumber(sign, rest);
    match f
    case Nothing(sign) => NothingToRead(left, sign, right, precision);
    case Complete(n) => Accepts(left, n, right, precision);
    case Incomplete(n, c, more) => Rejects(left, n, c, more, right, precision);
  }

  // -------------------------------------------------------- printed texts

  /** No zero in front but that of zero itself. */
  predicate Plain(w: string) { AllDigits(w) && w != "" && (|w| > 1 ==> w[0] != '0') }

  lemma {:induction false} PaddedPlain(n: nat)
    ensures n > 0 ==> Plain(Padded(n, 0)) && Padded(n, 0)[0] != '0'
    ensures Plain(Padded(n, 1)) && ValueOf(Padded(n, 1)) == n
  {
    PaddedValue(n, 1);
    if n == 0 {
      assert Padded(0, 1) == "" + [DigitChar(0)];
    } else {
      Unpadded(n);
      if n >= 10 {
        PaddedPlain(n / 10);
        PaddedStep(n, 0);
        assert Padded(n, 0)[0] == Padded(n / 10, 0)[0];
      } else {
        assert Padded(n, 0) == "" + [DigitChar(n)];
        assert DigitValue(DigitChar(n)) > 0;
      }
    }
  }

  ghost predicate PrintedAs(n: Number, raw: int, precision: nat) {
    && Parts(n) && n.sign == (if raw < 0 then "-" else "") && Plain(n.whole)
    && n.point == (precision > 0) && |n.fraction| == precision
    && ValueOf(n.whole) == Abs(raw) / Pow10(precision) && ValueOf(n.fraction) == Abs(raw) % Pow10(precision)
  }

  /** What is printed: a minus for negative values, the whole part without zeros in front, and, unless the precision
      is 0, a point and as many digits as the precision says. */
  lemma PrintedForm(raw: int, precision: nat)
    requires -INT64_MAX - 1 <= raw <= INT64_MAX && precision <= 18 && PrintNumeric(raw, precision).Ok?
    ensures exists n :: PrintNumeric(raw, precision).value == Text(n) && PrintedAs(n, raw, precision)
  {
    hide Pow10, Padded, ValueOf, Plain, Text;
    var v, sep := Abs(raw), Pow10(precision);
    var w, f := Whole(v, sep), Rest(v, sep);
    PaddedPlain(w);
    PaddedValue(w, 1);
    var n;
    if precision == 0 {
      PowZero();
      n := Number(if raw < 0 then "-" else "", Padded(v, 1), false, "");
      WholeText(n);
      EmptyValue();
    } else {
      PaddedValue(f, precision);
      PaddedLength(f, precision, precision);
      n := Number(if raw < 0 then "-" else "", Padded(w, 1), true, Padded(f, precision));
      PointText(n);
    }
    assert PrintNumeric(raw, precision).value == Text(n) && PrintedAs(n, raw, precision);
  }

  lemma WholeText(n: Number)
    requires !n.point
    ensures Text(n) == n.sign + n.whole
  {
    assert n.sign + n.whole + "" == n.sign + n.whole;
  }

  lemma PointText(n: Number)
    requires n.point
    ensures Text(n) == n.sign + n.whole + "." + n.fraction
  {
    assert n.sign + n.whole + ("." + n.fraction) == n.sign + n.whole + "." + n.fraction;
  }

  lemma EmptyValue()
    ensures ValueOf("") == 0
  {
  }
}
