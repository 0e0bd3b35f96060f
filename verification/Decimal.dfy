/** Fixed-point decimals: Numeric::castString and the output operator. */
module Decimal {
  import opened Digits

  const INT64_MAX: int := 0x7FFF_FFFF_FFFF_FFFF

  /** A raw value, an error thrown, or arithmetic that overflows a signed 64-bit integer, which
      leaves the program without a meaning. */
  datatype Outcome<T> = Ok(value: T) | InvalidFormat | Undefined

  // --------------------------------------------------------------- parsing

  datatype State = State(result: nat, fraction: bool, digitsSeen: nat, digitsSeenFraction: nat)

  /** Skips the zeros at the end, at most down to `iter`. */
  function Strip(t: string, iter: nat, limit: nat): (l: nat)
    requires iter < limit <= |t| && t[iter] != '0'
    ensures iter < l <= limit
  {
    if t[limit - 1] == '0' then Strip(t, iter, limit - 1) else limit
  }

  /** The loop over the characters. */
  function ParseFrom(t: string, iter: nat, limit: nat, st: State): Outcome<State>
    requires iter <= limit <= |t|
    decreases limit - iter
  {
    if iter == limit then Ok(st)
    else
      var c := t[iter];
      if IsDigit(c) then
        var result := st.result * 10 + DigitValue(c);
        if result > INT64_MAX then Undefined
        else if st.fraction then
          ParseFrom(t, iter + 1, limit, st.(result := result, digitsSeenFraction := st.digitsSeenFraction + 1))
        else ParseFrom(t, iter + 1, limit, st.(result := result, digitsSeen := st.digitsSeen + 1))
      else if c == '.' then
        if st.fraction then InvalidFormat
        else ParseFrom(t, iter + 1, Strip(t, iter, limit), st.(fraction := true))
      else InvalidFormat
  }

  function Finish(st: State, neg: bool, precision: nat): Outcome<int> {
    if st.digitsSeen > 18 || st.digitsSeenFraction > precision then InvalidFormat
    else
      var result := st.result * Pow10(precision - st.digitsSeenFraction);
      if result > INT64_MAX then Undefined else Ok(if neg then -(result as int) else result)
  }

  function Signed(t: string): bool { t != "" && (t[0] == '-' || t[0] == '+') }

  /** What castString makes of a string. */
  function ParseNumeric(s: string, precision: nat): Outcome<int> {
    var t := TrimRight(TrimLeft(s));
    var start := if Signed(t) then 1 else 0;
    if start == |t| then InvalidFormat
    else
      match ParseFrom(t, start, |t|, State(0, false, 0, 0))
      case Ok(st) => Finish(st, t != "" && t[0] == '-', precision)
      case InvalidFormat => InvalidFormat
      case Undefined => Undefined
  }

  /** Numeric::castString. */
  method CastString(s: string, precision: nat) returns (r: Outcome<int>)
    ensures r == ParseNumeric(s, precision)
  {
    hide Pow10;
    var t := Trim(s);
    var iter: nat, limit: nat := 0, |t|;
    var neg := false;
    if iter != limit {
      if t[iter] == '-' {
        neg := true;
        iter := iter + 1;
      } else if t[iter] == '+' {
        iter := iter + 1;
      }
    }
    if iter == limit { return InvalidFormat; }
    ghost var goal := ParseFrom(t, iter, limit, State(0, false, 0, 0));
    var result: nat, fraction, digitsSeen: nat, digitsSeenFraction: nat := 0, false, 0, 0;
    while iter != limit
      invariant iter <= limit <= |t|
      invariant goal == ParseFrom(t, iter, limit, State(result, fraction, digitsSeen, digitsSeenFraction))
      decreases limit - iter
    {
      var c := t[iter];
      if IsDigit(c) {
        result := result * 10 + DigitValue(c);
        if result > INT64_MAX { return Undefined; }
        if fraction {
          digitsSeenFraction := digitsSeenFraction + 1;
        } else {
          digitsSeen := digitsSeen + 1;
        }
      } else if c == '.' {
        if fraction { return InvalidFormat; }
        ghost var end := limit;
        while iter != limit && t[limit - 1] == '0'
          invariant iter < limit <= end
          invariant Strip(t, iter, end) == Strip(t, iter, limit)
        {
          limit := limit - 1;
        }
        fraction := true;
      } else {
        return InvalidFormat;
      }
      iter := iter + 1;
    }
    if digitsSeen > 18 || digitsSeenFraction > precision { return InvalidFormat; }
    result := result * Pow10(precision - digitsSeenFraction);
    if result > INT64_MAX { return Undefined; }
    r := Ok(if neg then -(result as int) else result);
  }

  // -------------------------------------------------------------- printing

  function Abs(x: int): nat { if x < 0 then -x else x }

  function Whole(v: nat, sep: nat): nat
    requires sep > 0
  {
    v / sep
  }

  function Rest(v: nat, sep: nat): (r: nat)
    requires sep > 0
    ensures r < sep && v == Whole(v, sep) * sep + r
  {
    v % sep
  }

  /** What the output operator writes: with a fraction, as many digits of it as the precision says. The
      search for the leading zeros multiplies by ten. */
  function PrintNumeric(raw: int, precision: nat): Outcome<string>
    requires -INT64_MAX - 1 <= raw <= INT64_MAX && precision <= 18
  {
    var v := Abs(raw);
    var sign := if raw < 0 then "-" else "";
    if v > INT64_MAX then Undefined
    else if precision == 0 then Ok(sign + Padded(v, 1))
    else if Rest(v, Pow10(precision)) * 10 > INT64_MAX then Undefined
    else Ok(sign + Padded(Whole(v, Pow10(precision)), 1) + "." + Padded(Rest(v, Pow10(precision)), precision))
  }

  lemma {:induction false} Pow10Bound(k: nat)
    requires k <= 18
    ensures Pow10(k) <= 1_000_000_000_000_000_000
    ensures k == 17 ==> Pow10(k) == 100_000_000_000_000_000
    ensures k <= 17 ==> Pow10(k) <= 100_000_000_000_000_000
    ensures k == 18 ==> Pow10(k) == 1_000_000_000_000_000_000
  {
    assert Pow10(6) == 1_000_000;
    assert Pow10(12) == 1_000_000_000_000;
    assert Pow10(18) == 1_000_000_000_000_000_000;
  }

  /** Nothing after the point. */
  method PrintZeros(precision: nat) returns (out: string)
    ensures out == Padded(0, precision)
  {
    out := "";
    for index := 0 to precision
      invariant out == Padded(0, index)
    {
      PaddedZero(index);
      out := out + "0";
    }
  }

  /** As many zeros as are missing, then the number. */
  method PrintDigits(v: nat, precision: nat, sep0: nat) returns (out: string)
    requires precision > 0 && sep0 == Pow10(precision) && 0 < v < sep0
    ensures out == Padded(v, precision)
  {
    hide Pow10, Padded;
    var sep := sep0;
    out := "";
    ghost var width := precision;
    assert Padded(v, precision) == out + Padded(v, width);
    while sep > 10 * v
      invariant 0 < width && sep == Pow10(width) && v < sep
      invariant Padded(v, precision) == out + Padded(v, width)
      decreases width
    {
      Narrower(v, width);
      assert out + ("0" + Padded(v, width - 1)) == (out + "0") + Padded(v, width - 1);
      out := out + "0";
      sep := sep / 10;
      width := width - 1;
    }
    Exact(v, width);
    out := out + Padded(v, 1);
  }

  /** The digits after the point. */
  method PrintFraction(v: nat, precision: nat, sep: nat) returns (r: Outcome<string>)
    requires precision > 0 && sep == Pow10(precision) && v < sep
    ensures r == if v * 10 > INT64_MAX then Undefined else Ok(Padded(v, precision))
  {
    hide Pow10, Padded;
    var out;
    if v == 0 {
      out := PrintZeros(precision);
    } else {
      if v * 10 > INT64_MAX { return Undefined; }
      out := PrintDigits(v, precision, sep);
    }
    r := Ok(out);
  }

  /** operator<<. */
  method Print(raw: int, precision: nat) returns (r: Outcome<string>)
    requires -INT64_MAX - 1 <= raw <= INT64_MAX && precision <= 18
    ensures r == PrintNumeric(raw, precision)
  {
    hide Pow10, Padded, Whole, Rest;
    var out := "";
    var v := raw;
    if v < 0 {
      out := out + "-";
      if 0 - v > INT64_MAX { return Undefined; }
      v := 0 - v;
    }
    assert out == if raw < 0 then "-" else "";
    if precision == 0 {
      return Ok(out + Padded(v, 1));
    }
    var sep := 10;
    PowStep(1);
    PowZero();
    for index := 1 to precision
      invariant sep == Pow10(index)
    {
      PowStep(index + 1);
      sep := sep * 10;
    }
    out := out + Padded(Whole(v, sep), 1) + ".";
    var fraction := PrintFraction(Rest(v, sep), precision, sep);
    r := if fraction.Ok? then Ok(out + fraction.value) else Undefined;
  }

  lemma PaddedZero(width: nat)
    ensures Padded(0, width) + "0" == Padded(0, width + 1)
  {
  }

  /** A number with fewer digits than the width starts with a zero. */
  lemma {:induction false} Narrower(v: nat, width: nat)
    requires width > 0 && v < Pow10(width) && Pow10(width) > 10 * v && v > 0
    ensures width > 1 && Pow10(width - 1) == Pow10(width) / 10 && v < Pow10(width - 1)
    ensures Padded(v, width) == "0" + Padded(v, width - 1)
  {
    if v < 10 {
      PaddedDigit(v, width);
    } else {
      Narrower(v / 10, width - 1);
    }
  }

  lemma PaddedDigit(v: nat, width: nat)
    requires 0 < v < 10 && width > 1
    ensures Padded(v, width) == "0" + Padded(v, width - 1)
  {
    PaddedZeros(width - 1);
    PaddedZeros(width - 2);
  }

  lemma {:induction false} PaddedZeros(width: nat)
    ensures Padded(0, width) == seq(width, _ => '0')
  {
    if width > 0 { PaddedZeros(width - 1); }
  }

  lemma PaddedStep(v: nat, width: nat)
    requires v > 0 || width > 0
    ensures Padded(v, width) == Padded(v / 10, if width == 0 then 0 else width - 1) + [DigitChar(v % 10)]
  {
  }

  /** A number that fills the width needs no padding. */
  lemma {:induction false} Exact(v: nat, width: nat)
    requires width > 0 && v < Pow10(width) && Pow10(width) <= 10 * v
    ensures Padded(v, width) == Padded(v, 1)
  {
    hide Padded, Pow10;
    if width > 1 {
      PowStep(width);
      PowStep(width - 1);
      Exact(v / 10, width - 1);
      Unpadded(v / 10);
      PaddedStep(v, width);
      PaddedStep(v, 1);
    }
  }

  lemma Unpadded(v: nat)
    requires v > 0
    ensures Padded(v, 1) == Padded(v, 0)
  {
  }

  // ------------------------------------------------------------ round trip

  /** After digits d the state is this. */
  function Read(st: State, d: string): State
    requires AllDigits(d)
  {
    State(st.result * Pow10(|d|) + ValueOf(d), st.fraction,
          if st.fraction then st.digitsSeen else st.digitsSeen + |d|,
          if st.fraction then st.digitsSeenFraction + |d| else st.digitsSeenFraction)
  }

  lemma ReadLast(st: State, d: string, c: char)
    requires AllDigits(d) && IsDigit(c)
    ensures AllDigits(d + [c])
    ensures var s := Read(st, d); var s' := Read(st, d + [c]);
      && s'.result == s.result * 10 + DigitValue(c) && s'.fraction == s.fraction == st.fraction
      && s'.digitsSeen == s.digitsSeen + (if st.fraction then 0 else 1)
      && s'.digitsSeenFraction == s.digitsSeenFraction + (if st.fraction then 1 else 0)
  {
    var e := d + [c];
    assert e[..|e| - 1] == d;
    PowStep(|e|);
    assert st.result * (10 * Pow10(|d|)) == 10 * (st.result * Pow10(|d|));
  }

  /** Reading digits, when nothing overflows on the way to a value that does not. */
  lemma {:induction false} ParseDigits(t: string, iter: nat, limit: nat, st: State, k: nat)
    requires iter + k <= limit <= |t| && AllDigits(t[iter..iter + k])
    requires Read(st, t[iter..iter + k]).result <= INT64_MAX
    ensures ParseFrom(t, iter, limit, st) == ParseFrom(t, iter + k, limit, Read(st, t[iter..iter + k]))
  {
    hide ParseFrom, Read, ValueOf;
    var d := t[iter..iter + k];
    if k == 0 {
      assert d == "";
      ReadNothing(st);
    } else {
      var d' := t[iter..iter + k - 1];
      var c := t[iter + k - 1];
      assert d == d' + [c] && d[k - 1] == c;
      assert forall i :: 0 <= i < k - 1 ==> d'[i] == d[i];
      ReadLast(st, d', c);
      ParseDigits(t, iter, limit, st, k - 1);
      ParseOne(t, iter + k - 1, limit, Read(st, d'));
    }
  }

  lemma ReadNothing(st: State)
    ensures Read(st, "") == st
  {
  }

  lemma ParseOne(t: string, iter: nat, limit: nat, st: State)
    requires iter < limit <= |t| && IsDigit(t[iter]) && st.result * 10 + DigitValue(t[iter]) <= INT64_MAX
    ensures ParseFrom(t, iter, limit, st) == ParseFrom(t, iter + 1, limit,
      State(st.result * 10 + DigitValue(t[iter]), st.fraction,
            if st.fraction then st.digitsSeen else st.digitsSeen + 1,
            if st.fraction then st.digitsSeenFraction + 1 else st.digitsSeenFraction))
  {
  }

  lemma {:induction false} StripsZeros(t: string, iter: nat, limit: nat)
    requires iter < limit <= |t| && t[iter] != '0'
    ensures forall i :: Strip(t, iter, limit) <= i < limit ==> t[i] == '0'
  {
    if t[limit - 1] == '0' { StripsZeros(t, iter, limit - 1); }
  }

  /** Zeros at the end of a fraction multiply by ten each. */
  lemma {:induction false} TrailingZeros(f: string, k: nat)
    requires AllDigits(f) && k <= |f| && forall i :: k <= i < |f| ==> f[i] == '0'
    ensures AllDigits(f[..k]) && ValueOf(f) == ValueOf(f[..k]) * Pow10(|f| - k)
  {
    if k == |f| {
      assert f[..k] == f;
    } else {
      var g := f[..|f| - 1];
      TrailingZeros(g, k);
      assert g[..k] == f[..k];
      TenTimes(ValueOf(f[..k]), Pow10(|g| - k));
    }
  }

  /** The digits before and after the point, with the zeros at the end left out, make up the value. */
  lemma Compose(w: nat, f: nat, g: nat, precision: nat, k: nat)
    requires k <= precision && f == g * Pow10(precision - k)
    ensures (w * Pow10(k) + g) * Pow10(precision - k) == w * Pow10(precision) + f
    ensures w * Pow10(k) + g <= w * Pow10(precision) + f
  {
    hide Pow10;
    Pow10Add(k, precision - k);
    var x, y := Pow10(k), Pow10(precision - k);
    Distribute(w, x, g, y);
    AtLeast(w * x + g, y);
  }

  lemma Distribute(w: nat, x: nat, g: nat, y: nat)
    ensures (w * x + g) * y == w * (x * y) + g * y
  {
    assert (w * x) * y == w * (x * y);
  }

  lemma AtLeast(a: nat, y: nat)
    requires y > 0
    ensures a <= a * y
  {
  }

  lemma NoBlanks(t: string)
    requires t != "" && t[0] != ' ' && t[|t| - 1] != ' '
    ensures TrimRight(TrimLeft(t)) == t
  {
  }

  /** Reading a fraction after its point. */
  lemma ParseFraction(t: string, dot: nat, precision: nat, w: nat, f: nat, seen: nat, neg: bool)
    requires dot + 1 + precision == |t| && t[dot] == '.' && seen <= 18 && precision > 0
    requires AllDigits(t[dot + 1..]) && ValueOf(t[dot + 1..]) == f && w * Pow10(precision) + f <= INT64_MAX
    ensures var r := ParseFrom(t, dot, |t|, State(w, false, seen, 0));
      r.Ok? && Finish(r.value, neg, precision) ==
        var v := w * Pow10(precision) + f; Ok(if neg then -(v as int) else v)
  {
    hide Pow10, ValueOf;
    var l := Strip(t, dot, |t|);
    var all, k: nat := t[dot + 1..], l - dot - 1;
    StripsZeros(t, dot, |t|);
    assert forall i :: k <= i < |all| ==> all[i] == t[dot + 1 + i];
    TrailingZeros(all, k);
    var g := all[..k];
    assert g == t[dot + 1..dot + 1 + k];
    Compose(w, f, ValueOf(g), precision, k);
    var st := State(w, true, seen, 0);
    ParseDigits(t, dot + 1, l, st, k);
  }

  /** The operator fails exactly if the digits after the point, as a number, exceed a tenth of the
      largest integer, which takes a precision of 18. */
  lemma PrintsUnlessFractionTooLarge(raw: int, precision: nat)
    requires -1_000_000_000_000_000_000 < raw < 1_000_000_000_000_000_000 && precision <= 18
    ensures PrintNumeric(raw, precision) == Undefined <==> precision == 18 && Abs(raw) > 922_337_203_685_477_580
    ensures PrintNumeric(raw, precision).Ok? || PrintNumeric(raw, precision) == Undefined
  {
    Pow10Bound(precision);
    hide Pow10, Padded;
    if precision == 18 {
      assert Rest(Abs(raw), Pow10(18)) == Abs(raw);
    }
  }

  /** A value the operator cannot print. */
  lemma LargestFractionFails()
    ensures PrintNumeric(922_337_203_685_477_581, 18) == Undefined
  {
    PrintsUnlessFractionTooLarge(922_337_203_685_477_581, 18);
  }

  /** The parts of a printed value. */
  lemma TextParts(sign: string, whole: string, tail: string)
    requires (sign == "" || sign == "-") && AllDigits(whole) && whole != ""
    requires tail == "" || (tail[0] == '.' && |tail| > 1 && AllDigits(tail[1..]))
    ensures var t := sign + whole + tail; var start, dot := |sign|, |sign| + |whole|;
      && t[start..dot] == whole && t[dot..] == tail && start < dot
      && TrimRight(TrimLeft(t)) == t
      && t != "" && (Signed(t) <==> sign == "-") && (t[0] == '-' <==> sign == "-")
  {
    var t := sign + whole + tail;
    assert t[|sign|] == whole[0];
    assert t[|sign|..|sign| + |whole|] == whole && t[|sign| + |whole|..] == tail;
    if tail == "" {
      assert t[|t| - 1] == whole[|whole| - 1];
    } else {
      assert t[|t| - 1] == tail[1..][|tail| - 2];
    }
    hide TrimLeft, TrimRight;
    NoBlanks(t);
  }

  lemma RoundTripInteger(raw: int)
    requires -1_000_000_000_000_000_000 < raw < 1_000_000_000_000_000_000
    ensures ParseNumeric((if raw < 0 then "-" else "") + Padded(Abs(raw), 1), 0) == Ok(raw)
  {
    hide Padded, ValueOf, ParseFrom, TrimLeft, TrimRight;
    var sign, whole := if raw < 0 then "-" else "", Padded(Abs(raw), 1);
    var t := sign + whole;
    assert t == sign + whole + "";
    PaddedValue(Abs(raw), 1);
    Pow10Bound(18);
    PaddedLength(Abs(raw), 1, 18);
    TextParts(sign, whole, "");
    ReadWhole(t, |sign|, |t|, Abs(raw));
    EndOfText(t, State(Abs(raw), false, |whole|, 0));
  }

  lemma RoundTripFraction(raw: int, precision: nat)
    requires -1_000_000_000_000_000_000 < raw < 1_000_000_000_000_000_000 && 0 < precision <= 18
    ensures var sep := Pow10(precision);
      ParseNumeric((if raw < 0 then "-" else "") + Padded(Whole(Abs(raw), sep), 1) + "." +
                     Padded(Rest(Abs(raw), sep), precision),
                   precision) == Ok(raw)
  {
    hide Padded, ValueOf, ParseFrom, TrimLeft, TrimRight, Pow10, Whole, Rest, Finish;
    var sep := Pow10(precision);
    var sign, w, f := if raw < 0 then "-" else "", Whole(Abs(raw), sep), Rest(Abs(raw), sep);
    var whole, fraction := Padded(w, 1), Padded(f, precision);
    var tail := "." + fraction;
    var t := sign + whole + "." + fraction;
    assert t == sign + whole + tail && tail[1..] == fraction;
    PaddedValue(w, 1);
    PaddedValue(f, precision);
    WholeSmall(Abs(raw), sep);
    Pow10Bound(18);
    PaddedLength(w, 1, 18);
    PaddedLength(f, precision, precision);
    TextParts(sign, whole, tail);
    var dot := |sign| + |whole|;
    assert t[dot + 1..] == t[dot..][1..] == fraction;
    assert t[dot] == t[dot..][0];
    ReadWhole(t, |sign|, dot, w);
    ParseFraction(t, dot, precision, w, f, |whole|, raw < 0);
  }

  /** Whatever is printed reads back as the same value: through the sign, the zeros in front of a
      small fraction, and the zeros at its end. */
  lemma RoundTrip(raw: int, precision: nat)
    requires -1_000_000_000_000_000_000 < raw < 1_000_000_000_000_000_000 && precision <= 18
    requires PrintNumeric(raw, precision).Ok?
    ensures ParseNumeric(PrintNumeric(raw, precision).value, precision) == Ok(raw)
  {
    hide Padded, ParseNumeric, Pow10, Whole, Rest;
    if precision == 0 { RoundTripInteger(raw); } else { RoundTripFraction(raw, precision); }
  }

  lemma WholeSmall(v: nat, sep: nat)
    requires sep > 0
    ensures Whole(v, sep) <= v
  {
    assert v / sep <= v by { AtLeast(v / sep, sep); }
  }

  lemma EndOfText(t: string, st: State)
    ensures ParseFrom(t, |t|, |t|, st) == Ok(st)
  {
  }

  lemma ReadWhole(t: string, start: nat, dot: nat, w: nat)
    requires start < dot <= |t| && AllDigits(t[start..dot]) && ValueOf(t[start..dot]) == w <= INT64_MAX
    ensures ParseFrom(t, start, |t|, State(0, false, 0, 0)) == ParseFrom(t, dot, |t|, State(w, false, dot - start, 0))
  {
    hide ParseFrom, ValueOf, Pow10;
    ParseDigits(t, start, |t|, State(0, false, 0, 0), dot - start);
  }
}
