/** Which texts Date::castString accepts, what it reads them as, and what a printed date looks like. */
module DateTexts {
  import opened Digits
  import opened Calendar

  // -------------------------------------------------------------- fields

  lemma {:induction false} AccumulateValue(s: string)
    requires AllDigits(s)
    ensures Accumulate(s) == ValueOf(s) % UNSIGNED
  {
    if s != "" {
      AccumulateValue(s[..|s| - 1]);
      Wrapped(ValueOf(s[..|s| - 1]), DigitValue(s[|s| - 1]));
    }
  }

  lemma Wrapped(v: nat, d: nat)
    ensures (10 * (v % UNSIGNED) + d) % UNSIGNED == (10 * v + d) % UNSIGNED
  {
    var q := v / UNSIGNED;
    assert v == q * UNSIGNED + v % UNSIGNED;
    assert 10 * v + d == 10 * (v % UNSIGNED) + d + (10 * q) * UNSIGNED;
    Multiples(10 * (v % UNSIGNED) + d, 10 * q);
  }

  lemma Multiples(a: nat, q: nat)
    ensures (a + q * UNSIGNED) % UNSIGNED == a % UNSIGNED
  {
  }

  /** Year, month and day, as digits with dashes between them. */
  datatype Fields = Fields(year: string, month: string, day: string)

  function Text(f: Fields): string { f.year + "-" + f.month + "-" + f.day }

  ghost predicate Numeric(f: Fields) { AllDigits(f.year) && AllDigits(f.month) && AllDigits(f.day) }

  /** A text of three digit fields is read as the date with these numbers (modulo 2^32), in this order; it is
      rejected if one of them is out of its range. */
  lemma ReadsFields(left: string, f: Fields, right: string)
    requires Blanks(left) && Blanks(right) && Numeric(f)
    ensures ParseDate(left + Text(f) + right) ==
            var y, m, d := ValueOf(f.year) % UNSIGNED, ValueOf(f.month) % UNSIGNED, ValueOf(f.day) % UNSIGNED;
            if y <= 9999 && 1 <= m <= 12 && 1 <= d <= 31 then Parsed(MergeJulianDay(Day(y, m, d))) else InvalidFormat
  {
    hide MergeJulianDay, Accumulate, Field, ValueOf, TrimLeft, TrimRight, Blanks;
    var t := Text(f);
    FieldsBare(f);
    Trims(left, t, right);
    assert t == f.year + "-" + (f.month + "-" + f.day);
    FieldStops(f.year, f.month + "-" + f.day);
    assert t[|f.year| + 1..] == f.month + "-" + f.day;
    FieldStops(f.month, f.day);
    assert (f.month + "-" + f.day)[|f.month| + 1..] == f.day;
    AccumulateValue(f.year);
    AccumulateValue(f.month);
    AccumulateValue(f.day);
  }

  lemma FieldsBare(f: Fields)
    requires Numeric(f)
    ensures Bare(Text(f))
  {
    var t := Text(f);
    if f.year != "" { assert t[0] == f.year[0]; } else { assert t[0] == '-'; }
    if f.day != "" { assert t[|t| - 1] == f.day[|f.day| - 1]; } else { assert t[|t| - 1] == '-'; }
  }

  // ---------------------------------------------------------- other texts

  lemma FieldParts(s: string)
    requires |Field(s)| < |s|
    ensures s == Field(s) + "-" + s[|Field(s)| + 1..]
  {
    hide Field;
    FieldEnds(s);
  }

  lemma FieldsOf(s: string) returns (f: Fields)
    requires ParseDate(s).Parsed?
    ensures TrimRight(TrimLeft(s)) == Text(f) && Numeric(f)
  {
    hide MergeJulianDay, Accumulate, Field, TrimLeft, TrimRight, Text;
    var t := TrimRight(TrimLeft(s));
    FieldEnds(t);
    FieldParts(t);
    var rest := t[|Field(t)| + 1..];
    FieldEnds(rest);
    FieldParts(rest);
    f := Fields(Field(t), Field(rest), rest[|Field(rest)| + 1..]);
    Joined(t, rest, f);
  }

  lemma Joined(t: string, rest: string, f: Fields)
    requires t == f.year + "-" + rest && rest == f.month + "-" + f.day
    ensures t == Text(f)
  {
    assert f.year + "-" + (f.month + "-" + f.day) == f.year + "-" + f.month + "-" + f.day;
  }

  /** No other text is accepted. */
  lemma AcceptsFieldsOnly(s: string) returns (left: string, f: Fields, right: string)
    requires ParseDate(s).Parsed?
    ensures s == left + Text(f) + right && Blanks(left) && Blanks(right) && Numeric(f)
  {
    hide ParseDate, TrimLeft, TrimRight, Blanks, Text;
    f := FieldsOf(s);
    var behind, t;
    left, behind := SplitBlanks(s);
    t, right := SplitBlanksBehind(behind);
    assert s == left + t + right;
    Trims(left, t, right);
  }

  // -------------------------------------------------------- printed texts

  /** A printed date has ten characters: four digits, a dash, two digits, a dash, two digits; and these are the
      year, the month and the day. */
  lemma PrintedForm(d: Day)
    requires Valid(d) && d.year <= 9999
    ensures var t := PrintDay(d);
      && |t| == 10 && t[4] == '-' && t[7] == '-'
      && AllDigits(t[..4]) && ValueOf(t[..4]) == d.year
      && AllDigits(t[5..7]) && ValueOf(t[5..7]) == d.month
      && AllDigits(t[8..]) && ValueOf(t[8..]) == d.day
  {
    hide Padded, ValueOf;
    var y, m, e := Padded(d.year, 4), Padded(d.month, 2), Padded(d.day, 2);
    assert Pow10(2) == 100 && Pow10(4) == 10000;
    PaddedValue(d.year, 4);
    PaddedValue(d.month, 2);
    PaddedValue(d.day, 2);
    PaddedLength(d.year, 4, 4);
    PaddedLength(d.month, 2, 2);
    PaddedLength(d.day, 2, 2);
    var t := y + "-" + m + "-" + e;
    assert t[..4] == y && t[5..7] == m && t[8..] == e;
  }

  // ----------------------------------------------------------- some days

  lemma Computed(d: Day, a: nat, y: nat, m: nat)
    requires Valid(d) && a == (14 - d.month) / 12 && y == d.year + 4800 - a && m + 3 == d.month + 12 * a
    ensures MergeJulianDay(d) + 32045 == d.day + (153 * m + 2) / 5 + 365 * y + y / 4 - y / 100 + y / 400
  {
  }

  /** Days whose numbers are known: the first of the Gregorian calendar, the first of the modified numbering, and
      the first days of years, leap and not. */
  lemma KnownDays()
    ensures MergeJulianDay(Day(1582, 10, 15)) == 2299161
    ensures MergeJulianDay(Day(1858, 11, 17)) == 2400001
    ensures MergeJulianDay(Day(1900, 1, 1)) == 2415021 && MergeJulianDay(Day(1901, 1, 1)) == 2415386
    ensures MergeJulianDay(Day(2000, 1, 1)) == 2451545 && MergeJulianDay(Day(2001, 1, 1)) == 2451911
  {
    hide MergeJulianDay;
    Computed(Day(1582, 10, 15), 0, 6382, 7);
    Computed(Day(1858, 11, 17), 0, 6658, 8);
    Computed(Day(1900, 1, 1), 1, 6699, 10);
    Computed(Day(1901, 1, 1), 1, 6700, 10);
    Computed(Day(2000, 1, 1), 1, 6799, 10);
    Computed(Day(2001, 1, 1), 1, 6800, 10);
  }
}
