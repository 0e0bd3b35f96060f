/** Dates as Julian day numbers on the proleptic Gregorian calendar. */
module Calendar {
  import Bits
  import opened Digits

  /** A calendar date. */
  datatype Day = Day(year: nat, month: nat, day: nat)

  predicate Leap(year: nat) {
    year % 4 == 0 && (year % 100 != 0 || year % 400 == 0)
  }

  function DaysIn(year: nat, month: nat): nat {
    if month == 2 then if Leap(year) then 29 else 28
    else if month == 4 || month == 6 || month == 9 || month == 11 then 30
    else 31
  }

  predicate Valid(d: Day) {
    1 <= d.month <= 12 && 1 <= d.day <= DaysIn(d.year, d.month)
  }

  function NextDay(d: Day): Day {
    if d.day < DaysIn(d.year, d.month) then Day(d.year, d.month, d.day + 1)
    else if d.month < 12 then Day(d.year, d.month + 1, 1)
    else Day(d.year + 1, 1, 1)
  }

  /** Chronological order. */
  predicate Earlier(a: Day, b: Day) {
    || a.year < b.year
    || (a.year == b.year && a.month < b.month)
    || (a.year == b.year && a.month == b.month && a.day < b.day)
  }

  // ----------------------------------------------------------- conversions

  /** mergeJulianDay. Its arithmetic is unsigned; nothing in it wraps for years below 2^22. */
  function MergeJulianDay(d: Day): nat
    requires 1 <= d.month <= 12
  {
    var a := (14 - d.month) / 12;
    var y := d.year + 4800 - a;
    var m := d.month + 12 * a - 3;
    d.day + (153 * m + 2) / 5 + 365 * y + y / 4 - y / 100 + y / 400 - 32045
  }

  /** splitJulianDay: year, month and day. */
  function SplitJulianDay(jd: nat): (int, int, int) {
    var a := jd + 32044;
    var b := (4 * a + 3) / 146097;
    var c := a - (146097 * b) / 4;
    var d := (4 * c + 3) / 1461;
    var e := c - (1461 * d) / 4;
    var m := (5 * e + 2) / 153;
    (100 * b + d - 4800 + m / 10, m + 3 - 12 * (m / 10), e - (153 * m + 2) / 5 + 1)
  }

  /** Days before the March-based year y, and before its m-th month. */
  function YearStart(y: nat): nat {
    365 * y + y / 4 - y / 100 + y / 400
  }

  function MonthStart(m: nat): nat { (153 * m + 2) / 5 }

  /** The March-based year and month of a date. */
  function MarchYear(d: Day): nat
    requires 1 <= d.month <= 12
  {
    d.year + 4800 - (14 - d.month) / 12
  }

  function MarchMonth(d: Day): (m: nat)
    requires 1 <= d.month <= 12
    ensures m <= 11
  {
    d.month + 12 * ((14 - d.month) / 12) - 3
  }

  predicate LongYear(y: nat) { y % 4 == 3 && (y % 100 != 99 || y % 400 == 399) }

  lemma NextQuotient(y: nat, n: nat)
    requires n > 1
    ensures (y + 1) / n == y / n + if y % n == n - 1 then 1 else 0
  {
    var q, r := y / n, y % n;
    assert y == n * q + r;
    if r == n - 1 {
      assert y + 1 == n * (q + 1) + 0;
      Bits.RemainderUnique(y + 1, n, q + 1, 0);
    } else {
      Bits.RemainderUnique(y + 1, n, q, r + 1);
    }
  }

  lemma YearLength(y: nat)
    ensures YearStart(y + 1) == YearStart(y) + 365 + if LongYear(y) then 1 else 0
  {
    RemainderOfRemainder(y, 4, 25);
    RemainderOfRemainder(y, 100, 4);
    NextQuotient(y, 4);
    NextQuotient(y, 100);
    NextQuotient(y, 400);
  }

  lemma RemainderOfRemainder(y: nat, n: nat, k: nat)
    requires n > 0 && k > 0
    ensures y % (k * n) % n == y % n
  {
    var m := k * n;
    var q, r := y / m, y % m;
    assert y == m * q + r;
    assert r == n * (r / n) + r % n;
    assert m * q == n * (k * q);
    assert n * (k * q) + n * (r / n) == n * (k * q + r / n);
    Bits.RemainderUnique(y, n, k * q + r / n, r % n);
  }

  /** The day within the March-based year. */
  function DayInYear(d: Day): int
    requires 1 <= d.month <= 12
  {
    d.day - 1 + MonthStart(MarchMonth(d))
  }

  lemma ShiftedRemainder(year: nat, k: nat, n: nat)
    requires n > 1 && k % n == n - 1
    ensures year % n == 0 <==> (year + k) % n == n - 1
  {
    var q, r, p := year / n, year % n, k / n;
    assert year == n * q + r && k == n * p + (n - 1);
    assert n * q + n * p == n * (q + p);
    if r == 0 {
      Bits.RemainderUnique(year + k, n, q + p, n - 1);
    } else {
      assert year + k == n * (q + p + 1) + (r - 1);
      Bits.RemainderUnique(year + k, n, q + p + 1, r - 1);
    }
  }

  lemma LeapIsLong(d: Day)
    requires d.month == 2
    ensures Leap(d.year) <==> LongYear(MarchYear(d))
  {
    ShiftedRemainder(d.year, 4799, 4);
    ShiftedRemainder(d.year, 4799, 100);
    ShiftedRemainder(d.year, 4799, 400);
  }

  lemma DayInYearBound(d: Day)
    requires Valid(d)
    ensures 1 <= d.month <= 12 && 0 <= DayInYear(d) <= 365
    ensures DayInYear(d) == 365 ==> LongYear(MarchYear(d))
    ensures (5 * DayInYear(d) + 2) / 153 == MarchMonth(d)
  {
    if d.month == 2 { LeapIsLong(d); }
  }

  lemma MergeParts(d: Day)
    requires Valid(d)
    ensures MergeJulianDay(d) + 32044 == YearStart(MarchYear(d)) + DayInYear(d)
  {
  }

  /** The century step of the split finds the century, the year step the year in the century. */
  lemma SplitYear(y: nat, e: nat)
    requires e <= 365 && (e == 365 ==> LongYear(y))
    ensures var a := YearStart(y) + e;
      var b := (4 * a + 3) / 146097;
      var c := a - (146097 * b) / 4;
      b == y / 100 && (4 * c + 3) / 1461 == y % 100 && c - (1461 * (y % 100)) / 4 == e
  {
    hide YearStart, LongYear;
    var b, d := y / 100, y % 100;
    var a := YearStart(y) + e;
    var c := 365 * d + d / 4 + e;
    Centuries(y, b, d);
    LongCentury(y, e, b, d);
    CenturyStep(a, b, c);
    YearStep(c, d, e);
  }

  /** A century has a day more if its last year is long. */
  lemma LongCentury(y: nat, e: int, b: nat, d: nat)
    requires b == y / 100 && d == y % 100 && 0 <= e <= 365 && (e == 365 ==> LongYear(y))
    ensures 365 * d + d / 4 + e <= 36523 + if b % 4 == 3 then 1 else 0
    ensures e <= 364 + if d % 4 == 3 then 1 else 0
  {
    RemainderOfRemainder(y, 4, 25);
    assert y == 100 * b + d;
    Bits.RemainderUnique(y, 400, b / 4, 100 * (b % 4) + d);
  }

  lemma CenturyStep(a: nat, b: nat, c: nat)
    requires a == 36524 * b + b / 4 + c && c <= 36523 + if b % 4 == 3 then 1 else 0
    ensures (4 * a + 3) / 146097 == b && a - (146097 * b) / 4 == c
  {
    Bits.RemainderUnique(4 * a + 3, 146097, b, 4 * c + 3 - b % 4);
  }

  lemma YearStep(c: nat, d: nat, e: nat)
    requires c == 365 * d + d / 4 + e && e <= 364 + if d % 4 == 3 then 1 else 0
    ensures (4 * c + 3) / 1461 == d && c - (1461 * d) / 4 == e
  {
    Bits.RemainderUnique(4 * c + 3, 1461, d, 4 * e + 3 - d % 4);
  }

  lemma Centuries(y: nat, b: nat, d: nat)
    requires b == y / 100 && d == y % 100
    ensures YearStart(y) == 36524 * b + b / 4 + 365 * d + d / 4
  {
    assert y == 100 * b + d;
    assert y / 4 == 25 * b + d / 4;
    assert y / 400 == b / 4;
  }

  /** splitJulianDay inverts mergeJulianDay. */
  lemma SplitMerge(d: Day)
    requires Valid(d)
    ensures SplitJulianDay(MergeJulianDay(d)) == (d.year, d.month, d.day)
  {
    hide YearStart, LongYear, MergeJulianDay, SplitJulianDay, MarchYear, MarchMonth, DayInYear, Valid;
    MergeParts(d);
    DayInYearBound(d);
    SplitYear(MarchYear(d), DayInYear(d));
    SplitParts(MergeJulianDay(d), MarchYear(d), DayInYear(d), MarchMonth(d));
    Back(d);
  }

  /** The last step of the split, given what the steps before have found. */
  lemma SplitParts(jd: nat, y: nat, e: nat, m: nat)
    requires var a := jd + 32044;
      var b := (4 * a + 3) / 146097;
      var c := a - (146097 * b) / 4;
      b == y / 100 && (4 * c + 3) / 1461 == y % 100 && c - (1461 * (y % 100)) / 4 == e && (5 * e + 2) / 153 == m
    ensures SplitJulianDay(jd) ==
            (100 * (y / 100) + y % 100 - 4800 + m / 10, m + 3 - 12 * (m / 10), e - (153 * m + 2) / 5 + 1)
  {
  }

  /** From the March-based date back to the date. */
  lemma Back(d: Day)
    requires Valid(d)
    ensures var y, m := MarchYear(d), MarchMonth(d);
      && 100 * (y / 100) + y % 100 - 4800 + m / 10 == d.year
      && m + 3 - 12 * (m / 10) == d.month
      && DayInYear(d) - (153 * m + 2) / 5 + 1 == d.day
  {
  }

  /** The day after has the next number. */
  lemma NextDayIsNext(d: Day)
    requires Valid(d)
    ensures Valid(NextDay(d)) && MergeJulianDay(NextDay(d)) == MergeJulianDay(d) + 1
  {
    hide YearStart, LongYear, MergeJulianDay;
    if d.month == 2 {
      FebruaryEnds(d);
    } else {
      NextInYear(d);
    }
    MergeParts(d);
    MergeParts(NextDay(d));
  }

  lemma FebruaryEnds(d: Day)
    requires Valid(d) && d.month == 2
    ensures Valid(NextDay(d))
    ensures YearStart(MarchYear(NextDay(d))) + DayInYear(NextDay(d)) == YearStart(MarchYear(d)) + DayInYear(d) + 1
  {
    hide YearStart, LongYear, Leap;
    LeapIsLong(d);
    YearLength(MarchYear(d));
  }

  lemma NextInYear(d: Day)
    requires Valid(d) && d.month != 2
    ensures Valid(NextDay(d)) && MarchYear(NextDay(d)) == MarchYear(d) && DayInYear(NextDay(d)) == DayInYear(d) + 1
  {
    hide Leap;
  }

  lemma {:induction false} YearsOrdered(y: nat, z: nat)
    requires y <= z
    ensures YearStart(y) <= YearStart(z)
    decreases z
  {
    hide YearStart;
    if y < z {
      YearsOrdered(y, z - 1);
      YearLength(z - 1);
    }
  }

  lemma EarlierIsLess(a: Day, b: Day)
    requires Valid(a) && Valid(b) && Earlier(a, b)
    ensures MergeJulianDay(a) < MergeJulianDay(b)
  {
    hide YearStart, LongYear, DaysIn;
    MergeParts(a);
    MergeParts(b);
    DayInYearBound(a);
    DayInYearBound(b);
    if MarchYear(a) < MarchYear(b) {
      YearLength(MarchYear(a));
      YearsOrdered(MarchYear(a) + 1, MarchYear(b));
    } else {
      assert MarchYear(a) == MarchYear(b);
      MonthsOrdered(a, b);
    }
  }

  lemma MonthsOrdered(a: Day, b: Day)
    requires Valid(a) && Valid(b) && Earlier(a, b) && MarchYear(a) == MarchYear(b)
    ensures DayInYear(a) < DayInYear(b)
  {
  }

  /** Comparing dates is comparing their numbers. */
  lemma OrderIsChronological(a: Day, b: Day)
    requires Valid(a) && Valid(b)
    ensures MergeJulianDay(a) < MergeJulianDay(b) <==> Earlier(a, b)
    ensures MergeJulianDay(a) == MergeJulianDay(b) <==> a == b
  {
    if Earlier(a, b) { EarlierIsLess(a, b); }
    if Earlier(b, a) { EarlierIsLess(b, a); }
  }

  // ------------------------------------------------------------------ text

  const UNSIGNED: nat := 0x1_0000_0000

  /** Digits read into an unsigned, which wraps. */
  function Accumulate(s: string): (v: nat)
    requires AllDigits(s)
    ensures v < UNSIGNED
  {
    if s == "" then 0
    else (10 * Accumulate(s[..|s| - 1]) + DigitValue(s[|s| - 1])) % UNSIGNED
  }

  datatype Parsed<T> = Parsed(value: T) | InvalidFormat

  /** Up to the first dash. */
  function Field(s: string): string {
    if s == "" || s[0] == '-' then "" else [s[0]] + Field(s[1..])
  }

  lemma {:induction false} FieldEnds(s: string)
    ensures |Field(s)| <= |s| && Field(s) == s[..|Field(s)|]
    ensures |Field(s)| < |s| ==> s[|Field(s)|] == '-'
    ensures forall i :: 0 <= i < |Field(s)| ==> s[i] != '-'
  {
    if s != "" && s[0] != '-' { FieldEnds(s[1..]); }
  }

  /** What Date::castString accepts, and the date it reads. */
  function ParseFields(s: string): Parsed<Day> {
    var t := TrimRight(TrimLeft(s));
    FieldEnds(t);
    var year := Field(t);
    if |year| == |t| || !AllDigits(year) then InvalidFormat
    else
      var rest := t[|year| + 1..];
      FieldEnds(rest);
      var month := Field(rest);
      if |month| == |rest| || !AllDigits(month) then InvalidFormat
      else
        var day := rest[|month| + 1..];
        if !AllDigits(day) then InvalidFormat
        else Parsed(Day(Accumulate(year), Accumulate(month), Accumulate(day)))
  }

  predicate InRange(d: Day) {
    d.year <= 9999 && 1 <= d.month <= 12 && 1 <= d.day <= 31
  }

  function ParseDate(s: string): Parsed<nat> {
    match ParseFields(s)
    case InvalidFormat => InvalidFormat
    case Parsed(d) => if InRange(d) then Parsed(MergeJulianDay(d)) else InvalidFormat
  }

  lemma AccumulateMore(s: string, k: nat)
    requires k < |s| && AllDigits(s[..k]) && IsDigit(s[k])
    ensures AllDigits(s[..k + 1])
    ensures Accumulate(s[..k + 1]) == (10 * Accumulate(s[..k]) + DigitValue(s[k])) % UNSIGNED
  {
    assert s[..k + 1][..k] == s[..k];
  }

  /** One of the loops of castString: digits up to a dash, which is consumed, or (for the day) up to
      the end. */
  method ReadNumber(t: string, from: nat, dash: bool) returns (ok: bool, v: nat, next: nat)
    requires from <= |t|
    ensures dash ==> (ok <==> |Field(t[from..])| < |t| - from && AllDigits(Field(t[from..])))
    ensures dash && ok ==> v == Accumulate(Field(t[from..])) && next == from + |Field(t[from..])| + 1 <= |t|
    ensures !dash ==> (ok <==> AllDigits(t[from..]))
    ensures !dash && ok ==> v == Accumulate(t[from..])
  {
    ghost var rest := t[from..];
    FieldEnds(rest);
    v, next := 0, from;
    assert rest[..0] == "";
    while true
      invariant from <= next <= |t|
      invariant AllDigits(rest[..next - from]) && v == Accumulate(rest[..next - from])
      invariant dash ==> next - from <= |Field(rest)|
      decreases |t| - next
    {
      if next == |t| {
        assert rest[..next - from] == rest;
        return !dash, v, next;
      }
      var c := t[next];
      next := next + 1;
      if dash && c == '-' {
        return true, v, next;
      }
      if IsDigit(c) {
        AccumulateMore(rest, next - 1 - from);
        v := (10 * v + DigitValue(c)) % UNSIGNED;
      } else {
        assert rest[next - 1 - from] == c;
        return false, v, next;
      }
    }
  }

  /** Date::castString. */
  method CastString(s: string) returns (r: Parsed<nat>)
    ensures r == ParseDate(s)
  {
    hide MergeJulianDay, Accumulate, TrimLeft, TrimRight, Field;
    var t := Trim(s);
    assert t[0..] == t;
    FieldEnds(t);
    var ok, year, month, day, iter;
    ok, year, iter := ReadNumber(t, 0, true);
    if !ok { return InvalidFormat; }
    FieldEnds(t[iter..]);
    ok, month, iter := ReadNumber(t, iter, true);
    if !ok { return InvalidFormat; }
    assert t[|Field(t)| + 1..][|Field(t[|Field(t)| + 1..])| + 1..] == t[iter..];
    ok, day, iter := ReadNumber(t, iter, false);
    if !ok { return InvalidFormat; }
    if year > 9999 || month < 1 || month > 12 || day < 1 || day > 31 {
      return InvalidFormat;
    }
    r := Parsed(MergeJulianDay(Day(year, month, day)));
  }

  // ---------------------------------------------------------------- output

  /** The printed form of a date. */
  function PrintDay(d: Day): string {
    Padded(d.year, 4) + "-" + Padded(d.month, 2) + "-" + Padded(d.day, 2)
  }

  lemma {:induction false} PaddedReads(n: nat, width: nat)
    requires n < UNSIGNED
    ensures AllDigits(Padded(n, width)) && Accumulate(Padded(n, width)) == n
    ensures n > 0 || width > 0 ==> Padded(n, width) != ""
    decreases n, width
  {
    if !(n == 0 && width == 0) {
      var w := if width == 0 then 0 else width - 1;
      PaddedReads(n / 10, w);
      AccumulateLast(Padded(n / 10, w), n % 10, n);
    }
  }

  lemma AccumulateLast(s: string, digit: nat, n: nat)
    requires AllDigits(s) && digit < 10 && n < UNSIGNED && n == 10 * Accumulate(s) + digit
    ensures AllDigits(s + [DigitChar(digit)]) && Accumulate(s + [DigitChar(digit)]) == n
  {
    assert (s + [DigitChar(digit)])[..|s|] == s;
  }

  lemma {:induction false} FieldStops(a: string, b: string)
    requires AllDigits(a)
    ensures Field(a + "-" + b) == a
  {
    if a == "" {
      assert (a + "-" + b)[0] == '-';
    } else {
      assert (a + "-" + b)[1..] == a[1..] + "-" + b;
      FieldStops(a[1..], b);
    }
  }

  /** Parsing the printed form of a date gives the date. */
  lemma ParsePrint(d: Day)
    requires Valid(d) && d.year <= 9999
    ensures ParseDate(PrintDay(d)) == Parsed(MergeJulianDay(d))
  {
    hide MergeJulianDay, Accumulate, Field, Padded;
    var y, m, e := Padded(d.year, 4), Padded(d.month, 2), Padded(d.day, 2);
    PaddedReads(d.year, 4);
    PaddedReads(d.month, 2);
    PaddedReads(d.day, 2);
    var s := PrintDay(d);
    assert s == y + "-" + (m + "-" + e);
    assert s[0] == y[0] && s[|s| - 1] == e[|e| - 1];
    FieldStops(y, m + "-" + e);
    assert s[|y| + 1..] == m + "-" + e;
    FieldStops(m, e);
    assert (m + "-" + e)[|m| + 1..] == e;
  }

  /** Printing a date value and reading it back gives the value. */
  lemma DateRoundTrip(d: Day)
    requires Valid(d) && d.year <= 9999
    ensures var (year, month, day) := SplitJulianDay(MergeJulianDay(d));
      && year >= 0 && month >= 0 && day >= 0
      && ParseDate(PrintDay(Day(year, month, day))) == Parsed(MergeJulianDay(d))
  {
    SplitMerge(d);
    ParsePrint(d);
  }
}
