/** Decimal digits and blanks, as the parsers and printers of the types use them. */
module Digits {

  predicate IsDigit(c: char) { '0' <= c <= '9' }

  function DigitValue(c: char): nat
    requires IsDigit(c)
  {
    c as int - '0' as int
  }

  function DigitChar(n: nat): (c: char)
    requires n < 10
    ensures IsDigit(c) && DigitValue(c) == n
  {
    ('0' as int + n) as char
  }

  predicate AllDigits(s: string) { forall i :: 0 <= i < |s| ==> IsDigit(s[i]) }

  function TrimLeft(s: string): string {
    if s != "" && s[0] == ' ' then TrimLeft(s[1..]) else s
  }

  function TrimRight(s: string): string {
    if s != "" && s[|s| - 1] == ' ' then TrimRight(s[..|s| - 1]) else s
  }

  /** Trimming blanks by moving both ends. */
  method Trim(s: string) returns (t: string)
    ensures t == TrimRight(TrimLeft(s))
  {
    var iter, limit := 0, |s|;
    assert s[0..] == s;
    while iter != limit && s[iter] == ' '
      invariant iter <= limit == |s| && TrimLeft(s) == TrimLeft(s[iter..])
    {
      assert s[iter..][1..] == s[iter + 1..];
      iter := iter + 1;
    }
    ghost var left := s[iter..];
    assert left == s[iter..limit];
    while iter != limit && s[limit - 1] == ' '
      invariant iter <= limit <= |s| && TrimRight(left) == TrimRight(s[iter..limit])
    {
      assert s[iter..limit][..limit - 1 - iter] == s[iter..limit - 1];
      limit := limit - 1;
    }
    t := s[iter..limit];
  }

  /** The decimal digits of n, at least `width` of them: %0<width>u. */
  function Padded(n: nat, width: nat): string
    decreases n, width
  {
    if n == 0 && width == 0 then ""
    else Padded(n / 10, if width == 0 then 0 else width - 1) + [DigitChar(n % 10)]
  }

  /** The powers of ten. */
  function Pow10(k: nat): (p: nat)
    ensures p > 0
  {
    if k == 0 then 1 else 10 * Pow10(k - 1)
  }

  lemma PowStep(k: nat)
    requires k > 0
    ensures Pow10(k) == 10 * Pow10(k - 1)
  {
  }

  lemma PowZero()
    ensures Pow10(0) == 1
  {
  }

  lemma {:induction false} Pow10Add(a: nat, b: nat)
    ensures Pow10(a) * Pow10(b) == Pow10(a + b)
  {
    hide Pow10;
    PowZero();
    if a > 0 {
      Pow10Add(a - 1, b);
      PowStep(a);
      PowStep(a + b);
      TenTimes(Pow10(a - 1), Pow10(b));
    }
  }

  lemma TenTimes(a: nat, b: nat)
    ensures 10 * (a * b) == a * (10 * b) == 10 * a * b
  {
  }

  /** What digits say. */
  function ValueOf(s: string): nat
    requires AllDigits(s)
  {
    if s == "" then 0 else 10 * ValueOf(s[..|s| - 1]) + DigitValue(s[|s| - 1])
  }

  lemma {:induction false} PaddedValue(n: nat, width: nat)
    ensures AllDigits(Padded(n, width)) && ValueOf(Padded(n, width)) == n
    ensures n > 0 || width > 0 ==> Padded(n, width) != ""
    decreases n, width
  {
    if n > 0 || width > 0 {
      var w := if width == 0 then 0 else width - 1;
      PaddedValue(n / 10, w);
      var s := Padded(n, width);
      assert s[..|s| - 1] == Padded(n / 10, w);
    }
  }

  lemma {:induction false} PaddedLength(n: nat, width: nat, k: nat)
    requires n < Pow10(k)
    ensures |Padded(n, width)| <= if width < k then k else width
    ensures k <= width ==> |Padded(n, width)| == width
    decreases n, width
  {
    if n > 0 || width > 0 {
      if k > 0 {
        PaddedLength(n / 10, if width == 0 then 0 else width - 1, k - 1);
      } else {
        PaddedLength(0, width - 1, 0);
      }
    }
  }

  // --------------------------------------------------------------- blanks

  predicate Blanks(s: string) { forall i :: 0 <= i < |s| ==> s[i] == ' ' }

  lemma {:induction false} TrimsLeft(left: string, t: string)
    requires Blanks(left) && (t == "" || t[0] != ' ')
    ensures TrimLeft(left + t) == t
  {
    if left == "" {
      assert left + t == t;
    } else {
      assert (left + t)[1..] == left[1..] + t;
      TrimsLeft(left[1..], t);
    }
  }

  lemma {:induction false} TrimsRight(t: string, right: string)
    requires Blanks(right) && (t == "" || t[|t| - 1] != ' ')
    ensures TrimRight(t + right) == t
  {
    if right == "" {
      assert t + right == t;
    } else {
      assert (t + right)[..|t + right| - 1] == t + right[..|right| - 1];
      TrimsRight(t, right[..|right| - 1]);
    }
  }

  lemma {:induction false} BlanksGo(s: string)
    requires Blanks(s)
    ensures TrimLeft(s) == ""
  {
    if s != "" { BlanksGo(s[1..]); }
  }

  lemma NoText()
    ensures TrimRight("") == ""
  {
  }

  predicate Bare(t: string) { t == "" || (t[0] != ' ' && t[|t| - 1] != ' ') }

  lemma Trims(left: string, t: string, right: string)
    requires Blanks(left) && Blanks(right) && Bare(t)
    ensures TrimRight(TrimLeft(left + t + right)) == t
  {
    hide TrimLeft, TrimRight;
    if t == "" {
      assert left + t + right == left + right;
      BlanksGo(left + right);
      NoText();
    } else {
      assert left + t + right == left + (t + right);
      TrimsLeft(left, t + right);
      TrimsRight(t, right);
    }
  }

  lemma {:induction false} SplitBlanks(s: string) returns (left: string, t: string)
    ensures s == left + t && Blanks(left) && (t == "" || t[0] != ' ')
    decreases |s|
  {
    if s != "" && s[0] == ' ' {
      left, t := SplitBlanks(s[1..]);
      left := " " + left;
      assert s == [s[0]] + s[1..];
    } else {
      left, t := "", s;
    }
  }

  lemma {:induction false} SplitBlanksBehind(s: string) returns (t: string, right: string)
    ensures s == t + right && Blanks(right) && (t == "" || t[|t| - 1] != ' ') && (t != "" ==> t[0] == s[0])
    decreases |s|
  {
    if s != "" && s[|s| - 1] == ' ' {
      t, right := SplitBlanksBehind(s[..|s| - 1]);
      assert s == s[..|s| - 1] + [s[|s| - 1]];
      right := right + " ";
    } else {
      t, right := s, "";
    }
  }
}
