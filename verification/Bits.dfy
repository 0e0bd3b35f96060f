/** Bitwise operations of unsigned machine words, on naturals. */
module Bits {

  const WORD_SIZE: nat := 0x1_0000_0000_0000_0000

  /** hash_t is 64 bits wide. */
  type Hash = h: nat | h < WORD_SIZE

  function Pow2(e: nat): (p: nat)
    ensures p > e
  {
    if e == 0 then 1 else 2 * Pow2(e - 1)
  }

  /** Bit i of a. */
  predicate Bit(a: nat, i: nat) {
    if i == 0 then a % 2 == 1 else Bit(a / 2, i - 1)
  }

  function And(a: nat, b: nat): nat {
    if a == 0 then 0
    else 2 * And(a / 2, b / 2) + (if a % 2 == 1 && b % 2 == 1 then 1 else 0)
  }

  function Or(a: nat, b: nat): nat
    decreases a + b
  {
    if a == 0 && b == 0 then 0
    else 2 * Or(a / 2, b / 2) + (if a % 2 == 1 || b % 2 == 1 then 1 else 0)
  }

  lemma {:induction false} ZeroBit(i: nat)
    ensures !Bit(0, i)
  {
    if i > 0 { ZeroBit(i - 1); }
  }

  lemma {:induction false} AndBit(a: nat, b: nat, i: nat)
    ensures Bit(And(a, b), i) <==> Bit(a, i) && Bit(b, i)
  {
    if a == 0 {
      ZeroBit(i);
    } else if i > 0 {
      AndBit(a / 2, b / 2, i - 1);
    }
  }

  lemma {:induction false} OrBit(a: nat, b: nat, i: nat)
    ensures Bit(Or(a, b), i) <==> Bit(a, i) || Bit(b, i)
  {
    if a == 0 && b == 0 {
      ZeroBit(i);
    } else if i > 0 {
      OrBit(a / 2, b / 2, i - 1);
    }
  }

  lemma {:induction false} PowerBit(e: nat, i: nat)
    ensures Bit(Pow2(e), i) <==> i == e
  {
    if e == 0 {
      if i > 0 { ZeroBit(i - 1); }
    } else if i > 0 {
      PowerBit(e - 1, i - 1);
    }
  }

  /** The mask with the e lowest bits set. */
  lemma {:induction false} LowMaskBit(e: nat, i: nat)
    ensures Bit(Pow2(e) - 1, i) <==> i < e
  {
    if e == 0 {
      ZeroBit(i);
    } else if i > 0 {
      assert (Pow2(e) - 1) / 2 == Pow2(e - 1) - 1;
      LowMaskBit(e - 1, i - 1);
    }
  }

  lemma {:induction false} ShiftedBit(a: nat, e: nat, i: nat)
    ensures Bit(a * Pow2(e), i) <==> i >= e && Bit(a, i - e)
  {
    if e > 0 {
      assert a * Pow2(e) == 2 * (a * Pow2(e - 1));
      if i > 0 { ShiftedBit(a, e - 1, i - 1); }
    }
  }

  lemma {:induction false} HighBit(a: nat, e: nat, i: nat)
    requires a < Pow2(e) && i >= e
    ensures !Bit(a, i)
  {
    if e == 0 {
      ZeroBit(i);
    } else {
      HighBit(a / 2, e - 1, i - 1);
    }
  }

  lemma {:induction false} NonZeroBit(a: nat) returns (i: nat)
    requires a != 0
    ensures Bit(a, i)
  {
    if a % 2 == 1 {
      i := 0;
    } else {
      var j := NonZeroBit(a / 2);
      i := j + 1;
    }
  }

  /** Words with the same bits are equal. */
  lemma {:induction false} SameBits(a: nat, b: nat)
    requires forall i: nat :: Bit(a, i) <==> Bit(b, i)
    ensures a == b
    decreases a + b
  {
    assert Bit(a, 0) <==> Bit(b, 0);
    if a + b > 0 {
      forall i: nat ensures Bit(a / 2, i) <==> Bit(b / 2, i) {
        assert Bit(a, i + 1) <==> Bit(b, i + 1);
      }
      SameBits(a / 2, b / 2);
    }
  }

  /** Masking with 2^e - 1 is the remainder modulo 2^e. */
  lemma {:induction false} MaskIsRemainder(a: nat, e: nat, m: nat)
    requires m == Pow2(e)
    ensures And(a, m - 1) == a % m
  {
    if e == 0 {
      AndZero(a);
    } else if a > 0 {
      var p := Pow2(e - 1);
      MaskIsRemainder(a / 2, e - 1, p);
      assert And(a / 2, p - 1) == (a / 2) % p;
      MaskStep(a, p, m);
    } else {
      assert 0 % m == 0;
    }
  }

  lemma MaskStep(a: nat, p: nat, m: nat)
    requires p > 0 && m == 2 * p && a > 0
    requires And(a / 2, p - 1) == (a / 2) % p
    ensures And(a, m - 1) == a % m
  {
    AndStep(a, p);
    HalfRemainder(a, p, m);
  }

  lemma AndStep(a: nat, p: nat)
    requires p > 0 && a > 0
    ensures And(a, 2 * p - 1) == 2 * And(a / 2, p - 1) + a % 2
  {
    assert (2 * p - 1) / 2 == p - 1;
  }

  lemma {:induction false} AndZero(a: nat)
    ensures And(a, 0) == 0
  {
    if a > 0 { AndZero(a / 2); }
  }

  lemma HalfRemainder(a: nat, p: nat, m: nat)
    requires p > 0 && m == 2 * p
    ensures a % m == 2 * ((a / 2) % p) + a % 2
  {
    var q, r := (a / 2) / p, (a / 2) % p;
    assert a == m * q + (2 * r + a % 2);
    RemainderUnique(a, m, q, 2 * r + a % 2);
  }

  lemma RemainderUnique(a: nat, m: nat, q: int, r: nat)
    requires m > 0 && a == m * q + r && r < m
    ensures a % m == r && a / m == q
  {
    var d := a / m - q;
    assert m * d == r - a % m;
    SmallMultiple(m, d);
  }

  lemma SmallMultiple(m: nat, d: int)
    requires 0 - m < m * d < m
    ensures d == 0
  {
  }

  lemma DoubleProduct(x: nat, y: nat)
    ensures (2 * x) * y == 2 * (x * y)
  {
  }

  lemma Pow2Next(e: nat)
    ensures Pow2(e + 1) == 2 * Pow2(e)
  {
  }

  lemma {:induction false} Pow2Add(a: nat, b: nat)
    ensures Pow2(a + b) == Pow2(a) * Pow2(b)
  {
    if a > 0 {
      Pow2Add(a - 1, b);
      DoubleProduct(Pow2(a - 1), Pow2(b));
    }
  }

  lemma Pow2Values()
    ensures Pow2(16) == 0x1_0000 && Pow2(48) == 0x1_0000_0000_0000
  {
    assert Pow2(8) == 256;
    Pow2Add(8, 8);
    Pow2Add(16, 16);
    Pow2Add(32, 16);
  }

  /** Number of bits of n: 64 - __builtin_clzll(n) for n below 2^64. */
  function BitLength(n: nat): (e: nat)
    ensures n < Pow2(e)
    ensures n > 0 ==> e > 0 && Pow2(e - 1) <= n
  {
    if n == 0 then 0 else 1 + BitLength(n / 2)
  }

  /** The exponent of the capacity that every hash table here chooses for n entries: the smallest from
      the bit length of n on with n at most 7/10 of the capacity. */
  function CapacityExponent(n: nat): (e: nat)
    requires n > 0
    ensures 10 * n <= 7 * Pow2(e) < 20 * n && e > 0
  {
    var e := BitLength(n);
    if 7 * Pow2(e) < 10 * n then e + 1 else e
  }
}
