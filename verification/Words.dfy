/** The bits of words. */
module Words {
  import opened Coding

  /** Bit b of a number. */
  predicate BitSet(x: nat, b: nat) { if b == 0 then x % 2 == 1 else BitSet(x / 2, b - 1) }

  /** A number with bit b set: x | (1 << b). */
  function SetBit(x: nat, b: nat): (y: nat)
    ensures y >= x
  {
    if b == 0 then x / 2 * 2 + 1 else 2 * SetBit(x / 2, b - 1) + x % 2
  }

  /** Setting a bit sets it and leaves the other bits alone. */
  lemma {:induction false} SetBitSets(x: nat, b: nat, c: nat)
    ensures BitSet(SetBit(x, b), c) <==> b == c || BitSet(x, c)
  {
    if b > 0 && c > 0 {
      SetBitSets(x / 2, b - 1, c - 1);
      assert SetBit(x, b) / 2 == SetBit(x / 2, b - 1);
    } else if b == 0 && c > 0 {
      assert SetBit(x, b) / 2 == x / 2;
    }
  }

  lemma {:induction false} SetBitFits(x: nat, b: nat, n: nat)
    requires b < n && x < Pow(2, n)
    ensures SetBit(x, b) < Pow(2, n)
  {
    hide Pow, SetBit;
    PowStep(n);
    SetBitStep(x, b);
    if b > 0 {
      SetBitFits(x / 2, b - 1, n - 1);
    }
  }

  lemma SetBitStep(x: nat, b: nat)
    ensures SetBit(x, b) == if b == 0 then x / 2 * 2 + 1 else 2 * SetBit(x / 2, b - 1) + x % 2
  {
  }

  lemma PowStep(n: nat)
    requires n > 0
    ensures Pow(2, n) == 2 * Pow(2, n - 1)
  {
  }

  lemma {:induction false} ZeroHasNoBits(b: nat)
    ensures !BitSet(0, b)
  {
    if b > 0 {
      ZeroHasNoBits(b - 1);
    }
  }

  /** All of the lowest n bits are set. */
  ghost predicate LowSet(x: nat, n: nat) { forall b: nat :: b < n ==> BitSet(x, b) }

  /** No bit from n on is set. */
  ghost predicate Within(x: nat, n: nat) { forall b: nat :: BitSet(x, b) ==> b < n }

  lemma HalfBits(x: nat, n: nat)
    requires n > 0
    ensures Within(x, n) ==> Within(x / 2, n - 1)
    ensures LowSet(x, n) <==> x % 2 == 1 && LowSet(x / 2, n - 1)
  {
    forall b: nat ensures BitSet(x / 2, b) <==> BitSet(x, b + 1) {
    }
    forall b: nat | b > 0 ensures BitSet(x, b) <==> BitSet(x / 2, b - 1) {
    }
    assert BitSet(x, 0) <==> x % 2 == 1;
  }

  /** A number without bits is zero. */
  lemma {:induction false} NoBits(x: nat)
    requires Within(x, 0)
    ensures x == 0
  {
    if x > 0 {
      assert !BitSet(x, 0);
      forall b: nat ensures !BitSet(x / 2, b) {
        assert !BitSet(x, b + 1);
      }
      NoBits(x / 2);
    }
  }

  /** A number with no other bits has all of the lowest n exactly if it is 2^n - 1. */
  lemma {:induction false} LowBits(x: nat, n: nat)
    requires Within(x, n)
    ensures x == Pow(2, n) - 1 <==> LowSet(x, n)
    decreases n
  {
    if n == 0 {
      NoBits(x);
    } else {
      hide Within, LowSet;
      HalfBits(x, n);
      LowBits(x / 2, n - 1);
    }
  }

  lemma {:induction false} PowSum(a: nat, b: nat)
    ensures Pow(2, a) * Pow(2, b) == Pow(2, a + b) && Pow(2, a) > 0 && Pow(2, b) > 0
    decreases a + b
  {
    if a > 0 {
      PowSum(a - 1, b);
      Doubles(Pow(2, a - 1), Pow(2, b));
    } else if b > 0 {
      PowSum(a, b - 1);
    }
  }

  lemma Doubles(x: nat, y: nat)
    ensures (2 * x) * y == 2 * (x * y)
  {
  }

  lemma Pow32()
    ensures Pow(2, 32) == 0x1_0000_0000
  {
    assert Pow(2, 8) == 256;
    assert Pow(2, 16) == 0x1_0000;
    assert Pow(2, 24) == 0x100_0000;
  }

  /** Shifting a full word right: (2^32 - 1) >> (32 - n) is 2^n - 1. */
  lemma ShiftedWord(n: nat)
    requires n <= 32
    ensures Pow(2, 32 - n) > 0 && (0xffff_ffff as nat) / Pow(2, 32 - n) == Pow(2, n) - 1
  {
    hide Pow;
    PowSum(n, 32 - n);
    Pow32();
    OneLess(Pow(2, n), Pow(2, 32 - n), 0xffff_ffff);
  }

  lemma OneLess(p: nat, m: nat, a: nat)
    requires p > 0 && m > 0 && p * m == a + 1
    ensures a / m == p - 1
  {
    assert a == (p - 1) * m + (m - 1);
    Quotient(p - 1, m, m - 1);
  }

  lemma Quotient(q: nat, m: nat, r: nat)
    requires r < m
    ensures (q * m + r) / m == q
  {
    var x := q * m + r;
    SameQuotient(q, r, x / m, x % m, m);
  }

  lemma SameQuotient(q: int, r: int, d: int, e: int, m: nat)
    requires q * m + r == d * m + e && 0 <= r < m && 0 <= e < m
    ensures q == d
  {
    if q < d {
      AtLeastOnce(d - q, m);
    } else if d < q {
      AtLeastOnce(q - d, m);
    }
  }

  lemma AtLeastOnce(n: nat, m: nat)
    requires n > 0
    ensures n * m >= m
  {
  }
}
