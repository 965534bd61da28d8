/** Unsigned machine words as bit vectors, and the bit tricks of the array part.

    The word operations are named functions so that a proof can use either their bits or
    their meaning as numbers, never both at once.
 */
module TableBits {
  const TWO63: nat := 0x8000_0000_0000_0000
  const TWO64: nat := 0x1_0000_0000_0000_0000
  const MAXASIZE: nat := 0x8000_0000

  type Word = bv64

  // ----- word operations -----

  predicate Less(x: Word, y: Word) { x < y }
  predicate AtMost(x: Word, y: Word) { x <= y }
  function Append(x: Word, b: bool): Word { (x << 1) | (if b then 1 else 0) }
  function Half(x: Word): Word { x >> 1 }
  predicate Odd(x: Word) { x & 1 == 1 }
  function Succ(x: Word): Word { x + 1 }
  function Without4(x: Word): Word { x >> 4 }
  function Without16(x: Word): Word { x >> 16 }
  predicate Small(x: Word) { x < 0x8000_0000_0000_0000 }
  predicate ArraySized(x: Word) { x < 0x1_0000_0000 }

  /** The macro 'ispow2'. */
  predicate Pow2Word(x: Word) { x & (x - 1) == 0 }

  /** The shifts of 'luaH_realasize'. */
  function Smear(x: Word): Word {
    var s1 := x | (x >> 1);
    var s2 := s1 | (s1 >> 2);
    var s3 := s2 | (s2 >> 4);
    var s4 := s3 | (s3 >> 8);
    s4 | (s4 >> 16)
  }

  /** The test of 'luaH_getint': '(key - 1) & ~(alimit - 1) < alimit'. */
  predicate MaskTest(k1: Word, a: Word) { (k1 & !(a - 1)) < a }

  // ----- facts about bits -----

  lemma LessStrict(x: Word, y: Word)
    ensures Less(x, y) ==> !Less(y, x) && x != y
  {
  }

  lemma AtMostIsLessOrEqual(x: Word, y: Word)
    ensures AtMost(x, y) <==> !Less(y, x)
  {
  }

  lemma AppendLess(x: Word, y: Word, b: bool, c: bool)
    requires Less(x, y) && Small(y)
    ensures Less(Append(x, b), Append(y, c))
  {
  }

  lemma AppendEven(x: Word)
    requires Small(x)
    ensures Less(Append(x, false), Append(x, true))
  {
  }

  lemma AppendBack(x: Word, b: bool)
    requires Small(x)
    ensures Half(Append(x, b)) == x && Odd(Append(x, b)) == b
    ensures Append(x, b) == 0 <==> x == 0 && !b
  {
  }

  lemma AppendPow2(x: Word)
    requires Small(x)
    ensures x != 0 ==> (Pow2Word(Append(x, false)) <==> Pow2Word(x))
    ensures Pow2Word(Append(x, true)) <==> x == 0
  {
  }

  /** A word without its 'p' lowest bits. */
  function Shifted(x: Word, p: nat): Word {
    if p == 0 then x else Shifted(Half(x), p - 1)
  }

  lemma {:induction false} ShiftedZero(p: nat)
    ensures Shifted(0, p) == 0
  {
    if p > 0 {
      ShiftedZero(p - 1);
    }
  }

  lemma {:induction false} ShiftedMore(x: Word, p: nat, q: nat)
    requires p <= q && Shifted(x, p) == 0
    ensures Shifted(x, q) == 0
    decreases p
  {
    hide Half;
    if p > 0 {
      ShiftedMore(Half(x), p - 1, q - 1);
    } else {
      ShiftedZero(q);
    }
  }

  lemma FourHalves(x: Word)
    ensures Half(Half(Half(Half(x)))) == Without4(x)
  {
  }

  lemma FourFours(x: Word)
    ensures Without4(Without4(Without4(Without4(x)))) == Without16(x)
  {
  }

  lemma ShiftedFour(x: Word, p: nat)
    ensures Shifted(x, p + 4) == Shifted(Without4(x), p)
  {
    hide Half, Without4;
    assert Shifted(x, p + 4) == Shifted(Half(x), p + 3) == Shifted(Half(Half(x)), p + 2) == Shifted(Half(Half(Half(x))), p + 1);
    FourHalves(x);
  }

  lemma ShiftedSixteen(x: Word, p: nat)
    ensures Shifted(x, p + 16) == Shifted(Without16(x), p)
  {
    hide Shifted, Without4, Without16;
    ShiftedFour(x, p + 12);
    ShiftedFour(Without4(x), p + 8);
    ShiftedFour(Without4(Without4(x)), p + 4);
    ShiftedFour(Without4(Without4(Without4(x))), p);
    FourFours(x);
  }

  lemma ShiftedLast(x: Word)
    ensures Shifted(x, 0) == x && Shifted(x, 3) == Half(Half(Half(x)))
  {
    hide Half;
    assert Shifted(x, 3) == Shifted(Half(x), 2) == Shifted(Half(Half(x)), 1);
  }

  lemma HighBits(x: Word)
    ensures Without16(Without16(x)) == 0 ==> ArraySized(x)
    ensures Half(Half(Half(Without4(Without4(Without4(Without16(Without16(Without16(x))))))))) == 0 ==> Small(x)
  {
  }

  /** Words below 2^32. */
  lemma ShiftedArraySized(x: Word)
    requires Shifted(x, 32) == 0
    ensures ArraySized(x)
  {
    hide Shifted, Half, Without4, Without16, ArraySized, Small;
    ShiftedSixteen(x, 16);
    ShiftedSixteen(Without16(x), 0);
    ShiftedLast(Without16(Without16(x)));
    HighBits(x);
  }

  /** Words below 2^63. */
  lemma ShiftedSmall(x: Word)
    requires Shifted(x, 63) == 0
    ensures Small(x)
  {
    hide Shifted, Half, Without4, Without16, ArraySized, Small;
    ShiftedSixteen(x, 47);
    ShiftedSixteen(Without16(x), 31);
    ShiftedSixteen(Without16(Without16(x)), 15);
    var y := Without16(Without16(Without16(x)));
    ShiftedFour(y, 11);
    ShiftedFour(Without4(y), 7);
    ShiftedFour(Without4(Without4(y)), 3);
    ShiftedLast(Without4(Without4(Without4(y))));
    HighBits(x);
  }

  lemma HalfLess(x: Word)
    requires x != 0
    ensures Half(x) < x
  {
  }

  lemma SmearIsPow2(x: Word)
    requires ArraySized(x) && !Pow2Word(x) && x != 0
    ensures var r := Succ(Smear(x)); Pow2Word(r) && Less(Half(r), x) && Less(x, r)
  {
  }

  lemma Pow2AboveUnique(x: Word, p: Word, q: Word)
    requires Pow2Word(p) && Less(Half(p), x) && Less(x, p)
    requires Pow2Word(q) && Less(Half(q), x) && Less(x, q)
    ensures p == q
  {
  }

  lemma MaskIsBound(k1: Word, a: Word, size: Word)
    requires Pow2Word(size) && Less(Half(size), a) && AtMost(a, size) && ArraySized(size)
    ensures MaskTest(k1, a) <==> Less(k1, size)
  {
  }

  // ----- numbers -----

  function Pow2(p: nat): (r: nat)
    ensures r > 0
  {
    if p == 0 then 1 else 2 * Pow2(p - 1)
  }

  predicate IsPow2(n: nat) {
    exists p: nat | p <= n :: n == Pow2(p)
  }

  /** The word that represents 'n', for n < 2^64. */
  function Bits(n: nat): Word {
    if n == 0 then 0 else Append(Bits(n / 2), n % 2 == 1)
  }

  /** The number that word 'x' represents. */
  function FromBits(x: Word): nat
    decreases x
  {
    if x == 0 then 0 else HalfLess(x); 2 * FromBits(Half(x)) + (if Odd(x) then 1 else 0)
  }

  lemma {:induction false} Pow2Add(a: nat, b: nat)
    ensures Pow2(a + b) == Pow2(a) * Pow2(b)
  {
    if a > 0 {
      Pow2Add(a - 1, b);
    }
  }

  lemma {:induction false} Pow2Mono(a: nat, b: nat)
    requires a < b
    ensures Pow2(a) < Pow2(b) && a < Pow2(a)
  {
    if a > 0 {
      Pow2Mono(a - 1, b - 1);
    }
  }

  lemma Pow2Values()
    ensures Pow2(8) == 256 && Pow2(16) == 0x1_0000 && Pow2(31) == 0x8000_0000 && Pow2(32) == 0x1_0000_0000
    ensures Pow2(63) == TWO63 && Pow2(64) == TWO64
  {
    assert Pow2(4) == 16;
    Pow2Add(4, 4);
    Pow2Add(8, 8);
    Pow2Add(16, 16);
    Pow2Add(32, 32);
  }

  lemma {:induction false} BitsBelow(n: nat, p: nat)
    requires n < Pow2(p) && p <= 63
    ensures Shifted(Bits(n), p) == 0
  {
    hide Append, Half, Small, Odd;
    if n > 0 {
      BitsBelow(n / 2, p - 1);
      ShiftedMore(Bits(n / 2), p - 1, 63);
      ShiftedSmall(Bits(n / 2));
      AppendBack(Bits(n / 2), n % 2 == 1);
    } else {
      ShiftedZero(p);
    }
  }

  lemma AppendZero()
    ensures Append(0, false) == 0
  {
  }

  lemma HalfFits(n: nat)
    requires n < TWO64
    ensures Small(Bits(n / 2))
  {
    hide Small, Bits, Shifted;
    Pow2Values();
    BitsBelow(n / 2, 63);
    ShiftedSmall(Bits(n / 2));
  }

  lemma ArrayFits(n: nat)
    requires n <= MAXASIZE
    ensures ArraySized(Bits(n))
  {
    hide ArraySized, Bits, Shifted;
    Pow2Values();
    BitsBelow(n, 32);
    ShiftedArraySized(Bits(n));
  }

  /** Unsigned comparison of words is comparison of numbers. */
  lemma {:induction false} BitsLess(n: nat, m: nat)
    requires n < m < TWO64
    ensures Less(Bits(n), Bits(m))
  {
    hide Less, Append, Small;
    HalfFits(n);
    HalfFits(m);
    AppendZero();
    assert Bits(n) == Append(Bits(n / 2), n % 2 == 1);
    if n / 2 < m / 2 {
      BitsLess(n / 2, m / 2);
      AppendLess(Bits(n / 2), Bits(m / 2), n % 2 == 1, m % 2 == 1);
    } else {
      AppendEven(Bits(n / 2));
    }
  }

  lemma BitsCompare(n: nat, m: nat)
    requires n < TWO64 && m < TWO64
    ensures Less(Bits(n), Bits(m)) <==> n < m
    ensures AtMost(Bits(n), Bits(m)) <==> n <= m
    ensures Bits(n) == Bits(m) <==> n == m
  {
    hide Bits, Less, AtMost;
    LessStrict(Bits(n), Bits(m));
    LessStrict(Bits(m), Bits(n));
    AtMostIsLessOrEqual(Bits(n), Bits(m));
    if n < m {
      BitsLess(n, m);
    } else if m < n {
      BitsLess(m, n);
    }
  }

  lemma {:induction false} FromBitsOf(n: nat)
    requires n < TWO64
    ensures FromBits(Bits(n)) == n
  {
    hide Append, Half, Odd, Small;
    if n > 0 {
      HalfFits(n);
      AppendBack(Bits(n / 2), n % 2 == 1);
      assert Bits(n) != 0 by {
        BitsCompare(0, n);
      }
      FromBitsOf(n / 2);
    }
  }

  lemma HalfBits(n: nat)
    requires n < TWO64
    ensures Half(Bits(n)) == Bits(n / 2)
  {
    hide Append, Half, Odd, Small;
    HalfFits(n);
    AppendZero();
    assert Bits(n) == Append(Bits(n / 2), n % 2 == 1);
    AppendBack(Bits(n / 2), n % 2 == 1);
  }

  // ----- powers of two -----

  predicate Pow2Test(n: nat) {
    n == 0 || Pow2Word(Bits(n))
  }

  lemma IsPow2Half(n: nat)
    requires n > 0 && n % 2 == 0
    ensures IsPow2(n) <==> IsPow2(n / 2)
  {
    var h := n / 2;
    if IsPow2(h) {
      var p: nat :| p <= h && h == Pow2(p);
      assert n == Pow2(p + 1) && p + 1 <= n;
    }
    if IsPow2(n) {
      var p: nat :| p <= n && n == Pow2(p);
      assert h == Pow2(p - 1);
      Pow2Mono(p - 1, p);
    }
  }

  lemma IsPow2Odd(n: nat)
    requires n % 2 == 1
    ensures IsPow2(n) <==> n == 1
  {
    assert Pow2(0) == 1;
    if IsPow2(n) {
      var p: nat :| p <= n && n == Pow2(p);
      assert p == 0;
    }
  }

  /** 'ispow2' recognizes zero and the powers of two. */
  lemma {:induction false} Pow2TestCorrect(n: nat)
    requires n < TWO64
    ensures Pow2Test(n) <==> n == 0 || IsPow2(n)
  {
    hide Append, Small, Pow2Word, IsPow2;
    if n > 0 {
      HalfFits(n);
      BitsCompare(n / 2, 0);
      AppendPow2(Bits(n / 2));
      if n % 2 == 1 {
        IsPow2Odd(n);
      } else {
        Pow2TestCorrect(n / 2);
        IsPow2Half(n);
      }
    }
  }

  lemma NoPow2Between(n: nat, size: nat)
    requires IsPow2(size) && size / 2 < n < size
    ensures !IsPow2(n)
  {
    if IsPow2(n) {
      var p: nat :| p <= n && n == Pow2(p);
      var q: nat :| q <= size && size == Pow2(q);
      if p < q - 1 {
        Pow2Mono(p, q - 1);
      } else if q < p {
        Pow2Mono(q, p);
      }
    }
  }

  // ----- the tricks, on numbers -----

  /** 'luaH_realasize' for a hint that is not the real size. */
  function SmearedSize(alimit: nat): nat {
    FromBits(Succ(Smear(Bits(alimit))))
  }

  /** From a hint above half of a power of two, the shifts recover the power. */
  lemma SmearRecovers(alimit: nat, size: nat)
    requires IsPow2(size) && size / 2 < alimit < size <= MAXASIZE
    ensures !Pow2Test(alimit) && SmearedSize(alimit) == size
  {
    hide Bits, FromBits, Smear, Succ, Half, Less, ArraySized, Pow2Word, IsPow2;
    NoPow2Between(alimit, size);
    Pow2TestCorrect(alimit);
    Pow2TestCorrect(size);
    BitsCompare(alimit, size);
    BitsCompare(size / 2, alimit);
    HalfBits(size);
    ArrayFits(alimit);
    BitsCompare(alimit, 0);
    assert Bits(0) == 0 by { BitsOfZero(); }
    SmearIsPow2(Bits(alimit));
    Pow2AboveUnique(Bits(alimit), Succ(Smear(Bits(alimit))), Bits(size));
    FromBitsOf(size);
  }

  lemma BitsOfZero()
    ensures Bits(0) == 0
  {
  }

  /** The mask test is a plain bounds check against the real size. */
  lemma MaskTestCorrect(k1: nat, alimit: nat, size: nat)
    requires k1 < TWO64 && IsPow2(size) && size / 2 < alimit <= size <= MAXASIZE
    ensures MaskTest(Bits(k1), Bits(alimit)) <==> k1 < size
  {
    hide Bits, MaskTest, Half, Less, AtMost, ArraySized, Pow2Word, IsPow2;
    Pow2TestCorrect(size);
    BitsCompare(k1, size);
    BitsCompare(alimit, size);
    BitsCompare(size / 2, alimit);
    HalfBits(size);
    ArrayFits(size);
    MaskIsBound(Bits(k1), Bits(alimit), Bits(size));
  }
}
