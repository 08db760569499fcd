/**
 The field GF(2^8) that crypto/aes.c tabulates: bytes are polynomials over GF(2) modulo
 x^8 + x^4 + x^3 + x + 1 (0x11b).  `Xtime` multiplies by x and reduces; `Mul` adds up the
 multiples of `b` by the monomials of `a` (section 4.2 of FIPS 197).  `Pow` lists the
 powers of 0x03, the generator behind the log and power tables.
 */
module Gf256 {
  import opened Bits

  function Xtime(a: bv8): bv8 {
    (a << 1) ^ (if a & 0x80 != 0 then 0x1b else 0)
  }

  /** The monomial x^n. */
  function Monomial(n: nat): bv8 {
    if n == 0 then 1 else Monomial(n - 1) << 1
  }

  /** `b` times x^n. */
  function Shifted(b: bv8, n: nat): bv8 {
    if n == 0 then b else Xtime(Shifted(b, n - 1))
  }

  /** `v` if the coefficient `bit` of `a` is set, and 0 otherwise. */
  function Pick(a: bv8, bit: bv8, v: bv8): bv8 {
    if a & bit != 0 then v else 0
  }

  /** The product of `b` with the `n` low terms of `a`. */
  function MulLow(a: bv8, b: bv8, n: nat): bv8 {
    if n == 0 then 0 else Xor(MulLow(a, b, n - 1), Pick(a, Monomial(n - 1), Shifted(b, n - 1)))
  }

  function Mul(a: bv8, b: bv8): bv8 {
    MulLow(a, b, 8)
  }

  /* ---- Multiplication is linear in its right factor ---- */

  lemma XtimeXor(a: bv8, b: bv8)
    ensures Xtime(Xor(a, b)) == Xor(Xtime(a), Xtime(b))
  {
    if a & 0x80 != 0 {
      if b & 0x80 != 0 { assert (a ^ b) & 0x80 == 0; } else { assert (a ^ b) & 0x80 != 0; }
    } else {
      if b & 0x80 != 0 { assert (a ^ b) & 0x80 != 0; } else { assert (a ^ b) & 0x80 == 0; }
    }
  }

  lemma {:induction false} ShiftedXor(a: bv8, b: bv8, n: nat)
    ensures Shifted(Xor(a, b), n) == Xor(Shifted(a, n), Shifted(b, n))
  {
    if n > 0 {
      ShiftedXor(a, b, n - 1);
      XtimeXor(Shifted(a, n - 1), Shifted(b, n - 1));
    }
  }

  lemma {:induction false} ShiftedXtime(b: bv8, n: nat)
    ensures Shifted(Xtime(b), n) == Xtime(Shifted(b, n))
  {
    if n > 0 { ShiftedXtime(b, n - 1); }
  }

  lemma PickXor(a: bv8, bit: bv8, v: bv8, w: bv8)
    ensures Pick(a, bit, Xor(v, w)) == Xor(Pick(a, bit, v), Pick(a, bit, w))
  {}

  lemma PickXtime(a: bv8, bit: bv8, v: bv8)
    ensures Pick(a, bit, Xtime(v)) == Xtime(Pick(a, bit, v))
  {}

  lemma {:induction false} MulLowXor(a: bv8, b: bv8, c: bv8, n: nat)
    ensures MulLow(a, Xor(b, c), n) == Xor(MulLow(a, b, n), MulLow(a, c, n))
  {
    if n > 0 {
      MulLowXor(a, b, c, n - 1);
      ShiftedXor(b, c, n - 1);
      var m, u, v := Monomial(n - 1), Shifted(b, n - 1), Shifted(c, n - 1);
      PickXor(a, m, u, v);
      XorSwap(MulLow(a, b, n - 1), MulLow(a, c, n - 1), Pick(a, m, u), Pick(a, m, v));
    }
  }

  lemma {:induction false} MulLowXtime(a: bv8, b: bv8, n: nat)
    ensures MulLow(a, Xtime(b), n) == Xtime(MulLow(a, b, n))
  {
    if n == 0 {
      assert Xtime(0) == 0;
    } else {
      MulLowXtime(a, b, n - 1);
      ShiftedXtime(b, n - 1);
      PickXtime(a, Monomial(n - 1), Shifted(b, n - 1));
      XtimeXor(MulLow(a, b, n - 1), Pick(a, Monomial(n - 1), Shifted(b, n - 1)));
    }
  }

  lemma {:induction false} ShiftedOne(n: nat)
    requires n < 8
    ensures Shifted(1, n) == Monomial(n)
  {
    if n > 0 {
      ShiftedOne(n - 1);
      MonomialRange(n - 1, 0);
    }
  }

  function And(a: bv8, b: bv8): bv8 { a & b }

  /** The sum of the monomials below x^n. */
  function Mask(n: nat): bv8 {
    if n == 0 then 0 else Xor(Mask(n - 1), Monomial(n - 1))
  }

  /** The monomials below x^8 are the eight bits of a byte. */
  lemma MonomialRange(n: nat, a: bv8)
    requires n < 8
    ensures Monomial(n) & 0x80 == 0 || n == 7
    ensures Mask(n) & Monomial(n) == 0
    ensures a & Monomial(n) == 0 || a & Monomial(n) == Monomial(n)
  {
    assert Monomial(0) == 1 && Monomial(1) == 2 && Monomial(2) == 4;
    assert Monomial(3) == 8 && Monomial(4) == 0x10;
    assert Monomial(5) == 0x20 && Monomial(6) == 0x40;
    assert Monomial(7) == 0x80;
    assert Mask(1) == 1 && Mask(2) == 3 && Mask(3) == 7;
    assert Mask(4) == 0x0f && Mask(5) == 0x1f;
    assert Mask(6) == 0x3f && Mask(7) == 0x7f;
  }

  lemma AndXor(a: bv8, b: bv8, c: bv8)
    ensures And(a, Xor(b, c)) == Xor(And(a, b), And(a, c))
  {}

  lemma PickIsAnd(a: bv8, m: bv8)
    requires a & m == 0 || a & m == m
    ensures Pick(a, m, m) == And(a, m)
  {}

  lemma NextBit(a: bv8, m: bv8, low: bv8)
    requires a & m == 0 || a & m == m
    ensures Xor(And(a, low), Pick(a, m, m)) == And(a, Xor(low, m))
  {
    PickIsAnd(a, m);
    hide Xor, And, Pick;
    AndXor(a, low, m);
  }

  lemma {:induction false} MulLowOne(a: bv8, n: nat)
    requires n <= 8
    ensures MulLow(a, 1, n) == And(a, Mask(n))
  {
    if n > 0 {
      MulLowOne(a, n - 1);
      ShiftedOne(n - 1);
      MonomialRange(n - 1, a);
      NextBit(a, Monomial(n - 1), Mask(n - 1));
    }
  }

  lemma MulOne(a: bv8)
    ensures Mul(a, 1) == a
  {
    MulLowOne(a, 8);
    assert Mask(2) == 3 && Mask(4) == 0x0f && Mask(6) == 0x3f && Mask(8) == 0xff;
  }

  /* ---- The powers of 0x03 ---- */

  function Times3(a: bv8): bv8 {
    a ^ (a << 1) ^ (if a & 0x80 != 0 then 0x1b else 0)
  }

  lemma Times3IsSum(a: bv8)
    ensures Times3(a) == Xor(a, Xtime(a))
  {}

  function Pow(n: nat): bv8 {
    if n == 0 then 1 else Times3(Pow(n - 1))
  }

  lemma {:induction false} MulPow(i: nat, j: nat)
    ensures Mul(Pow(i), Pow(j)) == Pow(i + j)
  {
    if j == 0 {
      MulOne(Pow(i));
    } else {
      var a, b := Pow(i), Pow(j - 1);
      MulPow(i, j - 1);
      Times3IsSum(b);
      MulLowXor(a, b, Xtime(b), 8);
      MulLowXtime(a, b, 8);
      Times3IsSum(Mul(a, b));
    }
  }

  lemma Times3Injective(a: bv8, b: bv8)
    requires Times3(a) == Times3(b)
    ensures a == b
  {}

  function Quad(a: bv8): bv8 { Times3(Times3(Times3(Times3(a)))) }

  lemma PowFour(n: nat)
    ensures Pow(n + 4) == Quad(Pow(n))
  {
    assert Pow(n + 2) == Times3(Times3(Pow(n)));
  }

  function Hop(a: bv8): bv8 { Times3(Quad(Quad(Quad(Quad(a))))) }

  function Hops(k: nat): bv8 {
    if k == 0 then 1 else Hop(Hops(k - 1))
  }

  lemma {:induction false} PowSeventeen(k: nat)
    ensures Pow(17 * k) == Hops(k)
  {
    if k > 0 {
      var n := 17 * (k - 1);
      PowSeventeen(k - 1);
      PowFour(n); PowFour(n + 4); PowFour(n + 8); PowFour(n + 12);
      assert 17 * k == n + 17;
    }
  }

  lemma HopsFrom1(k: nat)
    requires Hops(k) == 1
    ensures Hops(k + 1) == 0xe1 && Hops(k + 3) == 0x0c && Hops(k + 5) == 0xbd
  {
    assert Hops(k + 1) == 0xe1;
    assert Hops(k + 2) == 0x5c;
    assert Hops(k + 3) == 0x0c;
    assert Hops(k + 4) == 0xe0;
  }

  lemma HopsFromBd(k: nat)
    requires Hops(k) == 0xbd
    ensures Hops(k + 5) == 0xbc
  {
    assert Hops(k + 1) == 0x50;
    assert Hops(k + 2) == 0xec;
    assert Hops(k + 3) == 0x5d;
    assert Hops(k + 4) == 0xed;
  }

  lemma HopsFromBc(k: nat)
    requires Hops(k) == 0xbc
    ensures Hops(k + 5) == 1
  {
    assert Hops(k + 1) == 0xb1;
    assert Hops(k + 2) == 0xb0;
    assert Hops(k + 3) == 0x51;
    assert Hops(k + 4) == 0x0d;
  }

  /* ---- 0x03 generates the multiplicative group ---- */

  lemma PowValues(zero: nat)
    requires zero == 0
    ensures Pow(17 + zero) == 0xe1 && Pow(51 + zero) == 0x0c && Pow(85 + zero) == 0xbd && Pow(255 + zero) == 1
  {
    HopsFrom1(zero);
    HopsFromBd(zero + 5);
    HopsFromBc(zero + 10);
    PowSeventeen(zero + 1);
    PowSeventeen(zero + 3);
    PowSeventeen(zero + 5);
    PowSeventeen(zero + 15);
  }

  lemma PowAfterOne(i: nat, j: nat)
    requires Pow(i) == 1
    ensures Pow(i + j) == Pow(j)
  {
    if j > 0 { PowAfterOne(i, j - 1); }
  }

  lemma {:induction false} PowMultiple(q: nat, d: nat)
    requires Pow(d) == 1
    ensures Pow(q * d) == 1
  {
    if q > 0 {
      PowMultiple(q - 1, d);
      PowAfterOne((q - 1) * d, d);
      assert q * d == (q - 1) * d + d;
    }
  }

  lemma PowRemainder(n: nat, d: nat)
    requires d > 0 && Pow(d) == 1
    ensures Pow(n) == Pow(n % d)
  {
    PowMultiple(n / d, d);
    PowAfterOne(n / d * d, n % d);
  }

  lemma Divisors(d: nat)
    requires 0 < d < 255 && 255 % d == 0
    ensures 85 % d == 0 || 51 % d == 0 || 15 % d == 0
  {
    var q := 255 / d;
    assert d * q == 255;
    if d <= 15 {
      assert d == 1 || d == 3 || d == 5 || d == 15;
    } else {
      assert 16 * q <= d * q;
      assert q == 3 || q == 5 || q == 15;
    }
  }

  /** No smaller power of 0x03 is 1, so its order is 255. */
  lemma {:induction false} Order(d: nat, zero: nat)
    requires 0 < d < 255 && zero == 0
    ensures Pow(d) != 1
    decreases d
  {
    if Pow(d) == 1 {
      PowValues(zero);
      PowRemainder(255 + zero, d);
      if 255 % d > 0 {
        Order(255 % d, zero);
      } else {
        Divisors(d);
        assert Pow(17 + zero) == Times3(Times3(Pow(15 + zero)));
        if 85 % d == 0 {
          PowRemainder(85 + zero, d);
        } else if 51 % d == 0 {
          PowRemainder(51 + zero, d);
        } else {
          PowRemainder(15 + zero, d);
        }
      }
    }
  }

  lemma {:induction false} PowInjective(i: nat, j: nat)
    requires i < 255 && j < 255 && Pow(i) == Pow(j)
    ensures i == j
    decreases i
  {
    if i > j {
      PowInjective(j, i);
    } else if 0 < i {
      Times3Injective(Pow(i - 1), Pow(j - 1));
      PowInjective(i - 1, j - 1);
    } else if i < j {
      Order(j, 0);
    }
  }

  lemma {:induction false} PowNonZero(n: nat)
    ensures Pow(n) != 0
  {
    if n > 0 {
      PowNonZero(n - 1);
      if Times3(Pow(n - 1)) == 0 {
        assert Times3(0) == 0;
        Times3Injective(Pow(n - 1), 0);
      }
    }
  }

  /** The first `n` powers, as numbers. */
  ghost function Powers(n: nat): set<int> {
    if n == 0 then {} else Powers(n - 1) + {Pow(n - 1) as int}
  }

  lemma {:induction false} PowersMember(n: nat, v: int)
    requires v in Powers(n)
    ensures exists i: nat :: i < n && Pow(i) as int == v
  {
    if v == Pow(n - 1) as int {
    } else {
      PowersMember(n - 1, v);
    }
  }

  lemma SameByte(a: bv8, b: bv8)
    requires a as int == b as int
    ensures a == b
  {
    assert (a as int) as bv8 == a && (b as int) as bv8 == b;
  }

  lemma {:induction false} PowersCount(n: nat)
    requires n <= 255
    ensures |Powers(n)| == n && forall v :: v in Powers(n) ==> 1 <= v < 256
  {
    if n > 0 {
      PowersCount(n - 1);
      PowNonZero(n - 1);
      var last := Pow(n - 1);
      if last as int in Powers(n - 1) {
        PowersMember(n - 1, last as int);
        var i: nat :| i < n - 1 && Pow(i) as int == last as int;
        SameByte(Pow(i), last);
        PowInjective(i, n - 1);
      }
      if last as int == 0 { SameByte(last, 0); }
    }
  }

  ghost function UpTo(n: nat): set<int> {
    if n == 0 then {} else UpTo(n - 1) + {n}
  }

  lemma {:induction false} UpToCount(n: nat)
    ensures |UpTo(n)| == n && forall v :: v in UpTo(n) <==> 1 <= v <= n
  {
    if n > 0 { UpToCount(n - 1); }
  }

  lemma SubsetOfSameSize<T>(s: set<T>, t: set<T>)
    requires s <= t && |s| == |t|
    ensures s == t
  {
    if s != t {
      var x :| x in t && x !in s;
      assert s <= t - {x};
      SubsetIsSmaller(s, t - {x});
    }
  }

  lemma {:induction false} SubsetIsSmaller<T>(s: set<T>, t: set<T>)
    requires s <= t
    ensures |s| <= |t|
  {
    if s != {} {
      var x :| x in s;
      SubsetIsSmaller(s - {x}, t - {x});
    }
  }

  /** A set of n numbers between 1 and n holds all of them. */
  lemma FullSet(s: set<int>, n: nat, v: int)
    requires |s| == n && (forall w :: w in s ==> 1 <= w <= n) && 1 <= v <= n
    ensures v in s
  {
    UpToCount(n);
    var t := UpTo(n);
    forall w | w in s ensures w in t {}
    SubsetOfSameSize(s, t);
  }

  /** Every nonzero byte is a power of 0x03. */
  lemma PowSurjective(a: bv8)
    requires a != 0
    ensures exists i: nat :: i < 255 && Pow(i) == a
  {
    PowersCount(255);
    if a as int == 0 { SameByte(a, 0); }
    FullSet(Powers(255), 255, a as int);
    PowersMember(255, a as int);
    var i: nat :| i < 255 && Pow(i) as int == a as int;
    SameByte(Pow(i), a);
  }

  /** The discrete logarithm to base 0x03. */
  ghost function Log(a: bv8): (i: nat)
    requires a != 0
    ensures i < 255 && Pow(i) == a
  {
    PowSurjective(a);
    var i: nat :| i < 255 && Pow(i) == a;
    i
  }

  /** The multiplicative inverse, with 0 mapped to itself (section 5.1.1 of FIPS 197). */
  ghost function Inverse(a: bv8): (b: bv8)
    ensures if a == 0 then b == 0 else Mul(a, b) == 1
  {
    if a == 0 then 0
    else
      InverseExists(a);
      var b :| Mul(a, b) == 1;
      b
  }

  lemma InverseExists(a: bv8)
    requires a != 0
    ensures Mul(a, Pow(255 - Log(a))) == 1
  {
    MulPow(Log(a), 255 - Log(a));
    PowValues(0);
  }

  lemma MulZero(a: bv8)
    ensures Mul(a, 0) == 0
  {
    MulLowXor(a, 0, 0, 8);
    assert Xor(0, 0) == 0;
    assert Xor(Mul(a, 0), Mul(a, 0)) == 0;
  }

  /** Inverses are unique, so the tables' way of finding them is the only one. */
  lemma InverseUnique(a: bv8, b: bv8)
    requires Mul(a, b) == 1 && a != 0
    ensures b == Pow(255 - Log(a)) == Inverse(a)
  {
    InverseIs(a, b);
    InverseIs(a, Inverse(a));
  }

  lemma InverseIs(a: bv8, b: bv8)
    requires Mul(a, b) == 1 && a != 0
    ensures b == Pow(255 - Log(a))
  {
    MulZero(a);
    var i, j := Log(a), Log(b);
    MulPow(i, j);
    PowValues(0);
    if i + j >= 255 {
      PowAfterOne(255, i + j - 255);
      if i + j > 255 { Order(i + j - 255, 0); }
    } else if i + j > 0 {
      Order(i + j, 0);
    } else {
      assert Pow(0) == 1;
    }
  }

  lemma InverseInvolution(a: bv8)
    ensures Inverse(Inverse(a)) == a
  {
    if a != 0 {
      var b := Inverse(a);
      MulZero(a);
      InverseUnique(a, b);
      MulPow(255 - Log(a), Log(a));
      PowValues(0);
      InverseUnique(b, a);
    }
  }

  /* ---- Small constant factors ---- */

  lemma XorZero(a: bv8)
    ensures Xor(a, 0) == a && Xor(0, a) == a
  {}

  lemma MulLowSmall(a: bv8, b: bv8, n: nat)
    requires a < 0x10 && 4 <= n <= 8
    ensures MulLow(a, b, n) == MulLow(a, b, 4)
  {
    if n > 4 {
      MulLowSmall(a, b, n - 1);
      assert Monomial(4) == 0x10 && Monomial(5) == 0x20 && Monomial(6) == 0x40;
      assert Monomial(7) == 0x80;
      assert Pick(a, Monomial(n - 1), Shifted(b, n - 1)) == 0;
      XorZero(MulLow(a, b, n - 1));
    }
  }

  /** Multiplication by a factor of degree at most 3. */
  lemma MulSmall(a: bv8, b: bv8, x1: bv8, x2: bv8, x3: bv8)
    requires a < 0x10 && x1 == Xtime(b) && x2 == Xtime(x1) && x3 == Xtime(x2)
    ensures Mul(a, b) == Xor(Xor(Pick(a, 1, b), Pick(a, 2, x1)), Xor(Pick(a, 4, x2), Pick(a, 8, x3)))
  {
    MulLowSmall(a, b, 8);
    assert Monomial(0) == 1 && Monomial(1) == 2 && Monomial(2) == 4;
    assert Monomial(3) == 8;
    assert Shifted(b, 1) == x1;
    assert Shifted(b, 2) == x2;
    var p0, p1, p2, p3 := Pick(a, 1, b), Pick(a, 2, x1), Pick(a, 4, x2), Pick(a, 8, x3);
    assert MulLow(a, b, 1) == Xor(0, p0);
    XorZero(p0);
    assert MulLow(a, b, 2) == Xor(p0, p1);
    assert MulLow(a, b, 3) == Xor(Xor(p0, p1), p2);
    XorAssoc(Xor(p0, p1), p2, p3);
  }

  lemma MulConstants(b: bv8, x1: bv8, x2: bv8, x3: bv8)
    requires x1 == Xtime(b) && x2 == Xtime(x1) && x3 == Xtime(x2)
    ensures Mul(1, b) == b && Mul(2, b) == x1 && Mul(3, b) == Xor(b, x1)
    ensures Mul(9, b) == Xor(b, x3) && Mul(11, b) == Xor(Xor(b, x1), x3)
    ensures Mul(13, b) == Xor(b, Xor(x2, x3)) && Mul(14, b) == Xor(x1, Xor(x2, x3))
  {
    MulSmall(1, b, x1, x2, x3); MulSmall(2, b, x1, x2, x3); MulSmall(3, b, x1, x2, x3);
    MulSmall(9, b, x1, x2, x3); MulSmall(11, b, x1, x2, x3);
    MulSmall(13, b, x1, x2, x3); MulSmall(14, b, x1, x2, x3);
    XorZero(b); XorZero(x1); XorZero(x2); XorZero(x3); XorZero(0); XorZero(Xor(b, x1));
  }
}
