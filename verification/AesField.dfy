// The arithmetic of the AES tables: they hold the products of GF(2^8), the S-box is the affine image of
// the field inverse, and the inverse column mixing undoes the column mixing.

module AesField {
  import opened AesTables
  import opened Fips197

  // ----- the tables hold products

  lemma Product2(x: bv8)
    ensures Mul2(x) == GMul(x, 2)
  {
  }

  lemma Formula3(x: bv8)
    ensures GMul(x, 3) == x ^ XTime(x)
  {
    hide XTime;
  }

  lemma Product3(x: bv8)
    ensures Mul3(x) == GMul(x, 3)
  {
    hide GMul;
    Formula3(x);
  }

  lemma Formula9(x: bv8)
    ensures GMul(x, 9) == x ^ XTime(XTime(XTime(x)))
  {
    hide XTime;
  }

  lemma Product9(x: bv8)
    ensures Mul9(x) == GMul(x, 9)
  {
    hide GMul;
    Formula9(x);
  }

  lemma Formula11(x: bv8)
    ensures GMul(x, 11) == x ^ XTime(x) ^ XTime(XTime(XTime(x)))
  {
    hide XTime;
  }

  lemma Product11(x: bv8)
    ensures Mul11(x) == GMul(x, 11)
  {
    hide GMul;
    Formula11(x);
  }

  lemma Formula13(x: bv8)
    ensures GMul(x, 13) == x ^ XTime(XTime(x)) ^ XTime(XTime(XTime(x)))
  {
    hide XTime;
  }

  lemma Product13(x: bv8)
    ensures Mul13(x) == GMul(x, 13)
  {
    hide GMul;
    Formula13(x);
  }

  lemma Formula14(x: bv8)
    ensures GMul(x, 14) == XTime(x) ^ XTime(XTime(x)) ^ XTime(XTime(XTime(x)))
  {
    hide XTime;
  }

  lemma Product14(x: bv8)
    ensures Mul14(x) == GMul(x, 14)
  {
    hide GMul;
    Formula14(x);
  }

  // ----- the S-box

  function AffineInverse(s: bv8): bv8 {
    s.RotateLeft(1) ^ s.RotateLeft(3) ^ s.RotateLeft(6) ^ 0x05
  }

  lemma AffineInverts(s: bv8)
    ensures Affine(AffineInverse(s)) == s
  {
  }

  lemma InverseEntries0(x: bv8)
    requires x & 0xe0 == 0x00
    ensures Inverse(x) == AffineInverse(SBox(x))
  {
  }

  lemma InverseEntries1(x: bv8)
    requires x & 0xe0 == 0x20
    ensures Inverse(x) == AffineInverse(SBox(x))
  {
  }

  lemma InverseEntries2(x: bv8)
    requires x & 0xe0 == 0x40
    ensures Inverse(x) == AffineInverse(SBox(x))
  {
  }

  lemma InverseEntries3(x: bv8)
    requires x & 0xe0 == 0x60
    ensures Inverse(x) == AffineInverse(SBox(x))
  {
  }

  lemma InverseEntries4(x: bv8)
    requires x & 0xe0 == 0x80
    ensures Inverse(x) == AffineInverse(SBox(x))
  {
  }

  lemma InverseEntries5(x: bv8)
    requires x & 0xe0 == 0xa0
    ensures Inverse(x) == AffineInverse(SBox(x))
  {
  }

  lemma InverseEntries6(x: bv8)
    requires x & 0xe0 == 0xc0
    ensures Inverse(x) == AffineInverse(SBox(x))
  {
  }

  lemma InverseEntries7(x: bv8)
    requires x & 0xe0 == 0xe0
    ensures Inverse(x) == AffineInverse(SBox(x))
  {
  }

  lemma InverseEntries(x: bv8)
    ensures Inverse(x) == AffineInverse(SBox(x))
  {
    hide Inverse, AffineInverse, SBox;
    var row := x & 0xe0;
    if row == 0x00 {
      InverseEntries0(x);
    } else if row == 0x20 {
      InverseEntries1(x);
    } else if row == 0x40 {
      InverseEntries2(x);
    } else if row == 0x60 {
      InverseEntries3(x);
    } else if row == 0x80 {
      InverseEntries4(x);
    } else if row == 0xa0 {
      InverseEntries5(x);
    } else if row == 0xc0 {
      InverseEntries6(x);
    } else if row == 0xe0 {
      InverseEntries7(x);
    }
  }

  /** The table is the S-box of the standard. */
  lemma SBoxIsSubstitute(x: bv8)
    ensures SBox(x) == Substitute(x)
  {
    hide Inverse, Affine, AffineInverse, SBox;
    InverseEntries(x);
    AffineInverts(SBox(x));
  }

  lemma ProductIsOne0(x: bv8)
    requires x != 0 && x & 0xc0 == 0x00
    ensures GMul(x, AffineInverse(SBox(x))) == 1
  {
  }

  lemma ProductIsOne1(x: bv8)
    requires x != 0 && x & 0xc0 == 0x40
    ensures GMul(x, AffineInverse(SBox(x))) == 1
  {
  }

  lemma ProductIsOne2(x: bv8)
    requires x != 0 && x & 0xc0 == 0x80
    ensures GMul(x, AffineInverse(SBox(x))) == 1
  {
  }

  lemma ProductIsOne3(x: bv8)
    requires x != 0 && x & 0xc0 == 0xc0
    ensures GMul(x, AffineInverse(SBox(x))) == 1
  {
  }

  /** The 254th power is the inverse. */
  lemma InverseInverts(x: bv8)
    requires x != 0
    ensures GMul(x, Inverse(x)) == 1
  {
    hide Inverse, AffineInverse, SBox, GMul;
    InverseEntries(x);
    var row := x & 0xc0;
    if row == 0 {
      ProductIsOne0(x);
    } else if row == 0x40 {
      ProductIsOne1(x);
    } else if row == 0x80 {
      ProductIsOne2(x);
    } else if row == 0xc0 {
      ProductIsOne3(x);
    }
  }

  // ----- multiplication by a constant is linear

  function Reduction(x: bv8): bv8 {
    if x & 0x80 != 0 then 0x1b else 0
  }

  lemma ReductionLinear(x: bv8, y: bv8)
    ensures Reduction(x ^ y) == Reduction(x) ^ Reduction(y)
  {
  }

  lemma Regroup2(a: bv8, b: bv8, c: bv8, d: bv8)
    ensures (a ^ b) ^ (c ^ d) == (a ^ c) ^ (b ^ d)
  {
  }

  lemma ShiftLinear(x: bv8, y: bv8)
    ensures (x ^ y) << 1 == (x << 1) ^ (y << 1)
  {
  }

  lemma ShiftedAndReduced(x: bv8)
    ensures XTime(x) == (x << 1) ^ Reduction(x)
  {
  }

  lemma XTimeLinear(x: bv8, y: bv8)
    ensures XTime(Xor(x, y)) == Xor(XTime(x), XTime(y))
  {
    ShiftedAndReduced(x);
    ShiftedAndReduced(y);
    ShiftedAndReduced(x ^ y);
    hide Reduction, XTime;
    ReductionLinear(x, y);
    ShiftLinear(x, y);
    Regroup2(x << 1, Reduction(x), y << 1, Reduction(y));
  }

  lemma TermLinear(x: bv8, y: bv8, c: bv8)
    ensures Term(Xor(x, y), c) == Xor(Term(x, c), Term(y, c))
  {
  }

  lemma XorCommutes(a: bv8, b: bv8)
    ensures Xor(a, b) == Xor(b, a)
  {
  }

  lemma XorAssociates(a: bv8, b: bv8, c: bv8)
    ensures Xor(Xor(a, b), c) == Xor(a, Xor(b, c))
  {
  }

  lemma XorPairs(a: bv8, b: bv8, c: bv8, d: bv8)
    ensures Xor(Xor(a, b), Xor(c, d)) == Xor(Xor(a, c), Xor(b, d))
  {
    hide Xor;
    XorAssociates(a, b, Xor(c, d));
    XorAssociates(b, c, d);
    XorCommutes(b, c);
    XorAssociates(c, b, d);
    XorAssociates(a, c, Xor(b, d));
  }

  /** Four sums added are the two sums of four added. */
  lemma XorPairs4(a0: bv8, a1: bv8, a2: bv8, a3: bv8, b0: bv8, b1: bv8, b2: bv8, b3: bv8)
    ensures Xor4(Xor(a0, b0), Xor(a1, b1), Xor(a2, b2), Xor(a3, b3)) == Xor(Xor4(a0, a1, a2, a3), Xor4(b0, b1, b2, b3))
  {
    hide Xor;
    XorPairs(a0, b0, a1, b1);
    XorPairs(a2, b2, a3, b3);
    XorPairs(Xor(a0, a1), Xor(b0, b1), Xor(a2, a3), Xor(b2, b3));
  }

  lemma Plain4(a: bv8, b: bv8, c: bv8, d: bv8)
    ensures Xor4(a, b, c, d) == a ^ b ^ c ^ d
  {
  }

  lemma LowTermsAdded(x: bv8, c: bv8)
    ensures LowTerms(x, c)
      == Xor4(Term(x, c), Term(XTime(x), c >> 1), Term(XTime(XTime(x)), c >> 2), Term(XTime(XTime(XTime(x))), c >> 3))
  {
    hide Xor4, XTime, Term;
    Plain4(Term(x, c), Term(XTime(x), c >> 1), Term(XTime(XTime(x)), c >> 2), Term(XTime(XTime(XTime(x))), c >> 3));
  }

  lemma LowTermsLinear(x: bv8, y: bv8, c: bv8)
    ensures LowTerms(Xor(x, y), c) == Xor(LowTerms(x, c), LowTerms(y, c))
  {
    hide Xor, Xor4, XTime, Term, LowTerms;
    var x1, y1 := XTime(x), XTime(y);
    XTimeLinear(x, y);
    var x2, y2 := XTime(x1), XTime(y1);
    XTimeLinear(x1, y1);
    var x3, y3 := XTime(x2), XTime(y2);
    XTimeLinear(x2, y2);
    TermLinear(x, y, c);
    TermLinear(x1, y1, c >> 1);
    TermLinear(x2, y2, c >> 2);
    TermLinear(x3, y3, c >> 3);
    LowTermsAdded(Xor(x, y), c);
    LowTermsAdded(x, c);
    LowTermsAdded(y, c);
    XorPairs4(Term(x, c), Term(x1, c >> 1), Term(x2, c >> 2), Term(x3, c >> 3),
              Term(y, c), Term(y1, c >> 1), Term(y2, c >> 2), Term(y3, c >> 3));
  }

  lemma XTime4Linear(x: bv8, y: bv8)
    ensures XTime4(Xor(x, y)) == Xor(XTime4(x), XTime4(y))
  {
    hide Xor, XTime;
    XTimeLinear(x, y);
    XTimeLinear(XTime(x), XTime(y));
    XTimeLinear(XTime(XTime(x)), XTime(XTime(y)));
    XTimeLinear(XTime(XTime(XTime(x))), XTime(XTime(XTime(y))));
  }

  lemma Halves(x: bv8, c: bv8)
    ensures GMul(x, c) == Xor(LowTerms(x, c), LowTerms(XTime4(x), c >> 4))
  {
  }

  /** Multiplication distributes over addition. */
  lemma Linear(x: bv8, y: bv8, c: bv8)
    ensures GMul(Xor(x, y), c) == Xor(GMul(x, c), GMul(y, c))
  {
    hide Xor, GMul, LowTerms, XTime4;
    Halves(x, c);
    Halves(y, c);
    Halves(Xor(x, y), c);
    LowTermsLinear(x, y, c);
    XTime4Linear(x, y);
    LowTermsLinear(XTime4(x), XTime4(y), c >> 4);
    XorPairs(LowTerms(x, c), LowTerms(y, c), LowTerms(XTime4(x), c >> 4), LowTerms(XTime4(y), c >> 4));
  }

  lemma Linear4(p: bv8, q: bv8, r: bv8, s: bv8, c: bv8)
    ensures GMul(Xor4(p, q, r, s), c) == Xor4(GMul(p, c), GMul(q, c), GMul(r, c), GMul(s, c))
  {
    hide GMul, Xor;
    Linear(Xor(p, q), Xor(r, s), c);
    Linear(p, q, c);
    Linear(r, s, c);
  }

  // ----- the products of the two mixing matrices

  lemma Diagonal(x: bv8)
    ensures Xor4(GMul(GMul(x, 2), 14), GMul(x, 11), GMul(x, 13), GMul(GMul(x, 3), 9)) == x
  {
  }

  lemma OffDiagonal1(x: bv8)
    ensures Xor4(GMul(GMul(x, 3), 14), GMul(GMul(x, 2), 11), GMul(x, 13), GMul(x, 9)) == 0
  {
  }

  lemma OffDiagonal2(x: bv8)
    ensures Xor4(GMul(x, 14), GMul(GMul(x, 3), 11), GMul(GMul(x, 2), 13), GMul(x, 9)) == 0
  {
  }

  lemma OffDiagonal3(x: bv8)
    ensures Xor4(GMul(x, 14), GMul(x, 11), GMul(GMul(x, 3), 13), GMul(GMul(x, 2), 9)) == 0
  {
  }

  lemma XorTurned(a: bv8, b: bv8, c: bv8, d: bv8)
    ensures Xor4(a, b, c, d) == Xor4(b, c, d, a)
  {
    hide Xor;
    XorAssociates(a, b, Xor(c, d));
    XorAssociates(b, Xor(c, d), a);
    XorAssociates(c, d, a);
    XorAssociates(b, c, Xor(d, a));
    XorCommutes(a, Xor(b, Xor(c, d)));
  }

  /** Adding up a square of sixteen bytes by rows, each row turned once more, or by columns. */
  lemma RowsAndColumns(a0: bv8, a1: bv8, a2: bv8, a3: bv8, b0: bv8, b1: bv8, b2: bv8, b3: bv8,
                       c0: bv8, c1: bv8, c2: bv8, c3: bv8, d0: bv8, d1: bv8, d2: bv8, d3: bv8)
    ensures Xor4(Xor4(a0, b0, c0, d0), Xor4(b1, c1, d1, a1), Xor4(c2, d2, a2, b2), Xor4(d3, a3, b3, c3))
      == Xor4(Xor4(a0, a1, a2, a3), Xor4(b0, b1, b2, b3), Xor4(c0, c1, c2, c3), Xor4(d0, d1, d2, d3))
  {
    XorTurned(a1, b1, c1, d1);
    XorTurned(a2, b2, c2, d2);
    XorTurned(b2, c2, d2, a2);
    XorTurned(d3, a3, b3, c3);
    hide Xor;
    XorPairs4(a0, b0, c0, d0, a1, b1, c1, d1);
    XorPairs4(a2, b2, c2, d2, a3, b3, c3, d3);
    XorPairs4(Xor(a0, a1), Xor(b0, b1), Xor(c0, c1), Xor(d0, d1), Xor(a2, a3), Xor(b2, b3), Xor(c2, c3), Xor(d2, d3));
  }

  lemma ZerosVanish(a: bv8)
    ensures Xor4(a, 0, 0, 0) == a
  {
  }

  // One byte of a column; the other three are the same with the column turned.

  function Mixed(a: bv8, b: bv8, c: bv8, d: bv8): bv8 {
    Xor4(GMul(a, 2), GMul(b, 3), c, d)
  }

  function Unmixed(a: bv8, b: bv8, c: bv8, d: bv8): bv8 {
    Xor4(GMul(a, 14), GMul(b, 11), GMul(c, 13), GMul(d, 9))
  }

  lemma UnmixedMixed(a: bv8, b: bv8, c: bv8, d: bv8)
    ensures Unmixed(Mixed(a, b, c, d), Mixed(b, c, d, a), Mixed(c, d, a, b), Mixed(d, a, b, c)) == a
  {
    hide GMul, Xor4;
    Linear4(GMul(a, 2), GMul(b, 3), c, d, 14);
    Linear4(GMul(b, 2), GMul(c, 3), d, a, 11);
    Linear4(GMul(c, 2), GMul(d, 3), a, b, 13);
    Linear4(GMul(d, 2), GMul(a, 3), b, c, 9);
    RowsAndColumns(GMul(GMul(a, 2), 14), GMul(a, 11), GMul(a, 13), GMul(GMul(a, 3), 9),
             GMul(GMul(b, 3), 14), GMul(GMul(b, 2), 11), GMul(b, 13), GMul(b, 9),
             GMul(c, 14), GMul(GMul(c, 3), 11), GMul(GMul(c, 2), 13), GMul(c, 9),
             GMul(d, 14), GMul(d, 11), GMul(GMul(d, 3), 13), GMul(GMul(d, 2), 9));
    Diagonal(a);
    OffDiagonal1(b);
    OffDiagonal2(c);
    OffDiagonal3(d);
    ZerosVanish(a);
  }

  lemma XorTurnedThrice(a: bv8, b: bv8, c: bv8, d: bv8)
    ensures Xor4(a, b, c, d) == Xor4(b, c, d, a) == Xor4(c, d, a, b) == Xor4(d, a, b, c)
  {
    hide Xor4;
    XorTurned(a, b, c, d);
    XorTurned(b, c, d, a);
    XorTurned(c, d, a, b);
  }

  lemma MixedColumn(s: Word)
    ensures MixColumn(s) == Word(Mixed(s.b0, s.b1, s.b2, s.b3), Mixed(s.b1, s.b2, s.b3, s.b0),
                                 Mixed(s.b2, s.b3, s.b0, s.b1), Mixed(s.b3, s.b0, s.b1, s.b2))
  {
    hide GMul, Xor4;
    XorTurnedThrice(s.b0, GMul(s.b1, 2), GMul(s.b2, 3), s.b3);
    XorTurnedThrice(s.b0, s.b1, GMul(s.b2, 2), GMul(s.b3, 3));
    XorTurnedThrice(GMul(s.b0, 3), s.b1, s.b2, GMul(s.b3, 2));
  }

  lemma UnmixedColumn(s: Word)
    ensures InvMixColumn(s) == Word(Unmixed(s.b0, s.b1, s.b2, s.b3), Unmixed(s.b1, s.b2, s.b3, s.b0),
                                    Unmixed(s.b2, s.b3, s.b0, s.b1), Unmixed(s.b3, s.b0, s.b1, s.b2))
  {
    hide GMul, Xor4;
    XorTurnedThrice(GMul(s.b0, 9), GMul(s.b1, 14), GMul(s.b2, 11), GMul(s.b3, 13));
    XorTurnedThrice(GMul(s.b0, 13), GMul(s.b1, 9), GMul(s.b2, 14), GMul(s.b3, 11));
    XorTurnedThrice(GMul(s.b0, 11), GMul(s.b1, 13), GMul(s.b2, 9), GMul(s.b3, 14));
  }

  lemma UnmixMix(s: Word)
    ensures InvMixColumn(MixColumn(s)) == s
  {
    hide Mixed, Unmixed, MixColumn, InvMixColumn;
    MixedColumn(s);
    UnmixedColumn(MixColumn(s));
    UnmixedMixed(s.b0, s.b1, s.b2, s.b3);
    UnmixedMixed(s.b1, s.b2, s.b3, s.b0);
    UnmixedMixed(s.b2, s.b3, s.b0, s.b1);
    UnmixedMixed(s.b3, s.b0, s.b1, s.b2);
  }
}
