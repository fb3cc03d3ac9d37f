/** mix64 worked out for one word. */
module KnownMix {
  import opened Bits
  import opened SeedMix
  import opened Words

  lemma {:induction false} ShiftIs(x: nat, k: nat, y: nat, rest: nat)
    requires x == y * Pow2(k) + rest && rest < Pow2(k)
    ensures Shr(x, k) == y
    decreases k
  {
    if k > 0 {
      Twice(y, Pow2(k - 1));
      Halved(y * Pow2(k - 1), rest);
      ShiftIs(x / 2, k - 1, y, rest / 2);
    }
  }

  lemma Twice(y: nat, p: int)
    ensures y * (2 * p) == 2 * (y * p)
  {
  }

  lemma Halved(z: int, rest: nat)
    ensures (2 * z + rest) / 2 == z + rest / 2
  {
  }

  lemma Powers()
    ensures Pow2(27) == 0x800_0000 && Pow2(30) == 0x4000_0000 && Pow2(31) == 0x8000_0000
  {
    Pow2Word();
    assert Pow2(7) == 128 && Pow2(10) == 1024 && Pow2(11) == 2048;
    Pow2Add(20, 7);
    Pow2Add(20, 10);
    Pow2Add(20, 11);
  }

  lemma ProductIs(x: nat, f: nat, wraps: nat, y: nat)
    requires x * f == wraps * TWO64 + y && y < TWO64
    ensures U64(x * f) == y
  {
  }

  lemma First()
    ensures Xor(0x9e3779b97f4a7c15, 0x278dde6e5) == 0x9e3779bb07979af0
  {
    hide Xor;
    XorNothing();
    XorByte(0x0, 0x0, 9, 14, 0, 0);
    assert Xor(0x9e, 0x0) == 0x9e;
    XorByte(0x9e, 0x0, 3, 7, 0, 0);
    assert Xor(0x9e37, 0x0) == 0x9e37;
    XorByte(0x9e37, 0x0, 7, 9, 0, 0);
    assert Xor(0x9e3779, 0x0) == 0x9e3779;
    XorByte(0x9e3779, 0x0, 11, 9, 0, 2);
    assert Xor(0x9e3779b9, 0x2) == 0x9e3779bb;
    XorByte(0x9e3779b9, 0x2, 7, 15, 7, 8);
    assert Xor(0x9e3779b97f, 0x278) == 0x9e3779bb07;
    XorByte(0x9e3779b97f, 0x278, 4, 10, 13, 13);
    assert Xor(0x9e3779b97f4a, 0x278dd) == 0x9e3779bb0797;
    XorByte(0x9e3779b97f4a, 0x278dd, 7, 12, 14, 6);
    assert Xor(0x9e3779b97f4a7c, 0x278dde6) == 0x9e3779bb07979a;
    XorByte(0x9e3779b97f4a7c, 0x278dde6, 1, 5, 14, 5);
  }

  lemma Second()
    ensures Xor(0x6f68261b57e7a770, 0xded04c36a) == 0x6f682616bae3641a
  {
    hide Xor;
    XorNothing();
    XorByte(0x0, 0x0, 6, 15, 0, 0);
    assert Xor(0x6f, 0x0) == 0x6f;
    XorByte(0x6f, 0x0, 6, 8, 0, 0);
    assert Xor(0x6f68, 0x0) == 0x6f68;
    XorByte(0x6f68, 0x0, 2, 6, 0, 0);
    assert Xor(0x6f6826, 0x0) == 0x6f6826;
    XorByte(0x6f6826, 0x0, 1, 11, 0, 13);
    assert Xor(0x6f68261b, 0xd) == 0x6f682616;
    XorByte(0x6f68261b, 0xd, 5, 7, 14, 13);
    assert Xor(0x6f68261b57, 0xded) == 0x6f682616ba;
    XorByte(0x6f68261b57, 0xded, 14, 7, 0, 4);
    assert Xor(0x6f68261b57e7, 0xded04) == 0x6f682616bae3;
    XorByte(0x6f68261b57e7, 0xded04, 10, 7, 12, 3);
    assert Xor(0x6f68261b57e7a7, 0xded04c3) == 0x6f682616bae364;
    XorByte(0x6f68261b57e7a7, 0xded04c3, 7, 0, 6, 10);
  }

  lemma Third()
    ensures Xor(0xe220a838bf5c9dde, 0x1c4415071) == 0xe220a8397b1dcdaf
  {
    hide Xor;
    XorNothing();
    XorByte(0x0, 0x0, 14, 2, 0, 0);
    assert Xor(0xe2, 0x0) == 0xe2;
    XorByte(0xe2, 0x0, 2, 0, 0, 0);
    assert Xor(0xe220, 0x0) == 0xe220;
    XorByte(0xe220, 0x0, 10, 8, 0, 0);
    assert Xor(0xe220a8, 0x0) == 0xe220a8;
    XorByte(0xe220a8, 0x0, 3, 8, 0, 1);
    assert Xor(0xe220a838, 0x1) == 0xe220a839;
    XorByte(0xe220a838, 0x1, 11, 15, 12, 4);
    assert Xor(0xe220a838bf, 0x1c4) == 0xe220a8397b;
    XorByte(0xe220a838bf, 0x1c4, 5, 12, 4, 1);
    assert Xor(0xe220a838bf5c, 0x1c441) == 0xe220a8397b1d;
    XorByte(0xe220a838bf5c, 0x1c441, 9, 13, 5, 0);
    assert Xor(0xe220a838bf5c9d, 0x1c44150) == 0xe220a8397b1dcd;
    XorByte(0xe220a838bf5c9d, 0x1c44150, 13, 14, 7, 1);
  }

  /** The first word that SplitMix64 puts out from state 0, whose increment is the word mixed here. */
  lemma MixKnown()
    ensures Mixed(0x9e3779b97f4a7c15) == 0xe220a8397b1dcdaf
  {
    hide Xor, Shr, U64, Pow2;
    Powers();
    ShiftIs(0x9e3779b97f4a7c15, 30, 0x278dde6e5, 0x3f4a7c15);
    First();
    ProductIs(0x9e3779bb07979af0, FACTOR1, 0x7641f3093531f526, 0x6f68261b57e7a770);
    ShiftIs(0x6f68261b57e7a770, 27, 0xded04c36a, 0x7e7a770);
    Second();
    ProductIs(0x6f682616bae3641a, FACTOR2, 0x40c2daba32cdb214, 0xe220a838bf5c9dde);
    ShiftIs(0xe220a838bf5c9dde, 31, 0x1c4415071, 0x3f5c9dde);
    Third();
  }
}
