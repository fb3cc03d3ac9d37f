/** Powers of two, and exclusive or and right shift of words, on integers. */
module Bits {
  import opened Words
  import opened Products
  import opened Remainders

  function Pow2(n: nat): (p: int)
    ensures p >= 1
  {
    if n == 0 then 1 else 2 * Pow2(n - 1)
  }

  lemma {:induction false} Pow2Add(a: nat, b: nat)
    ensures Pow2(a + b) == Pow2(a) * Pow2(b)
  {
    if a > 0 {
      Pow2Add(a - 1, b);
      Distribute(Pow2(a - 1), Pow2(b));
    }
  }

  lemma Distribute(x: int, y: int)
    ensures 2 * (x * y) == (2 * x) * y
  {
  }

  lemma Pow2Word()
    ensures Pow2(16) == 0x1_0000 && Pow2(20) == 0x10_0000 && Pow2(48) == TWO48 && Pow2(64) == TWO64
  {
    assert Pow2(4) == 16;
    Pow2Add(4, 4);
    Pow2Add(8, 8);
    Pow2Add(16, 4);
    Pow2Add(16, 16);
    Pow2Add(32, 16);
    Pow2Add(32, 32);
  }

  function Xor(a: nat, b: nat): nat
    decreases a + b
  {
    if a == 0 && b == 0 then 0 else (a % 2 + b % 2) % 2 + 2 * Xor(a / 2, b / 2)
  }

  function Or(a: nat, b: nat): nat
    decreases a + b
  {
    if a == 0 && b == 0 then 0 else (if a % 2 == 1 || b % 2 == 1 then 1 else 0) + 2 * Or(a / 2, b / 2)
  }

  function Shr(x: nat, k: nat): nat
    decreases k
  {
    if k == 0 then x else Shr(x / 2, k - 1)
  }

  lemma {:induction false} XorCancel(a: nat, b: nat)
    ensures Xor(Xor(a, b), b) == a
    decreases a + b
  {
    hide Xor;
    var x := Xor(a, b);
    XorHalf(a, b);
    XorHalf(x, b);
    if a + b > 0 {
      XorCancel(a / 2, b / 2);
    } else {
      XorNothing();
    }
  }

  lemma XorNothing()
    ensures Xor(0, 0) == 0
  {
  }

  lemma XorHalf(a: nat, b: nat)
    ensures Xor(a, b) / 2 == Xor(a / 2, b / 2) && Xor(a, b) % 2 == (a % 2 + b % 2) % 2
  {
  }

  lemma {:induction false} XorZero(a: nat)
    ensures Xor(a, 0) == a
  {
    if a > 0 {
      XorZero(a / 2);
    }
  }

  lemma {:induction false} ShrXor(a: nat, b: nat, k: nat)
    ensures Shr(Xor(a, b), k) == Xor(Shr(a, k), Shr(b, k))
    decreases k
  {
    if k > 0 {
      XorHalf(a, b);
      ShrXor(a / 2, b / 2, k - 1);
    }
  }

  lemma {:induction false} ShrAdd(x: nat, j: nat, k: nat)
    ensures Shr(Shr(x, j), k) == Shr(x, j + k)
    decreases j
  {
    if j > 0 {
      ShrAdd(x / 2, j - 1, k);
    }
  }

  /** Words below 2^n: closed under exclusive or, and empty after n shifts. */
  predicate Word(x: nat, n: nat) {
    if n == 0 then x == 0 else Word(x / 2, n - 1)
  }

  lemma {:induction false} XorWord(a: nat, b: nat, n: nat)
    requires Word(a, n) && Word(b, n)
    ensures Word(Xor(a, b), n)
  {
    if n > 0 {
      XorHalf(a, b);
      XorWord(a / 2, b / 2, n - 1);
    }
  }

  lemma {:induction false} ShrWord(x: nat, n: nat, k: nat)
    requires Word(x, n)
    ensures k >= n ==> Shr(x, k) == 0
    ensures Word(Shr(x, k), n)
    decreases n
  {
    if n == 0 {
      ShrZero(k);
    } else if k > 0 {
      ShrWord(x / 2, n - 1, k - 1);
      WordWider(Shr(x, k), n - 1);
    }
  }

  lemma {:induction false} ShrZero(k: nat)
    ensures Shr(0, k) == 0
  {
    if k > 0 {
      ShrZero(k - 1);
    }
  }

  lemma {:induction false} WordWider(x: nat, n: nat)
    requires Word(x, n)
    ensures Word(x, n + 1)
  {
    if n > 0 {
      WordWider(x / 2, n - 1);
    }
  }

  lemma {:induction false} WordBelow(x: nat, n: nat, p: nat)
    requires p == Pow2(n)
    ensures Word(x, n) <==> x < p
  {
    if n > 0 {
      WordBelow(x / 2, n - 1, Pow2(n - 1));
    }
  }

  lemma Word64(x: nat)
    ensures Word(x, 64) <==> x < TWO64
  {
    Pow2Word();
    WordBelow(x, 64, TWO64);
  }

  /** The low n bits of an exclusive or. */
  lemma {:induction false} XorMod(a: nat, b: nat, n: nat)
    ensures Xor(a, b) % Pow2(n) == Xor(a % Pow2(n), b % Pow2(n))
  {
    hide Xor;
    if n == 0 {
      XorNothing();
    } else {
      var p := Pow2(n - 1);
      XorMod(a / 2, b / 2, n - 1);
      XorHalf(a, b);
      XorHalf(a % (2 * p), b % (2 * p));
      HalfMod(a, p);
      HalfMod(b, p);
      HalfMod(Xor(a, b), p);
    }
  }

  /** A remainder modulo 2p, from its last bit and the rest. */
  lemma HalfMod(x: nat, p: nat)
    requires p > 0
    ensures x % (2 * p) == 2 * (x / 2 % p) + x % 2
    ensures x % (2 * p) / 2 == x / 2 % p && x % (2 * p) % 2 == x % 2
  {
    var q, r := x / 2 / p, x / 2 % p;
    assert x == q * (2 * p) + (2 * r + x % 2) by {
      assert x / 2 == q * p + r;
      assert q * (2 * p) == 2 * (q * p);
    }
    ModUnique(q, 2 * r + x % 2, 2 * p);
  }

  /** Bit `p` of a digit whose higher bits have been taken off, and what is left without it. */
  function Top(x: int, p: nat): nat {
    if x >= p then 1 else 0
  }

  function Less(x: int, p: nat): int {
    if x >= p then x - p else x
  }

  function Differ(a: nat, b: nat): nat {
    if a != b then 1 else 0
  }

  /** Exclusive or of digits in base 16. */
  function XorDigit(x: nat, y: nat): nat {
    var (x3, y3) := (Less(x, 8), Less(y, 8));
    var (x2, y2) := (Less(x3, 4), Less(y3, 4));
    var (x1, y1) := (Less(x2, 2), Less(y2, 2));
    8 * Differ(Top(x, 8), Top(y, 8)) + 4 * Differ(Top(x3, 4), Top(y3, 4)) + 2 * Differ(Top(x2, 2), Top(y2, 2))
      + Differ(Top(x1, 1), Top(y1, 1))
  }

  /** One more digit. */
  lemma XorMore(a: nat, b: nat, x: nat, y: nat)
    requires x < 16 && y < 16
    ensures Xor(16 * a + x, 16 * b + y) == 16 * Xor(a, b) + XorDigit(x, y)
  {
    hide Xor, Differ;
    var (x3, y3) := (Less(x, 8), Less(y, 8));
    var (x2, y2) := (Less(x3, 4), Less(y3, 4));
    var (x1, y1) := (Less(x2, 2), Less(y2, 2));
    assert x == 8 * Top(x, 8) + 4 * Top(x3, 4) + 2 * Top(x2, 2) + Top(x1, 1);
    assert y == 8 * Top(y, 8) + 4 * Top(y3, 4) + 2 * Top(y2, 2) + Top(y1, 1);
    hide Top, Less;
    XorFour(a, b, Top(x, 8), Top(x3, 4), Top(x2, 2), Top(x1, 1), Top(y, 8), Top(y3, 4), Top(y2, 2), Top(y1, 1));
  }

  /** Two more digits. */
  lemma XorByte(a: nat, b: nat, x1: nat, x0: nat, y1: nat, y0: nat)
    requires x1 < 16 && x0 < 16 && y1 < 16 && y0 < 16
    ensures Xor(256 * a + (16 * x1 + x0), 256 * b + (16 * y1 + y0)) == 256 * Xor(a, b) + (16 * XorDigit(x1, y1) + XorDigit(x0, y0))
  {
    hide Xor, XorDigit;
    XorMore(a, b, x1, y1);
    XorMore(16 * a + x1, 16 * b + y1, x0, y0);
    assert 16 * (16 * a + x1) + x0 == 256 * a + (16 * x1 + x0);
    assert 16 * (16 * b + y1) + y0 == 256 * b + (16 * y1 + y0);
  }

  lemma XorFour(a: nat, b: nat, x3: nat, x2: nat, x1: nat, x0: nat, y3: nat, y2: nat, y1: nat, y0: nat)
    requires x3 < 2 && x2 < 2 && x1 < 2 && x0 < 2 && y3 < 2 && y2 < 2 && y1 < 2 && y0 < 2
    ensures Xor(16 * a + (8 * x3 + 4 * x2 + 2 * x1 + x0), 16 * b + (8 * y3 + 4 * y2 + 2 * y1 + y0))
            == 16 * Xor(a, b) + (8 * Differ(x3, y3) + 4 * Differ(x2, y2) + 2 * Differ(x1, y1) + Differ(x0, y0))
  {
    hide Xor, Differ;
    var (a1, b1) := (2 * a + x3, 2 * b + y3);
    var (a2, b2) := (2 * a1 + x2, 2 * b1 + y2);
    var (a3, b3) := (2 * a2 + x1, 2 * b2 + y1);
    XorTwo(a, x3, b, y3);
    XorTwo(a1, x2, b1, y2);
    XorTwo(a2, x1, b2, y1);
    XorTwo(a3, x0, b3, y0);
    assert 2 * a3 + x0 == 16 * a + (8 * x3 + 4 * x2 + 2 * x1 + x0);
    assert 2 * b3 + y0 == 16 * b + (8 * y3 + 4 * y2 + 2 * y1 + y0);
  }

  lemma XorTwo(a: nat, x: nat, b: nat, y: nat)
    requires x < 2 && y < 2
    ensures Xor(2 * a + x, 2 * b + y) == 2 * Xor(a, b) + Differ(x, y)
  {
    hide Xor;
    XorHalf(2 * a + x, 2 * b + y);
    assert (2 * a + x) / 2 == a && (2 * a + x) % 2 == x && (2 * b + y) / 2 == b && (2 * b + y) % 2 == y;
  }
}
