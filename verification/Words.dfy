/** Machine words of the C worker, written as integers: an unsigned result is reduced
    modulo a power of two, a signed reading is the two's-complement one. */
module Words {
  const TWO31: int := 0x8000_0000
  const TWO32: int := 0x1_0000_0000
  const TWO48: int := 0x1_0000_0000_0000
  const TWO63: int := 0x8000_0000_0000_0000
  const TWO64: int := 0x1_0000_0000_0000_0000

  function U32(x: int): nat {
    x % TWO32
  }

  function U64(x: int): nat {
    x % TWO64
  }

  /** The value of a 64-bit word read as `int64_t`. */
  function Signed64(x: int): int {
    var u := U64(x);
    if u < TWO63 then u else u - TWO64
  }
}

/** Products of unknowns, kept apart so that the solver meets them one at a time. */
module Products {
  lemma Monotone(a: int, b: int, c: int)
    requires 0 <= a <= b && 0 <= c
    ensures 0 <= a * c <= b * c
  {
  }

  lemma Monotone2(a: int, b: int, c: int, d: int)
    requires 0 <= a <= b && 0 <= c <= d
    ensures 0 <= a * c <= b * d
  {
    Monotone(a, b, c);
    Monotone(c, d, b);
  }

  function Square(x: int): (s: int)
    ensures s >= 0
  {
    x * x
  }

  lemma SquareBound(x: int, b: nat)
    requires 0 - b <= x <= b
    ensures Square(x) <= b * b
  {
    if x >= 0 {
      Monotone2(x, b, x, b);
    } else {
      Monotone2(0 - x, b, 0 - x, b);
      assert x * x == (0 - x) * (0 - x);
    }
  }

  lemma SquarePositive(x: int)
    requires x != 0
    ensures Square(x) > 0
  {
    if x > 0 {
      Monotone2(1, x, 1, x);
    } else {
      Monotone2(1, 0 - x, 1, 0 - x);
      assert x * x == (0 - x) * (0 - x);
    }
  }

  /** The number of cells of an a by b rectangle, and so the index of row b in one a wide. */
  function Area(a: nat, b: nat): nat {
    a * b
  }

  lemma AreaNext(a: nat, b: nat)
    ensures Area(a, b + 1) == Area(a, b) + a
    ensures Area(a, 0) == 0
  {
  }

  /** Where a grid w wide, listed row by row, keeps its cell (i, j). */
  function Index(w: nat, i: nat, j: nat): nat {
    Area(w, j) + i
  }

  lemma IndexInjective(w: nat, i: nat, j: nat, i': nat, j': nat)
    requires i < w && i' < w && Index(w, i, j) == Index(w, i', j')
    ensures i == i' && j == j'
  {
    hide Area;
    if j < j' {
      AreaNext(w, j);
      AreaMonotone(w, j + 1, w, j');
    } else if j' < j {
      AreaNext(w, j');
      AreaMonotone(w, j' + 1, w, j);
    }
  }

  /** Row j, column i of a w-wide, h-high grid lies inside it. */
  lemma InGrid(w: nat, h: nat, i: nat, j: nat)
    requires i < w && j < h
    ensures Area(w, j) + i < Area(w, j) + w == Area(w, j + 1) <= Area(w, h)
  {
    AreaNext(w, j);
    AreaMonotone(w, j + 1, w, h);
  }

  lemma AreaMonotone(a: nat, b: nat, a': nat, b': nat)
    requires a <= a' && b <= b'
    ensures Area(a, b) <= Area(a', b')
  {
    Monotone2(a, a', b, b');
  }

  lemma AreaQuadruple(a: nat, b: nat)
    ensures Area(2 * a, 2 * b) == 4 * Area(a, b)
  {
    assert (2 * a) * (2 * b) == 4 * (a * b);
  }
}

/** Division with remainder by an unknown modulus. */
module Remainders {
  import opened Products

  lemma QuotientUnique(q: int, r: int, q': int, r': int, m: int)
    requires q * m + r == q' * m + r'
    requires 0 <= r < m && 0 <= r' < m
    ensures q == q' && r == r'
  {
    var d := q - q';
    assert d * m == r' - r;
    if d > 0 {
      Monotone(1, d, m);
    } else if d < 0 {
      Monotone(1, -d, m);
    }
  }

  lemma ModUnique(q: int, r: int, m: int)
    requires 0 <= r < m
    ensures (q * m + r) % m == r && (q * m + r) / m == q
  {
    var t := q * m + r;
    QuotientUnique(q, r, t / m, t % m, m);
  }

  lemma ModAdd(t: int, k: int, m: int)
    requires 0 < m
    ensures (t % m + k) % m == (t + k) % m
  {
    var u := t % m + k;
    assert t + k == (t / m + u / m) * m + u % m by {
      assert (t / m + u / m) * m == t / m * m + u / m * m;
    }
    ModUnique(t / m + u / m, u % m, m);
  }

  /** Numbers that differ by a multiple of m have the same remainder. */
  lemma ModEqual(a: int, b: int, k: int, m: int)
    requires 0 < m && a == b + k * m
    ensures a % m == b % m
  {
    assert a == (b / m + k) * m + b % m;
    ModUnique(b / m + k, b % m, m);
  }

  /** And the other way round. */
  lemma ModDifference(a: int, b: int, m: int) returns (k: int)
    requires 0 < m && a % m == b % m
    ensures a == b + k * m
  {
    k := a / m - b / m;
    assert k * m == a / m * m - b / m * m;
  }

  /** A factor may be replaced by one with the same remainder. */
  lemma ModMulAdd(x: int, x': int, y: int, z: int, m: int)
    requires 0 < m && x % m == x' % m
    ensures (x * y + z) % m == (x' * y + z) % m
  {
    var k := ModDifference(x, x', m);
    assert x * y + z == x' * y + z + (k * y) * m;
    ModEqual(x * y + z, x' * y + z, k * y, m);
  }

  lemma ModSum(x: int, x': int, z: int, m: int)
    requires 0 < m && x % m == x' % m
    ensures (x + z) % m == (x' + z) % m
  {
    ModMulAdd(x, x', 1, z, m);
  }

  /** Reducing by a multiple of m first changes nothing. */
  lemma ModMod(x: int, m: int, c: int)
    requires 0 < m && 0 < c
    ensures 0 < c * m && x % (c * m) % m == x % m
  {
    Monotone(1, c, m);
    var n := c * m;
    assert x == x % n + (x / n * c) * m by {
      assert x / n * n == x / n * c * m;
    }
    ModEqual(x, x % n, x / n * c, m);
  }

  /** Numbers less than m apart have different remainders. */
  lemma NotBetween(j: int, k: int, m: int)
    requires 0 < k - j < m
    ensures k % m != j % m
  {
    if k % m == j % m {
      var c := ModDifference(k, j, m);
      if c > 0 {
        Monotone(1, c, m);
      } else {
        Monotone(0, -c, m);
      }
    }
  }
}

/** Optional values. */
module Wrappers {
  datatype Option<T> = None | Some(value: T)
}

/** Block positions. */
module Points {
  datatype Pos = Pos(x: int, z: int)

  datatype Pos3 = Pos3(x: int, y: int, z: int)
}
