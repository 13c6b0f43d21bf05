/**
 Machine words of the C++ sources: 64-bit wrap-around, the two's complement reading of a
 difference, and the bit masks that stand for "modulo a power of two".
 */
module Words {

  const TWO63: int := 0x8000_0000_0000_0000
  const TWO64: int := 0x1_0000_0000_0000_0000

  /** The value an unsigned 64-bit word holds after computing x. */
  function Wrap64(x: int): nat {
    x % TWO64
  }

  lemma {:induction false} WrapNext(x: nat)
    ensures Wrap64(Wrap64(x) + 1) == Wrap64(x + 1)
  {
  }

  lemma {:induction false} WrapFits(x: int)
    requires 0 <= x < TWO64
    ensures Wrap64(x) == x
  {
  }

  /** The int64_t read from a uint64_t. */
  function Signed64(w: nat): int {
    if w < TWO63 then w else w - TWO64
  }

  /** Bitwise `x & y`. */
  function BitAnd(x: nat, y: nat): nat {
    if x == 0 || y == 0 then 0
    else 2 * BitAnd(x / 2, y / 2) + (if x % 2 == 1 && y % 2 == 1 then 1 else 0)
  }

  /** What the queue's static_assert tests, for a non-empty size. */
  predicate PowerOfTwo(n: nat) {
    n > 0 && BitAnd(n, n - 1) == 0
  }

  function Pow2(k: nat): (r: nat)
    ensures r > 0
  {
    if k == 0 then 1 else 2 * Pow2(k - 1)
  }

  lemma {:induction false} AndSelf(x: nat)
    ensures BitAnd(x, x) == x
  {
    if x > 0 {
      AndSelf(x / 2);
    }
  }

  /** The halving step shared by the inductions below. */
  lemma {:induction false} Halve(n: nat)
    requires PowerOfTwo(n) && n != 1
    ensures n % 2 == 0 && PowerOfTwo(n / 2)
  {
    if n % 2 == 1 {
      assert (n - 1) / 2 == n / 2;
      AndSelf(n / 2);
    } else {
      assert (n - 1) / 2 == n / 2 - 1;
    }
  }

  lemma {:induction false} Pow2IsPowerOfTwo(k: nat)
    ensures PowerOfTwo(Pow2(k))
  {
    if k > 0 {
      Pow2IsPowerOfTwo(k - 1);
      var m := Pow2(k - 1);
      assert (2 * m) / 2 == m && (2 * m - 1) / 2 == m - 1 && (2 * m) % 2 == 0;
    }
  }

  /** The bit test of the static_assert accepts exactly the powers of two. */
  lemma {:induction false} PowerOfTwoExact(n: nat)
    requires n > 0
    ensures BitAnd(n, n - 1) == 0 <==> exists k: nat :: n == Pow2(k)
  {
    if BitAnd(n, n - 1) == 0 {
      if n == 1 {
        assert n == Pow2(0);
      } else {
        Halve(n);
        PowerOfTwoExact(n / 2);
        var k: nat :| n / 2 == Pow2(k);
        assert n == Pow2(k + 1);
      }
    }
    forall k: nat | n == Pow2(k)
      ensures BitAnd(n, n - 1) == 0
    {
      Pow2IsPowerOfTwo(k);
    }
  }

  lemma {:induction false} MulAtLeast(a: int, d: int)
    requires a >= 1 && d > 0
    ensures a * d >= d
  {
    assert a * d == (a - 1) * d + d;
    assert (a - 1) * d >= 0;
  }

  lemma {:induction false} UniqueQuotient(d: int, q: int, r: int, q': int, r': int)
    requires d > 0 && 0 <= r < d && 0 <= r' < d && q * d + r == q' * d + r'
    ensures q == q' && r == r'
  {
    assert (q - q') * d == q * d - q' * d;
    assert (q' - q) * d == q' * d - q * d;
    if q > q' {
      MulAtLeast(q - q', d);
    } else if q < q' {
      MulAtLeast(q' - q, d);
    }
  }

  /** x = q * d + r with 0 <= r < d determines quotient and remainder. */
  lemma {:induction false} DivModUnique(x: int, d: int, q: int, r: int)
    requires d > 0 && 0 <= r < d && x == q * d + r
    ensures x / d == q && x % d == r
  {
    UniqueQuotient(d, q, r, x / d, x % d);
  }

  lemma {:induction false} HalfMod(x: nat, m: nat)
    requires m > 0
    ensures x % (2 * m) == 2 * ((x / 2) % m) + x % 2
  {
    var h := x / 2;
    var q, r := h / m, h % m;
    assert h == q * m + r;
    assert q * (2 * m) == 2 * (q * m);
    DivModUnique(x, 2 * m, q, 2 * r + x % 2);
  }

  /** Masking with size - 1 is reduction modulo size. */
  lemma {:induction false} MaskIsMod(x: nat, n: nat)
    requires PowerOfTwo(n)
    ensures BitAnd(x, n - 1) == x % n
    decreases n
  {
    if n == 1 {
    } else {
      Halve(n);
      MaskIsMod(x / 2, n / 2);
      assert (n - 1) / 2 == n / 2 - 1 && (n - 1) % 2 == 1;
      HalfMod(x, n / 2);
    }
  }

  /** Masking with n - 1 is the residue for all positions only if n is a power of two. */
  lemma {:induction false} MaskExact(n: nat)
    requires n > 0
    ensures (forall x: nat :: BitAnd(x, n - 1) == x % n) <==> PowerOfTwo(n)
  {
    if PowerOfTwo(n) {
      forall x: nat
        ensures BitAnd(x, n - 1) == x % n
      {
        MaskIsMod(x, n);
      }
    }
    if forall x: nat :: BitAnd(x, n - 1) == x % n {
      assert BitAnd(n, n - 1) == n % n;
      DivModUnique(n, n, 1, 0);
    }
  }

  lemma {:induction false} DividedBy(a: int, n: int)
    requires n > 0
    ensures a == a / n * n + a % n
  {
  }

  lemma {:induction false} Doubled(x: int, y: int)
    ensures x * (y * 2) == 2 * (x * y)
  {
  }

  lemma {:induction false} Divides(n: nat, k: nat)
    requires PowerOfTwo(n) && n <= Pow2(k)
    ensures Pow2(k) % n == 0
    decreases k
  {
    if n == 1 {
    } else if k > 0 {
      Halve(n);
      Divides(n / 2, k - 1);
      var q := Pow2(k - 1) / (n / 2);
      DividedBy(Pow2(k - 1), n / 2);
      DividedBy(n, 2);
      Doubled(q, n / 2);
      DivModUnique(Pow2(k), n, q, 0);
    }
  }

  lemma {:induction false} ModAdd(x: int, y: int, n: int)
    requires n > 0 && y % n == 0
    ensures (x + y) % n == x % n
  {
    var q, p := x / n, y / n;
    assert x + y == (q + p) * n + x % n;
    DivModUnique(x + y, n, q + p, x % n);
  }

  lemma {:induction false} Pow2Add(a: nat, b: nat)
    ensures Pow2(a + b) == Pow2(a) * Pow2(b)
  {
    if a > 0 {
      Pow2Add(a - 1, b);
      assert Pow2(a) * Pow2(b) == 2 * (Pow2(a - 1) * Pow2(b));
    }
  }

  lemma {:induction false} Pow2Square(k: nat, p: nat)
    requires Pow2(k) == p
    ensures Pow2(2 * k) == p * p
  {
    Pow2Add(k, k);
  }

  lemma {:induction false} WordRange()
    ensures Pow2(64) == TWO64
  {
    assert Pow2(3) == 2 * Pow2(2) && Pow2(2) == 2 * Pow2(1);
    Pow2Square(4, 16);
    Pow2Square(8, 0x100);
    Pow2Square(16, 0x1_0000);
    Pow2Square(32, 0x1_0000_0000);
  }

  lemma {:induction false} MulAssoc(x: int, y: int, z: int)
    ensures x * (y * z) == (x * y) * z
  {
  }

  lemma {:induction false} MultipleMod(q: int, a: int, n: int)
    requires n > 0 && a % n == 0
    ensures (q * a) % n == 0
  {
    DividedBy(a, n);
    MulAssoc(q, a / n, n);
    DivModUnique(q * a, n, q * (a / n), 0);
  }

  lemma {:induction false} ModOfMod(x: int, a: int, n: int)
    requires n > 0 && a > 0 && a % n == 0
    ensures (x % a) % n == x % n
  {
    DividedBy(x, a);
    MultipleMod(x / a, a, n);
    ModAdd(x % a, x / a * a, n);
  }

  /** A 64-bit counter that wraps still selects the slot of the unbounded count. */
  lemma {:induction false} WrappedMask(x: nat, n: nat)
    requires PowerOfTwo(n) && n <= TWO64
    ensures BitAnd(Wrap64(x), n - 1) == x % n
  {
    WordRange();
    Divides(n, 64);
    MaskIsMod(Wrap64(x), n);
    ModOfMod(x, TWO64, n);
  }

  /** An unsigned difference, read as signed, is the true difference within half the range. */
  lemma {:induction false} SignedDifference(x: int)
    requires -TWO63 <= x < TWO63
    ensures Signed64(Wrap64(x)) == x
  {
    if x < 0 {
      DivModUnique(x, TWO64, -1, x + TWO64);
    } else {
      DivModUnique(x, TWO64, 0, x);
    }
  }

  lemma {:induction false} ModPlus(x: int, n: int, d: int)
    requires n > 0 && 0 <= x % n + d < n
    ensures (x + d) % n == x % n + d
  {
    DivModUnique(x + d, n, x / n, x % n + d);
  }

  lemma {:induction false} ModBorrow(x: int, n: int, d: int)
    requires n > 0 && x % n < d <= n
    ensures (x - d) % n == x % n + n - d
  {
    var q, p := x / n, x % n;
    assert x == q * n + p;
    assert (q - 1) * n == q * n - n;
    DivModUnique(x - d, n, q - 1, p + n - d);
  }

  lemma {:induction false} AtLeastDivisor(x: int, n: int)
    requires n > 0 && x > x % n
    ensures x >= n
  {
    var q := x / n;
    assert x == q * n + x % n;
    MulAtLeast(q, n);
  }

  /** Two indices less than n apart never share a residue. */
  lemma {:induction false} ResiduesApart(i: int, j: int, n: int)
    requires n > 0 && i < j < i + n
    ensures i % n != j % n
  {
    if i % n == j % n {
      var a, b := i / n, j / n;
      assert (b - a) * n == b * n - a * n;
      assert (a - b) * n == a * n - b * n;
      if b > a {
        MulAtLeast(b - a, n);
      } else if a > b {
        MulAtLeast(a - b, n);
      }
    }
  }

  /** Cell of a power-of-two ring that an unbounded position falls into: `pos & (size - 1)`. */
  function Slot(pos: nat, size: nat): (r: nat)
    requires PowerOfTwo(size)
    ensures r < size
  {
    MaskIsMod(pos, size);
    BitAnd(pos, size - 1)
  }

  lemma {:induction false} SlotIsMod(pos: nat, size: nat)
    requires PowerOfTwo(size)
    ensures Slot(pos, size) == pos % size
  {
    MaskIsMod(pos, size);
  }

  /** Positions within one ring length occupy different cells. */
  lemma {:induction false} SlotsApart(i: nat, j: nat, size: nat)
    requires PowerOfTwo(size) && i != j && i < j + size && j < i + size
    ensures Slot(i, size) != Slot(j, size)
  {
    SlotIsMod(i, size);
    SlotIsMod(j, size);
    if i < j {
      ResiduesApart(i, j, size);
    } else {
      ResiduesApart(j, i, size);
    }
  }

  lemma {:induction false} SlotPeriod(i: nat, size: nat)
    requires PowerOfTwo(size)
    ensures Slot(i + size, size) == Slot(i, size)
  {
    SlotIsMod(i, size);
    SlotIsMod(i + size, size);
    DivModUnique(size, size, 1, 0);
    ModAdd(i, size, size);
  }

  /** The cell found from a 64-bit counter that may have wrapped is that of the unbounded count. */
  lemma {:induction false} WrappedSlot(pos: nat, size: nat)
    requires PowerOfTwo(size) && size <= TWO64
    ensures BitAnd(Wrap64(pos), size - 1) == Slot(pos, size)
  {
    WrappedMask(pos, size);
    SlotIsMod(pos, size);
  }

  /** Every cell belongs to a position of any one ring length. */
  lemma {:induction false} EveryCell(first: nat, size: nat, cell: nat) returns (pos: nat)
    requires PowerOfTwo(size) && cell < size
    ensures first <= pos < first + size && Slot(pos, size) == cell
  {
    var r := first % size;
    if cell >= r {
      pos := first + (cell - r);
      ModPlus(first, size, cell - r);
    } else {
      pos := first + (cell - r) + size;
      ModPlus(first, size, cell - r);
      DivModUnique(size, size, 1, 0);
      ModAdd(first + (cell - r), size, size);
    }
    SlotIsMod(pos, size);
  }
}
