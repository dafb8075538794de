/** Bit arithmetic on `size_t`: masks that stand for `% size`, and the bit-smearing loop that
    rounds a requested size up to a power of two.

    A `size_t` is a `nat` below `WORD`; every place where the C++ arithmetic can wrap says so. */
module Bits {

  function Max(a: nat, b: nat): nat {
    if a < b then b else a
  }

  const WORD_BITS: nat := 64
  const WORD: nat := 0x1_0000_0000_0000_0000

  function Pow2(k: nat): (p: nat)
    ensures p >= 1
  {
    if k == 0 then 1 else 2 * Pow2(k - 1)
  }

  ghost predicate IsPow2(n: nat) {
    exists k: nat :: n == Pow2(k)
  }

  function BitAnd(x: nat, y: nat): nat {
    if x == 0 || y == 0 then 0 else 2 * BitAnd(x / 2, y / 2) + (x % 2) * (y % 2)
  }

  function BitOr(x: nat, y: nat): nat
    decreases x + y
  {
    if x == 0 then y else if y == 0 then x
    else 2 * BitOr(x / 2, y / 2) + (if x % 2 == 1 || y % 2 == 1 then 1 else 0)
  }

  function ShiftRight(x: nat, k: nat): nat
    decreases k
  {
    if k == 0 then x else ShiftRight(x / 2, k - 1)
  }

  // ----- Masks -------------------------------------------------------------------------------

  lemma MulAtLeast(d: nat, n: nat)
    requires d >= 1
    ensures d * n >= n
  {
    assert d * n == (d - 1) * n + n;
  }

  lemma DistributeSub(a: nat, b: nat, n: nat)
    requires a >= b
    ensures (a - b) * n == a * n - b * n
  {
  }

  lemma UniqueQuotient(n: nat, q: nat, r: nat, q': nat, r': nat)
    requires n >= 1 && r < n && r' < n && q * n + r == q' * n + r'
    ensures q == q' && r == r'
  {
    if q < q' {
      DistributeSub(q', q, n);
      MulAtLeast(q' - q, n);
    } else if q' < q {
      DistributeSub(q, q', n);
      MulAtLeast(q - q', n);
    }
  }

  lemma ModUnique(x: nat, n: nat, q: nat, r: nat)
    requires n >= 1 && r < n && x == q * n + r
    ensures x % n == r && x / n == q
  {
    var q', r' := x / n, x % n;
    assert x == q' * n + r';
    UniqueQuotient(n, q, r, q', r');
  }

  lemma HalfOfMod(x: nat, p: nat)
    requires p >= 1
    ensures x % (2 * p) == 2 * ((x / 2) % p) + x % 2
  {
    var h := x / 2;
    var q, r := h / p, h % p;
    assert h == q * p + r;
    assert x == q * (2 * p) + (2 * r + x % 2);
    ModUnique(x, 2 * p, q, 2 * r + x % 2);
  }

  /** Dividing with enough added to round up, and one more. */
  lemma DivideUp(size: nat, d: nat, count: nat)
    requires d >= 1 && count == (size + 2 * d - 1) / d
    ensures count >= 1 && (count - 1) * d >= size
    ensures (count - 2) * d < size || size == 0
  {
    var a := size + 2 * d - 1;
    assert a == count * d + a % d;
    assert count != 0;
    DistributeSub(count, 1, d);
    if count >= 2 {
      DistributeSub(count, 2, d);
    }
  }

  /** Masking with 2^k - 1 is the remainder modulo 2^k: the meaning of every `& sizeMask`. */
  lemma {:induction false} MaskIsMod(x: nat, k: nat)
    ensures BitAnd(x, Pow2(k) - 1) == x % Pow2(k)
  {
    if k == 0 {
    } else if x == 0 {
    } else {
      var p := Pow2(k - 1);
      assert (2 * p - 1) / 2 == p - 1 && (2 * p - 1) % 2 == 1;
      MaskIsMod(x / 2, k - 1);
      HalfOfMod(x, p);
      if p == 1 {
        assert BitAnd(x, 1) == 2 * BitAnd(x / 2, 0) + x % 2;
      }
    }
  }

  /** `(i + 1) & mask`, the index after `i` in a block of `mask + 1` slots. */
  lemma MaskedSuccessor(i: nat, mask: nat)
    requires IsPow2(mask + 1) && i <= mask
    ensures BitAnd(i + 1, mask) == if i == mask then 0 else i + 1
  {
    var k: nat :| mask + 1 == Pow2(k);
    MaskIsMod(i + 1, k);
    if i == mask {
      ModUnique(i + 1, mask + 1, 1, 0);
    } else {
      ModUnique(i + 1, mask + 1, 0, i + 1);
    }
  }

  /** The position after `i` in a circle of `n`. */
  function Wrap(i: nat, n: nat): nat {
    if i + 1 == n then 0 else i + 1
  }

  /** `a - b` on `size_t`. */
  function WrapSub(a: nat, b: nat): nat
    requires b < WORD
  {
    if a >= b then a - b else a + WORD - b
  }

  lemma {:induction false} Pow2Add(a: nat, b: nat)
    ensures Pow2(a + b) == Pow2(a) * Pow2(b)
  {
    if a == 0 {
    } else {
      Pow2Add(a - 1, b);
      assert Pow2(a + b) == 2 * (Pow2(a - 1) * Pow2(b)) == (2 * Pow2(a - 1)) * Pow2(b);
    }
  }

  lemma {:induction false} Pow2Monotone(a: nat, b: nat)
    requires a < b
    ensures 2 * Pow2(a) <= Pow2(b)
  {
    if a + 1 < b {
      Pow2Monotone(a, b - 1);
    }
  }

  lemma ByteIsPow2()
    ensures Pow2(8) == 0x100
  {
    assert Pow2(4) == 0x10;
    Pow2Add(4, 4);
  }

  lemma WordIsPow2()
    ensures WORD == Pow2(WORD_BITS)
  {
    hide Pow2;
    ByteIsPow2();
    Pow2Add(8, 8);
    Pow2Add(16, 16);
    Pow2Add(32, 32);
  }

  lemma WordOverMask(mask: nat, k: nat) returns (q: nat)
    requires mask < WORD && mask + 1 == Pow2(k)
    ensures q >= 1 && WORD == q * (mask + 1) && (q - 1) * (mask + 1) == WORD - (mask + 1)
  {
    WordIsPow2();
    if WORD_BITS < k {
      Pow2Monotone(WORD_BITS, k);
    }
    Pow2Add(WORD_BITS - k, k);
    q := Pow2(WORD_BITS - k);
    DistributeSub(q, 1, mask + 1);
  }

  /** `(tail - front) & mask` counts the slots from `front` up to `tail` although the difference may
      have wrapped, because `mask + 1` divides 2^64. */
  lemma MaskedDifference(front: nat, tail: nat, mask: nat)
    requires IsPow2(mask + 1) && mask < WORD && front <= mask && tail <= mask
    ensures BitAnd(WrapSub(tail, front), mask) == if front <= tail then tail - front else tail + mask + 1 - front
  {
    var k: nat :| mask + 1 == Pow2(k);
    MaskIsMod(WrapSub(tail, front), k);
    if front <= tail {
      ModUnique(tail - front, mask + 1, 0, tail - front);
    } else {
      var q := WordOverMask(mask, k);
      ModUnique(WrapSub(tail, front), mask + 1, q - 1, tail + mask + 1 - front);
    }
  }

  /** Doubling a power of two that is less than another does not go beyond that. */
  lemma DoubledPow2(m: nat, n: nat)
    requires IsPow2(m) && IsPow2(n) && m < n
    ensures IsPow2(2 * m) && 2 * m <= n
  {
    var j: nat :| m == Pow2(j);
    var k: nat :| n == Pow2(k);
    assert 2 * m == Pow2(j + 1);
    if j < k {
      Pow2Monotone(j, k);
    } else if k < j {
      Pow2Monotone(k, j);
    }
  }

  // ----- Rounding up to a power of two ---------------------------------------------------------

  /** The least power of two not below `x`, defined without any bit trick. */
  function LeastPow2(x: nat): (p: nat)
    ensures p >= x && p >= 1
    ensures x >= 1 ==> p < 2 * x
  {
    if x <= 1 then 1 else 2 * LeastPow2((x + 1) / 2)
  }

  lemma {:induction false} LeastPow2IsLeast(x: nat, k: nat)
    ensures IsPow2(LeastPow2(x))
    ensures Pow2(k) >= x ==> LeastPow2(x) <= Pow2(k)
    decreases x
  {
    if x <= 1 {
      assert LeastPow2(x) == Pow2(0);
    } else {
      LeastPow2IsLeast((x + 1) / 2, if k == 0 then 0 else k - 1);
      var j: nat :| LeastPow2((x + 1) / 2) == Pow2(j);
      assert LeastPow2(x) == Pow2(j + 1);
    }
  }

  lemma EvenPow2(j: nat)
    requires Pow2(j) >= 2
    ensures Pow2(j) % 2 == 0
  {
    assert Pow2(0) == 1;
    assert Pow2(j) == 2 * Pow2(j - 1);
  }

  /** Rounding up to more than `n` starts above `n`, for a power of two `n`; what is rounded up from `x + 1`
      is at most twice `x`. */
  lemma RoundingBounds(x: nat, n: nat)
    requires x >= 1 && IsPow2(n)
    ensures LeastPow2(x + 1) > n <==> x + 1 > n
    ensures x < LeastPow2(x + 1) <= 2 * x
  {
    hide LeastPow2, Pow2;
    var k: nat :| n == Pow2(k);
    LeastPow2IsLeast(x + 1, k);
    var j: nat :| LeastPow2(x + 1) == Pow2(j);
    EvenPow2(j);
  }

  lemma LeastPow2Unique(x: nat, n: nat)
    requires x <= Pow2(n) && (n == 0 || Pow2(n - 1) < x)
    ensures LeastPow2(x) == Pow2(n)
  {
    LeastPow2IsLeast(x, n);
    var k: nat :| LeastPow2(x) == Pow2(k);
    if k < n - 1 {
      Pow2Monotone(k, n - 1);
    }
    if n < k {
      Pow2Monotone(n, k);
    }
  }

  /** The `w` highest of the `n` bits of `x` are ones. */
  predicate Smeared(x: nat, n: nat, w: nat) {
    x < Pow2(n) && x + Pow2(n - (if w < n then w else n)) >= Pow2(n)
  }

  lemma {:induction false} ShiftHalf(x: nat, w: nat)
    ensures ShiftRight(x, w) / 2 == ShiftRight(x / 2, w)
    decreases w
  {
    if w == 0 {
    } else {
      ShiftHalf(x / 2, w - 1);
    }
  }

  lemma {:induction false} ShiftVanishes(x: nat, w: nat)
    ensures ShiftRight(x, w) == 0 <==> x < Pow2(w)
    decreases w
  {
    if w == 0 {
    } else {
      ShiftVanishes(x / 2, w - 1);
    }
  }

  /** If all but the `s` lowest of `n` bits are ones, shifting those `s` out leaves only ones. */
  lemma {:induction false} ShiftedTopIsOnes(x: nat, n: nat, s: nat, w: nat)
    requires s <= w <= n && x < Pow2(n) && x + Pow2(s) >= Pow2(n)
    ensures ShiftRight(x, w) == Pow2(n - w) - 1
    decreases w
  {
    if w == 0 {
    } else {
      ShiftedTopIsOnes(x / 2, n - 1, if s == 0 then 0 else s - 1, w - 1);
    }
  }

  function Smear(x: nat, w: nat): nat {
    BitOr(x, ShiftRight(x, w))
  }

  /** The recursion of `BitOr` on a smear: the low bit apart, it is the smear of `x / 2`. */
  lemma SmearHalf(x: nat, w: nat)
    requires x >= Pow2(w)
    ensures Smear(x, w) / 2 == Smear(x / 2, w)
    ensures ShiftRight(x, w) % 2 == 1 ==> Smear(x, w) % 2 == 1
  {
    ShiftHalf(x, w);
    ShiftVanishes(x, w);
  }

  lemma ShiftedIsOdd(x: nat, n: nat, w: nat)
    requires w < n <= 2 * w && Smeared(x, n, w)
    ensures ShiftRight(x, w) % 2 == 1
  {
    hide ShiftRight;
    ShiftedTopIsOnes(x, n, n - w, w);
    assert Pow2(n - w) == 2 * Pow2(n - w - 1);
  }

  lemma SmearAll(x: nat, n: nat, w: nat)
    requires n <= w && Smeared(x, n, w)
    ensures Smear(x, w) == x && Smeared(x, n, 2 * w)
  {
    if n < w {
      Pow2Monotone(n, w);
    }
    ShiftVanishes(x, w);
  }

  lemma SmearedTail(x: nat, n: nat, w: nat)
    requires w < n && Smeared(x, n, w)
    ensures Smeared(x / 2, n - 1, w)
  {
    assert Pow2(n - w) == 2 * Pow2(n - 1 - w);
  }

  lemma SmearedExtend(x: nat, n: nat, w: nat)
    requires n >= 1 && Smeared(x / 2, n - 1, w)
    requires n <= w ==> x % 2 == 1
    ensures Smeared(x, n, w)
  {
    if w < n {
      assert Pow2(n - w) == 2 * Pow2(n - 1 - w);
    }
  }

  lemma SmearedIsLarge(x: nat, n: nat, w: nat)
    requires 1 <= w < n && Smeared(x, n, w)
    ensures x >= Pow2(w)
  {
    if n - w < n - 1 {
      Pow2Monotone(n - w, n - 1);
    }
    if w < n - 1 {
      Pow2Monotone(w, n - 1);
    }
  }

  /** One `x |= x >> w` doubles the run of leading ones. */
  lemma {:induction false} SmearStep(x: nat, n: nat, w: nat)
    requires w >= 1 && Smeared(x, n, w)
    ensures Smeared(Smear(x, w), n, 2 * w)
    decreases n
  {
    hide Smear, ShiftRight, Smeared, Pow2;
    if n <= w {
      SmearAll(x, n, w);
    } else {
      SmearedTail(x, n, w);
      SmearStep(x / 2, n - 1, w);
      SmearedIsLarge(x, n, w);
      SmearHalf(x, w);
      if n <= 2 * w {
        ShiftedIsOdd(x, n, w);
      }
      SmearedExtend(Smear(x, w), n, 2 * w);
    }
  }

  ghost function BitLength(x: nat): (n: nat)
    ensures x < Pow2(n)
    ensures n > 0 ==> Pow2(n - 1) <= x
  {
    if x == 0 then 0 else BitLength(x / 2) + 1
  }

  lemma BitLengthOfWord(x: nat)
    requires x < WORD
    ensures BitLength(x) <= WORD_BITS
    ensures x >= WORD / 2 ==> BitLength(x) == WORD_BITS
    ensures x < WORD / 2 ==> BitLength(x) < WORD_BITS
  {
    WordIsPow2();
    var n := BitLength(x);
    assert n <= WORD_BITS;
    if n < WORD_BITS - 1 {
      Pow2Monotone(n, WORD_BITS - 1);
    }
  }

  lemma SmearDone(x: nat, n: nat)
    requires Smeared(x, n, WORD_BITS) && n <= WORD_BITS
    ensures x == Pow2(n) - 1
  {
    assert Pow2(0) == 1;
  }

  /** What `ceilToPow2` is worth: the least power of two where a `size_t` can hold it, else 0. */
  function RoundedUp(x: nat): nat {
    if 1 <= x <= WORD / 2 then LeastPow2(x) else 0
  }

  lemma SmearStart(x: nat, n: nat)
    requires x < WORD && n == BitLength(x)
    ensures Smeared(x, n, 1) && n <= WORD_BITS
  {
    BitLengthOfWord(x);
  }

  /** `x |= x >> w`. */
  method SmearBy(x: nat, w: nat, ghost n: nat) returns (r: nat)
    requires w >= 1 && Smeared(x, n, w)
    ensures Smeared(r, n, 2 * w)
  {
    SmearStep(x, n, w);
    r := BitOr(x, ShiftRight(x, w));
  }

  /** `--x` and `++x` on a `size_t`. */
  function Decrement(x: nat): nat {
    if x == 0 then WORD - 1 else x - 1
  }

  function Increment(x: nat): nat {
    if x == WORD - 1 then 0 else x + 1
  }

  lemma SmearedResult(size: nat, n: nat)
    requires size < WORD && n == BitLength(Decrement(size))
    ensures 1 <= size <= WORD / 2 ==> Increment(Pow2(n) - 1) == LeastPow2(size)
    ensures size == 0 || size > WORD / 2 ==> Increment(Pow2(n) - 1) == 0
  {
    hide BitLength, LeastPow2;
    BitLengthOfWord(Decrement(size));
    WordIsPow2();
    if 1 <= size <= WORD / 2 {
      LeastPow2Unique(size, n);
      if n < WORD_BITS {
        Pow2Monotone(n, WORD_BITS);
      }
    }
  }

  /** `ceilToPow2`: decrement, smear the leading one over all lower bits, increment. For every size
      up to 2^63 the result is the least power of two not below it; 0 and every larger size wrap
      to 0. */
  method CeilToPow2(size: nat) returns (r: nat)
    requires size < WORD
    ensures r == RoundedUp(size)
  {
    var x := Decrement(size);
    ghost var n := BitLength(x);
    SmearStart(x, n);
    x := SmearBy(x, 1, n);
    x := SmearBy(x, 2, n);
    x := SmearBy(x, 4, n);
    var i: nat := 1;
    while i < WORD_BITS / 8
      invariant i == 1 || i == 2 || i == 4 || i == 8
      invariant Smeared(x, n, 8 * i)
      decreases WORD_BITS - i
    {
      x := SmearBy(x, 8 * i, n);
      i := 2 * i;
    }
    SmearDone(x, n);
    SmearedResult(size, n);
    r := Increment(x);
  }
}
