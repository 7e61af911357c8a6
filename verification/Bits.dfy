/** Fixed-width words and the bit operations the ring code uses on them. */
module Bits {

  const WORD: nat := 0x1_0000_0000

  type u32 = x: int | 0 <= x < 0x1_0000_0000

  /** `a + b` on uint32. */
  function Add32(a: u32, b: u32): u32 { (a + b) % WORD }

  /** `a - b` on uint32. */
  function Sub32(a: u32, b: u32): u32 { (a - b) % WORD }

  /** `int64(x)` of a 64-bit product: two's complement. */
  function AsInt64(x: int): int {
    var w := x % 0x1_0000_0000_0000_0000;
    if w < 0x8000_0000_0000_0000 then w else w - 0x1_0000_0000_0000_0000
  }

  /** `int32(x)`: two's complement truncation. */
  function AsInt32(x: int): int {
    var w := x % WORD;
    if w < 0x8000_0000 then w else w - WORD
  }

  function Pow2(k: nat): (p: nat)
    ensures p >= 1
  {
    if k == 0 then 1 else 2 * Pow2(k - 1)
  }

  /** Bitwise and of two naturals. */
  function And(a: nat, b: nat): nat
    decreases a
  {
    if a == 0 then 0
    else (if a % 2 == 1 && b % 2 == 1 then 1 else 0) + 2 * And(a / 2, b / 2)
  }

  lemma {:induction false} AndZero(x: nat)
    ensures And(x, 0) == 0
  {
    if x > 0 {
      AndZero(x / 2);
    }
  }

  /** Masking with 2^k - 1 is the remainder modulo 2^k. */
  lemma {:induction false} AndMask(x: nat, k: nat)
    ensures And(x, Pow2(k) - 1) == x % Pow2(k)
  {
    if k == 0 {
      AndZero(x);
    } else {
      AndMask(x / 2, k - 1);
      AndMaskStep(x, Pow2(k - 1));
    }
  }

  lemma AndMaskStep(x: nat, p: nat)
    requires p >= 1 && And(x / 2, p - 1) == x / 2 % p
    ensures And(x, 2 * p - 1) == x % (2 * p)
  {
    assert (2 * p - 1) / 2 == p - 1 && (2 * p - 1) % 2 == 1;
    ModDouble(x, p);
  }

  /** Masking with a single bit tests that bit. */
  lemma {:induction false} AndBit(x: nat, k: nat)
    ensures And(x, Pow2(k)) != 0 <==> x / Pow2(k) % 2 == 1
  {
    if k == 0 {
      if x > 0 { AndZero(x / 2); }
    } else {
      AndBit(x / 2, k - 1);
      var p := Pow2(k - 1);
      assert (2 * p) % 2 == 0 && (2 * p) / 2 == p;
      DivTwice(x, p);
    }
  }

  lemma DivTwice(x: nat, p: nat)
    requires p >= 1
    ensures x / 2 / p == x / (2 * p)
  {
    var q, r := x / 2 / p, x / 2 % p;
    assert x / 2 == q * p + r;
    assert x == q * (2 * p) + (2 * r + x % 2);
    DivUnique(x, 2 * p, q, 2 * r + x % 2);
  }

  lemma DivUnique(x: int, m: int, q: int, r: int)
    requires m > 0 && 0 <= r < m && x == q * m + r
    ensures x / m == q
  {
    ModUnique(x, m, q, r);
    var d := x / m;
    assert x == d * m + r;
    assert (d - q) * m == 0;
    if d > q { MulAtLeast(d - q, m); } else if d < q { MulAtLeast(q - d, m); }
  }

  lemma ModDouble(x: nat, p: nat)
    requires p >= 1
    ensures x % (2 * p) == x % 2 + 2 * (x / 2 % p)
  {
    var q, r := x / 2 / p, x / 2 % p;
    assert x / 2 == q * p + r;
    assert x == q * (2 * p) + (2 * r + x % 2);
    ModUnique(x, 2 * p, q, 2 * r + x % 2);
  }

  /** The remainder is the only small number that differs by a multiple. */
  lemma ModUnique(x: int, m: int, q: int, r: int)
    requires m > 0 && 0 <= r < m && x == q * m + r
    ensures x % m == r
  {
    var q', r' := x / m, x % m;
    assert x == q' * m + r';
    assert (q - q') * m == r' - r;
    if q > q' {
      MulAtLeast(q - q', m);
    } else if q < q' {
      MulAtLeast(q' - q, m);
    }
  }

  lemma MulAtLeast(a: int, m: int)
    requires a >= 1 && m >= 0
    ensures a * m >= m
  {
  }

  /** Consecutive multiples do not overlap. */
  lemma MulNext(t: nat, u: nat, b: nat)
    requires t < u
    ensures t * b + b <= u * b
  {
    MulSplit(t, u - t, b);
    MulAtLeast(u - t, b);
  }

  /** Two numbers less than `m` apart never share a slot modulo `m`. */
  lemma SlotsDiffer(a: int, b: int, m: int)
    requires m > 0 && a < b < a + m
    ensures a % m != b % m
  {
    if a % m == b % m {
      assert a == a / m * m + a % m;
      assert b == b / m * m + b % m;
      assert (b / m - a / m) * m == b - a;
      if b / m - a / m >= 1 {
        MulAtLeast(b / m - a / m, m);
      } else if b / m - a / m <= -1 {
        MulAtLeast(a / m - b / m, m);
      }
      assert false;
    }
  }

  /** A mask no wider than the word sees through the 2^32 wrap-around. */
  lemma WrapThenMask(x: nat, k: nat)
    requires k <= 32
    ensures x % WORD % Pow2(k) == x % Pow2(k)
  {
    Pow2Sum(k, 32 - k);
    Pow2At32();
    ModOfMod(x, Pow2(k), Pow2(32 - k));
  }

  lemma ModOfMod(x: nat, m: nat, f: nat)
    requires m >= 1 && f >= 1 && m * f >= 1
    ensures x % (m * f) % m == x % m
  {
    var w := m * f;
    var y := x % w;
    var q := x / w;
    assert x == q * w + y;
    assert q * w == (q * f) * m by { MulRegroup(q, m, f); }
    assert y == y / m * m + y % m;
    assert x == (q * f + y / m) * m + y % m by { MulSplit(q * f, y / m, m); }
    ModUnique(x, m, q * f + y / m, y % m);
  }

  lemma MulRegroup(q: int, m: int, f: int)
    ensures q * (m * f) == (q * f) * m
  {
  }

  lemma MulSplit(a: int, b: int, m: int)
    ensures (a + b) * m == a * m + b * m
  {
  }

  lemma {:induction false} Pow2Sum(a: nat, b: nat)
    ensures Pow2(a + b) == Pow2(a) * Pow2(b)
  {
    if a > 0 {
      Pow2Sum(a - 1, b);
      assert Pow2(a + b) == 2 * Pow2(a - 1 + b);
    }
  }

  lemma Pow2At32()
    ensures Pow2(31) == 0x8000_0000 && Pow2(32) == WORD
  {
    assert Pow2(8) == 256;
    Pow2Sum(8, 8);
    Pow2Sum(16, 8);
    Pow2Sum(24, 7);
    assert Pow2(7) == 128;
  }

  lemma {:induction false} Pow2Mono(a: nat, b: nat)
    requires a <= b
    ensures Pow2(a) <= Pow2(b)
  {
    if a < b {
      Pow2Mono(a, b - 1);
    }
  }

  lemma SmallPow2(k: nat)
    requires k <= 31
    ensures Pow2(k) + 1 < WORD
  {
    Pow2At32();
    Pow2Mono(k, 31);
  }

  /** A wrapped difference of free-running counters is the true difference. */
  lemma WrappedDifference(a: nat, b: nat)
    requires b <= a < b + WORD
    ensures Sub32(a % WORD, b % WORD) == a - b
  {
    var d := a % WORD - b % WORD;
    assert a == a / WORD * WORD + a % WORD;
    assert b == b / WORD * WORD + b % WORD;
    assert d == (b / WORD - a / WORD) * WORD + (a - b);
    ModUnique(d, WORD, b / WORD - a / WORD, a - b);
  }

  /** A wrapped sum is the sum wrapped. */
  lemma WrappedSum(a: nat, i: u32)
    ensures Add32(a % WORD, i) == (a + i) % WORD
  {
    var s := a % WORD + i;
    assert a == a / WORD * WORD + a % WORD;
    assert a + i == (a / WORD + s / WORD) * WORD + s % WORD;
    ModUnique(a + i, WORD, a / WORD + s / WORD, s % WORD);
  }

  /** `bits.Len32`: the number of bits needed to write `n`. */
  function BitLen(n: nat): nat {
    if n == 0 then 0 else 1 + BitLen(n / 2)
  }

  lemma {:induction false} BitLenBounds(n: nat)
    ensures n < Pow2(BitLen(n))
    ensures n > 0 ==> BitLen(n) > 0 && Pow2(BitLen(n) - 1) <= n
  {
    if n > 0 {
      BitLenBounds(n / 2);
    }
  }

  /** The ring size asked of the kernel; the shift drops the bit at 2^32. */
  function RoundUp2(v: u32): u32 {
    if v <= 1 then 1 else Pow2(BitLen(v - 1)) % WORD
  }

  /** Up to 2^31 the rounded size is the least power of two holding v entries... */
  lemma RoundUp2IsLeast(v: u32)
    requires v <= 0x8000_0000
    ensures exists k: nat :: k <= 31 && RoundUp2(v) == Pow2(k)
    ensures RoundUp2(v) >= v && RoundUp2(v) >= 1
    ensures forall k: nat :: Pow2(k) >= v ==> RoundUp2(v) <= Pow2(k)
  {
    Pow2At32();
    if v <= 1 {
      assert Pow2(0) == 1;
    } else {
      var n := BitLen(v - 1);
      BitLenBounds(v - 1);
      if n > 31 {
        Pow2Mono(31, n - 1);
      }
      Pow2Mono(n, 31);
      assert RoundUp2(v) == Pow2(n);
      forall k: nat | Pow2(k) >= v
        ensures RoundUp2(v) <= Pow2(k)
      {
        if k <= n - 1 {
          Pow2Mono(k, n - 1);
        } else {
          Pow2Mono(n, k);
        }
      }
    }
  }

  /** ...and beyond 2^31 it is zero, so the size holds v entries exactly up to 2^31. */
  lemma RoundUp2HoldsIff(v: u32)
    ensures RoundUp2(v) >= v <==> v <= 0x8000_0000
  {
    if v <= 0x8000_0000 {
      RoundUp2IsLeast(v);
    } else {
      Pow2At32();
      var n := BitLen(v - 1);
      BitLenBounds(v - 1);
      if n < 32 {
        Pow2Mono(n, 31);
      } else if n > 32 {
        Pow2Mono(32, n - 1);
      }
      assert n == 32;
    }
  }
}
