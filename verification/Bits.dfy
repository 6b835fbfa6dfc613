/** Unsigned machine words as bounded integers, with C's shifts and bitwise operators. */
module Bits {

  const WORD: nat := 0x1_0000_0000
  const DWORD: nat := 0x1_0000_0000_0000_0000

  type U32 = x: int | 0 <= x < WORD
  type U64 = x: int | 0 <= x < DWORD

  function Pow2(n: nat): (p: nat)
    ensures p > 0
  {
    if n == 0 then 1 else 2 * Pow2(n - 1)
  }

  function One(c: bool): nat { if c then 1 else 0 }

  /** x >> n */
  function Shr(x: nat, n: nat): (r: nat) {
    if n == 0 then x else Shr(x / 2, n - 1)
  }

  /** The n low bits of x. */
  function Low(x: nat, n: nat): (r: nat)
    ensures r < Pow2(n) && r <= x
  {
    if n == 0 then 0 else x % 2 + 2 * Low(x / 2, n - 1)
  }

  /** x * 2^n by doubling. */
  function Scale(x: nat, n: nat): nat {
    if n == 0 then x else 2 * Scale(x, n - 1)
  }

  /** x << n in a w-bit register. */
  function Shl(x: nat, n: nat, w: nat): nat { Low(Scale(x, n), w) }

  /** x - y in a w-bit register. */
  function Sub(x: nat, y: nat, w: nat): nat {
    if x >= y then Low(x - y, w) else Low(Pow2(w) - Low(y - x, w), w)
  }

  function BitAnd(a: nat, b: nat): nat {
    if a == 0 || b == 0 then 0 else (if a % 2 == 1 && b % 2 == 1 then 1 else 0) + 2 * BitAnd(a / 2, b / 2)
  }

  function BitOr(a: nat, b: nat): nat
    decreases a + b
  {
    if a == 0 then b
    else if b == 0 then a
    else (if a % 2 == 1 || b % 2 == 1 then 1 else 0) + 2 * BitOr(a / 2, b / 2)
  }

  function BitXor(a: nat, b: nat): nat
    decreases a + b
  {
    if a == 0 then b
    else if b == 0 then a
    else (if a % 2 != b % 2 then 1 else 0) + 2 * BitXor(a / 2, b / 2)
  }

  /** The sign bit of a w-bit word copied into every position: an arithmetic shift right by w - 1. */
  function SignMask(x: nat, w: nat): nat
    requires w > 0
  {
    if x >= Pow2(w - 1) then Pow2(w) - 1 else 0
  }

  /** The number of leading zeros of a w-bit word. */
  function Clz(x: nat, w: nat): (z: nat)
    requires x < Pow2(w)
    ensures z <= w
    ensures x == 0 <==> z == w
    ensures x < Pow2(w - z)
    ensures x > 0 ==> Pow2(w - z - 1) <= x
  {
    if w == 0 then 0
    else if x >= Pow2(w - 1) then 0
    else 1 + Clz(x, w - 1)
  }

  /** The number of trailing zeros. */
  function Ctz(x: nat): (z: nat)
    requires x > 0
    ensures Low(x, z) == 0
    ensures Shr(x, z) % 2 == 1
  {
    if x % 2 == 1 then 0 else 1 + Ctz(x / 2)
  }

  lemma {:induction false} SplitBits(x: nat, n: nat)
    ensures x == Scale(Shr(x, n), n) + Low(x, n)
  {
    if n > 0 {
      SplitBits(x / 2, n - 1);
    }
  }

  lemma {:induction false} JoinBits(x: nat, n: nat, hi: nat, lo: nat)
    requires lo < Pow2(n) && x == Scale(hi, n) + lo
    ensures Shr(x, n) == hi && Low(x, n) == lo
  {
    if n > 0 {
      JoinBits(x / 2, n - 1, hi, lo / 2);
    }
  }

  lemma {:induction false} ScaleIsProduct(x: nat, n: nat)
    ensures Scale(x, n) == x * Pow2(n)
  {
    if n > 0 {
      ScaleIsProduct(x, n - 1);
      Associate(x, 2, Pow2(n - 1));
    }
  }

  lemma {:induction false} ScaleMonotone(x: nat, y: nat, n: nat)
    requires x <= y
    ensures Scale(x, n) <= Scale(y, n)
    ensures Scale(1, n) == Pow2(n) && Scale(0, n) == 0
  {
    if n > 0 {
      ScaleMonotone(x, y, n - 1);
    }
  }

  lemma LowSmall(x: nat, n: nat)
    requires x < Pow2(n)
    ensures Low(x, n) == x && Shr(x, n) == 0
  {
    ScaleMonotone(0, 0, n);
    JoinBits(x, n, 0, x);
  }

  lemma Distribute(a: int, b: int, c: int)
    ensures (a + b) * c == a * c + b * c
  {
  }

  lemma Associate(a: int, b: int, c: int)
    ensures a * b * c == a * (b * c)
    ensures a * (b * c) == b * (a * c)
  {
  }

  lemma MulMonotone(a: nat, b: nat, c: nat)
    requires a <= b
    ensures a * c <= b * c
  {
    assert b * c == a * c + (b - a) * c;
  }

  lemma DivModUnique(a: int, d: nat, q: int, r: int)
    requires d > 0 && 0 <= r < d && a == q * d + r
    ensures a / d == q && a % d == r
  {
    DivModWitness(a, d);
    QuotientUnique(d, a / d, a % d, q, r);
  }

  lemma DivModWitness(a: int, d: nat)
    requires d > 0
    ensures a == a / d * d + a % d && 0 <= a % d < d
  {
  }

  lemma QuotientUnique(d: nat, q0: int, r0: int, q: int, r: int)
    requires 0 <= r < d && 0 <= r0 < d && q0 * d + r0 == q * d + r
    ensures q0 == q && r0 == r
  {
    assert (q0 - q) * d == r - r0;
    if q0 > q {
      MulGrows(d, q0 - q);
    } else if q0 < q {
      MulGrows(d, q - q0);
    }
  }

  lemma {:induction false} Pow2Add(a: nat, b: nat)
    ensures Pow2(a + b) == Pow2(a) * Pow2(b)
  {
    if a > 0 {
      Pow2Add(a - 1, b);
      assert Pow2(a + b) == 2 * Pow2(a - 1 + b);
    }
  }

  lemma {:induction false} Pow2Monotone(a: nat, b: nat)
    requires a <= b
    ensures Pow2(a) <= Pow2(b)
  {
    Pow2Add(a, b - a);
    assert Pow2(a) * Pow2(b - a) >= Pow2(a) by { MulGrows(Pow2(a), Pow2(b - a)); }
  }

  lemma MulGrows(a: nat, b: nat)
    requires b > 0
    ensures a * b >= a
  {
  }

  lemma WordPowers()
    ensures Pow2(16) == 0x1_0000 && Pow2(31) == 0x8000_0000
    ensures Pow2(32) == WORD && Pow2(63) == 0x8000_0000_0000_0000 && Pow2(64) == DWORD
  {
    assert Pow2(8) == 256;
    Pow2Add(8, 8);
    Pow2Add(15, 16);
    Pow2Add(16, 16);
    Pow2Add(31, 32);
    Pow2Add(32, 32);
    assert Pow2(16) == 2 * Pow2(15) && Pow2(32) == 2 * Pow2(31);
  }

  lemma LowIsModulo(x: nat, k: nat)
    ensures Low(x, k) == x % Pow2(k) && Shr(x, k) == x / Pow2(k)
  {
    SplitBits(x, k);
    ScaleIsProduct(Shr(x, k), k);
    DivModUnique(x, Pow2(k), Shr(x, k), Low(x, k));
  }

  lemma {:induction false} ScaleSum(x: nat, y: nat, m: nat)
    ensures Scale(x + y, m) == Scale(x, m) + Scale(y, m)
  {
    if m > 0 {
      ScaleSum(x, y, m - 1);
    }
  }

  lemma {:induction false} OrBound(a: nat, b: nat, h: nat)
    requires a < Pow2(h) && b < Pow2(h)
    ensures BitOr(a, b) < Pow2(h)
  {
    if a != 0 && b != 0 {
      OrBound(a / 2, b / 2, h - 1);
    }
  }

  /** Masking with k one bits keeps the k low bits. */
  lemma {:induction false} AndLowMask(a: nat, k: nat)
    ensures BitAnd(a, Pow2(k) - 1) == Low(a, k)
  {
    if k == 0 {
    } else if a == 0 {
      LowSmall(0, k);
    } else {
      AndLowMask(a / 2, k - 1);
      var m, p := Pow2(k) - 1, Pow2(k - 1);
      assert m % 2 == 1 && m / 2 == p - 1;
    }
  }

  lemma AndAllOnes(a: nat, k: nat)
    requires a < Pow2(k)
    ensures BitAnd(a, Pow2(k) - 1) == a
  {
    AndLowMask(a, k);
    LowSmall(a, k);
  }

  /** Operands without common bits: the low one below 2^k, the high one a multiple of 2^k. */
  lemma {:induction false} OrDisjoint(a: nat, b: nat, k: nat)
    requires b < Pow2(k)
    ensures BitOr(Scale(a, k), b) == Scale(a, k) + b
  {
    if k > 0 {
      OrDisjoint(a, b / 2, k - 1);
    }
  }

  /** Flipping every bit of a w-bit word. */
  lemma {:induction false} XorAllOnes(a: nat, w: nat)
    requires a < Pow2(w)
    ensures BitXor(a, Pow2(w) - 1) == Pow2(w) - 1 - a
  {
    if a == 0 || w == 0 {
    } else {
      XorAllOnes(a / 2, w - 1);
      assert (Pow2(w) - 1) % 2 == 1 && (Pow2(w) - 1) / 2 == Pow2(w - 1) - 1;
    }
  }

  lemma {:induction false} AndCommutes(a: nat, b: nat)
    ensures BitAnd(a, b) == BitAnd(b, a)
  {
    if a != 0 && b != 0 {
      AndCommutes(a / 2, b / 2);
    }
  }

  /** d & (d - 1) vanishes exactly for powers of two, which are then 2 to the trailing zero count. */
  lemma {:induction false} PowerOfTwoTest(d: nat)
    requires d > 0
    ensures BitAnd(d, d - 1) == 0 <==> d == Pow2(Ctz(d))
  {
    if d == 1 {
    } else if d % 2 == 1 {
      assert (d - 1) % 2 == 0 && (d - 1) / 2 == d / 2;
      AndSelf(d / 2);
    } else {
      PowerOfTwoTest(d / 2);
      assert (d - 1) / 2 == d / 2 - 1;
    }
  }

  lemma {:induction false} AndSelf(a: nat)
    ensures BitAnd(a, a) == a
  {
    if a > 0 {
      AndSelf(a / 2);
    }
  }

  /** Division by repeated subtraction, the reference for the division routines. */
  function Quot(n: nat, d: nat): (q: nat)
    requires d > 0
    ensures q <= n
    ensures d > 1 && n > 0 ==> q < n
  {
    if n < d then 0 else 1 + Quot(n - d, d)
  }

  function Rem(n: nat, d: nat): (r: nat)
    requires d > 0
    ensures r < d && r <= n
  {
    if n < d then n else Rem(n - d, d)
  }

  lemma {:induction false} QuotRem(n: nat, d: nat)
    requires d > 0
    ensures n == Quot(n, d) * d + Rem(n, d)
  {
    if n >= d {
      QuotRem(n - d, d);
      Distribute(1, Quot(n - d, d), d);
    }
  }

  lemma QuotUnique(n: nat, d: nat, q: nat, r: nat)
    requires r < d && n == q * d + r
    ensures Quot(n, d) == q && Rem(n, d) == r
  {
    QuotRem(n, d);
    QuotientUnique(d, Quot(n, d), Rem(n, d), q, r);
  }

  /** Repeated subtraction is integer division. */
  lemma QuotIsDivision(n: nat, d: nat)
    requires d > 0
    ensures Quot(n, d) == n / d && Rem(n, d) == n % d
  {
    QuotRem(n, d);
    DivModUnique(n, d, Quot(n, d), Rem(n, d));
  }

  /** The value of a w-bit word read as two's complement. */
  function Signed(x: nat, w: nat): int
    requires w > 0
  {
    if x >= Pow2(w - 1) then x - Pow2(w) else x
  }

  /** The same for a 32-bit word. */
  function SignedWord(x: U32): (v: int)
    ensures v == Signed(x, 32)
  {
    WordPowers();
    if x >= 0x8000_0000 then x - WORD else x
  }

  /** A loop counter that wraps at m, after n passes. */
  function Counter(n: nat, m: nat): (c: nat)
    requires m > 0
    ensures c < m
  {
    if n == 0 then 0 else (Counter(n - 1, m) + 1) % m
  }

  lemma SmallRemainder(n: nat, m: nat)
    requires n < m
    ensures n % m == n
  {
    DivModUnique(n, m, 0, n);
  }

  lemma {:induction false} CounterCounts(n: nat, m: nat)
    requires n < m
    ensures Counter(n, m) == n
  {
    if n > 0 {
      CounterCounts(n - 1, m);
      SmallRemainder(n, m);
    }
  }

  /** The counter gets as far as the bound if and only if the bound is a number it can hold. */
  lemma CounterReaches(bound: nat, m: nat)
    requires m > 0
    ensures (exists passes: nat :: Counter(passes, m) >= bound) <==> bound < m
  {
    if bound < m { CounterCounts(bound, m); }
  }

  // ---- what the operators mean, bit by bit ----

  /** Bit k of x. */
  function Bit(x: nat, k: nat): bool { x / Pow2(k) % 2 == 1 }

  lemma BitBelow(x: nat, k: nat)
    requires k > 0
    ensures Bit(x, k) == Bit(x / 2, k - 1)
  {
    LowIsModulo(x, k);
    LowIsModulo(x / 2, k - 1);
  }

  lemma LowestBit(x: nat)
    ensures Bit(x, 0) == (x % 2 == 1)
  {
  }

  lemma AndParts(a: nat, b: nat)
    ensures BitAnd(a, b) / 2 == BitAnd(a / 2, b / 2)
    ensures BitAnd(a, b) % 2 == One(a % 2 == 1 && b % 2 == 1)
  {
  }

  lemma {:induction false} AndBit(a: nat, b: nat, k: nat)
    ensures Bit(BitAnd(a, b), k) == (Bit(a, k) && Bit(b, k))
  {
    AndParts(a, b);
    if k == 0 {
      LowestBit(a);
      LowestBit(b);
      LowestBit(BitAnd(a, b));
    } else {
      BitBelow(a, k);
      BitBelow(b, k);
      BitBelow(BitAnd(a, b), k);
      AndBit(a / 2, b / 2, k - 1);
    }
  }

  lemma OrParts(a: nat, b: nat)
    ensures BitOr(a, b) / 2 == BitOr(a / 2, b / 2)
    ensures BitOr(a, b) % 2 == One(a % 2 == 1 || b % 2 == 1)
  {
  }

  lemma {:induction false} OrBit(a: nat, b: nat, k: nat)
    ensures Bit(BitOr(a, b), k) == (Bit(a, k) || Bit(b, k))
  {
    OrParts(a, b);
    if k == 0 {
      LowestBit(a);
      LowestBit(b);
      LowestBit(BitOr(a, b));
    } else {
      BitBelow(a, k);
      BitBelow(b, k);
      BitBelow(BitOr(a, b), k);
      OrBit(a / 2, b / 2, k - 1);
    }
  }

  lemma XorParts(a: nat, b: nat)
    ensures BitXor(a, b) / 2 == BitXor(a / 2, b / 2)
    ensures BitXor(a, b) % 2 == One(a % 2 != b % 2)
  {
  }

  lemma {:induction false} XorBit(a: nat, b: nat, k: nat)
    ensures Bit(BitXor(a, b), k) == (Bit(a, k) != Bit(b, k))
  {
    XorParts(a, b);
    if k == 0 {
      LowestBit(a);
      LowestBit(b);
      LowestBit(BitXor(a, b));
    } else {
      BitBelow(a, k);
      BitBelow(b, k);
      BitBelow(BitXor(a, b), k);
      XorBit(a / 2, b / 2, k - 1);
    }
  }

  /** The bits decide the number. */
  lemma {:induction false} BitsDecide(a: nat, b: nat)
    requires forall k: nat :: Bit(a, k) == Bit(b, k)
    ensures a == b
    decreases a + b
  {
    assert Bit(a, 0) == Bit(b, 0);
    if a > 0 || b > 0 {
      forall k: nat ensures Bit(a / 2, k) == Bit(b / 2, k) {
        BitBelow(a, k + 1);
        BitBelow(b, k + 1);
        assert Bit(a, k + 1) == Bit(b, k + 1);
      }
      BitsDecide(a / 2, b / 2);
    }
  }

  /** The one number in the signed range that is congruent to the word. */
  lemma SignedMeaning(x: nat, w: nat, v: int)
    requires w > 0 && x < Pow2(w)
    ensures Signed(x, w) == v <==> 0 - Pow2(w - 1) <= v < Pow2(w - 1) && (v == x || v == x - Pow2(w))
  {
  }
}
