/** Software division of system.c: a shift-subtract loop whose comparison is a sign bit. */
module Division {
  import opened Bits

  /** r:q of the loop is a partial division of n by d. The `sr` low bits of n are still to come and
      stand at the top of q; below them stands the quotient `k` so far, its last bit held in `carry`. */
  ghost predicate Partial(n: nat, d: nat, w: nat, sr: nat, q: nat, r: nat, carry: nat, k: nat) {
    && sr <= w
    && r < d
    && Shr(n, sr) == d * k + r
    && k < Pow2(w - sr)
    && q < Pow2(w)
    && Shr(q, w - sr) == Low(n, sr)
    && Low(q, w - sr) == k / 2
    && carry == k % 2
  }

  /** What normalisation leaves: the divisor is at most half the word range, or a single
      iteration is left and the dividend has its top bit set. */
  ghost predicate Normalised(n: nat, d: nat, w: nat, sr: nat, k: nat) {
    w > 0 && (d <= Pow2(w - 1) || (sr == 1 && k == 0 && n >= Pow2(w - 1)))
  }

  /** r after the double-length shift of r:q. */
  function ShiftedR(r: nat, q: nat, w: nat): nat
    requires w > 0
  {
    BitOr(Shl(r, 1, w), Shr(q, w - 1))
  }

  /** q after the shift; the last comparison's result enters at the bottom. */
  function ShiftedQ(q: nat, carry: nat, w: nat): nat {
    BitOr(Shl(q, 1, w), carry)
  }

  /** The branchless comparison: all ones when r >= d, zero otherwise. */
  function CompareMask(d: nat, r: nat, w: nat): nat
    requires w > 0
  {
    SignMask(Sub(d, r + 1, w), w)
  }

  lemma ShiftByOne(a: nat, bit: nat, w: nat)
    requires w > 0 && bit < 2
    ensures BitOr(Shl(a, 1, w), bit) == 2 * Low(a, w - 1) + bit
    ensures 2 * Low(a, w - 1) + bit < Pow2(w)
  {
    assert Scale(a, 1) == 2 * a by { assert Scale(a, 0) == a; }
    assert Low(2 * a, w) == 2 * Low(a, w - 1) by { assert 2 * a / 2 == a && 2 * a % 2 == 0; }
    OrLastBit(Low(a, w - 1), bit);
  }

  lemma OrLastBit(x: nat, bit: nat)
    requires bit < 2
    ensures BitOr(2 * x, bit) == 2 * x + bit
  {
    assert 2 * x / 2 == x && 2 * x % 2 == 0 && BitOr(x, 0) == x;
  }

  /** Shifts compose, and the low bits of a shifted word are the high part of its low bits. */
  lemma {:induction false} ShiftShift(x: nat, a: nat, b: nat)
    ensures Shr(Shr(x, a), b) == Shr(x, a + b)
    ensures Low(Shr(x, a), b) == Shr(Low(x, a + b), a)
    ensures Low(Low(x, a + b), a) == Low(x, a)
  {
    if a > 0 {
      ShiftShift(x / 2, a - 1, b);
    }
  }

  /** One more bit of x above its n low bits. */
  lemma {:induction false} TopBit(x: nat, n: nat)
    ensures Shr(x, n) == 2 * Shr(x, n + 1) + Shr(x, n) % 2
    ensures Shr(Low(x, n + 1), n) == Shr(x, n) % 2
    ensures Low(Low(x, n + 1), n) == Low(x, n)
  {
    if n > 0 {
      TopBit(x / 2, n - 1);
    }
  }

  /** The double-length shift takes the next bit of n off the top of q. */
  lemma NextBit(n: nat, w: nat, sr: nat, q: nat)
    requires 0 < sr <= w && Shr(q, w - sr) == Low(n, sr)
    ensures Shr(q, w - 1) == Shr(n, sr - 1) % 2
    ensures Shr(Low(q, w - 1), w - sr) == Low(n, sr - 1)
    ensures Low(Low(q, w - 1), w - sr) == Low(q, w - sr)
  {
    ShiftShift(q, w - sr, sr - 1);
    TopBit(n, sr - 1);
  }

  /** Normalisation keeps r below twice the divisor and d - r - 1 inside the signed range,
      so its sign bit decides r >= d. */
  lemma SignDecides(d: nat, r: nat, w: nat)
    requires w > 0 && d > 0 && d < Pow2(w) && r < Pow2(w) && r < 2 * d
    requires d <= Pow2(w - 1) || r >= Pow2(w - 1)
    ensures CompareMask(d, r, w) == if r >= d then Pow2(w) - 1 else 0
  {
    var h := Pow2(w - 1);
    if r >= d {
      LowSmall(r + 1 - d, w);
      LowSmall(2 * h - (r + 1 - d), w);
    } else {
      LowSmall(d - r - 1, w);
    }
  }

  lemma ShiftedQuotient(n: nat, d: nat, w: nat, sr: nat, q: nat, r: nat, carry: nat, k: nat)
    requires sr > 0 && Partial(n, d, w, sr, q, r, carry, k)
    ensures Shr(q, w - 1) == Shr(n, sr - 1) % 2
    ensures ShiftedQ(q, carry, w) < Pow2(w)
    ensures Shr(ShiftedQ(q, carry, w), w - sr + 1) == Low(n, sr - 1)
    ensures Low(ShiftedQ(q, carry, w), w - sr + 1) == k
  {
    NextBit(n, w, sr, q);
    ShiftByOne(q, carry, w);
    ShiftInBit(Low(q, w - 1), carry, w - sr);
  }

  lemma ShiftInBit(x: nat, bit: nat, n: nat)
    requires bit < 2
    ensures Shr(2 * x + bit, n + 1) == Shr(x, n)
    ensures Low(2 * x + bit, n + 1) == 2 * Low(x, n) + bit
  {
    assert (2 * x + bit) / 2 == x;
  }

  lemma ShiftedRemainder(n: nat, d: nat, w: nat, sr: nat, q: nat, r: nat, carry: nat, k: nat)
    requires 0 < sr <= w && n < Pow2(w) && Shr(q, w - 1) == Shr(n, sr - 1) % 2
    requires Shr(n, sr) == d * k + r
    ensures ShiftedR(r, q, w) == 2 * r + Shr(n, sr - 1) % 2 < Pow2(w)
    ensures Shr(n, sr - 1) == 2 * Shr(n, sr) + Shr(n, sr - 1) % 2
  {
    TopBit(n, sr - 1);
    ShrBound(n, w, sr - 1);
    ProductNonNegative(d, k);
    LowSmall(r, w - 1);
    ShiftByOne(r, Shr(n, sr - 1) % 2, w);
  }

  lemma ProductNonNegative(a: nat, b: nat)
    ensures a * b >= 0
  {
  }

  lemma BringDown(d: nat, k: nat, r: nat, bit: nat, h: nat)
    requires h == d * k + r
    ensures 2 * h + bit == d * (2 * k) + (2 * r + bit)
    ensures 2 * r + bit >= d ==> 2 * h + bit == d * (2 * k + 1) + (2 * r + bit - d)
  {
    Associate(2, d, k);
    Distribute(2 * k, 1, d);
  }

  /** One iteration brings down one bit of the dividend and adds one bit to the quotient. */
  lemma Iteration(n: nat, d: nat, w: nat, sr: nat, q: nat, r: nat, carry: nat, k: nat) returns (k': nat)
    requires sr > 0 && Partial(n, d, w, sr, q, r, carry, k)
    requires n < Pow2(w) && 0 < d < Pow2(w) && Normalised(n, d, w, sr, k)
    ensures var r1 := ShiftedR(r, q, w);
      var s := CompareMask(d, r1, w);
      && r1 < 2 * d
      && s == (if r1 >= d then Pow2(w) - 1 else 0)
      && Partial(n, d, w, sr - 1, ShiftedQ(q, carry, w), Sub(r1, BitAnd(d, s), w), BitAnd(s, 1), k')
    ensures sr - 1 > 0 ==> Normalised(n, d, w, sr - 1, k')
  {
    var bit, r1 := Shr(n, sr - 1) % 2, ShiftedR(r, q, w);
    ShiftedQuotient(n, d, w, sr, q, r, carry, k);
    ShiftedRemainder(n, d, w, sr, q, r, carry, k);
    BringDown(d, k, r, bit, Shr(n, sr));
    SignDecides(d, r1, w);
    MaskedSubtract(d, r1, w);
    k' := 2 * k + (if r1 >= d then 1 else 0);
  }

  lemma {:induction false} ShrBound(x: nat, w: nat, n: nat)
    requires n <= w && x < Pow2(w)
    ensures Shr(x, n) <= x && Shr(x, n) < Pow2(w - n)
  {
    if n > 0 {
      ShrBound(x / 2, w - 1, n - 1);
    }
  }

  lemma MaskedSubtract(d: nat, r: nat, w: nat)
    requires w > 0 && 0 < d < Pow2(w) && r < Pow2(w)
    ensures BitAnd(Pow2(w) - 1, 1) == 1 && BitAnd(0, 1) == 0
    ensures r >= d ==> Sub(r, BitAnd(d, Pow2(w) - 1), w) == r - d
    ensures Sub(r, BitAnd(d, 0), w) == r
  {
    assert (Pow2(w) - 1) % 2 == 1;
    assert BitAnd((Pow2(w) - 1) / 2, 0) == 0;
    AndAllOnes(d, w);
    if r >= d {
      LowSmall(r - d, w);
    }
    LowSmall(r, w);
  }

  /** Loop entry: q holds the sr low bits of the dividend left-justified, r the rest. */
  lemma Entry(n: nat, d: nat, w: nat, sr: nat)
    requires 0 < sr < w && n < Pow2(w) && Shr(n, sr) < d
    ensures Partial(n, d, w, sr, Shl(n, w - sr, w), Shr(n, sr), 0, 0)
  {
    LeftJustify(n, w - sr, sr, w);
    EmptyQuotient(n, d, w, sr, Shl(n, w - sr, w), Shr(n, sr));
  }

  lemma EmptyQuotient(n: nat, d: nat, w: nat, sr: nat, q: nat, r: nat)
    requires sr <= w && r < d && Shr(n, sr) == r && q < Pow2(w)
    requires Shr(q, w - sr) == Low(n, sr) && Low(q, w - sr) == 0
    ensures Partial(n, d, w, sr, q, r, 0, 0)
  {
  }

  lemma {:induction false} LeftJustify(n: nat, m: nat, a: nat, w: nat)
    requires w == m + a
    ensures Shr(Low(Scale(n, m), w), m) == Low(n, a)
    ensures Low(Low(Scale(n, m), w), m) == 0
  {
    if m > 0 {
      LeftJustify(n, m - 1, a, w - 1);
    }
  }

  /** The unsigned difference of two leading zero counts; it wraps when n has more of them. */
  function ShiftDistance(n: nat, d: nat, w: nat): nat
    requires w <= 64 && n < Pow2(w) && d < Pow2(w)
  {
    var zd, zn := Clz(d, w), Clz(n, w);
    if zd >= zn then zd - zn else zd + WORD - zn
  }

  /** A small distance left-justifies the divisor against the dividend; a large one means n < d. */
  lemma ClzDistance(n: nat, d: nat, w: nat)
    requires w <= 64 && 0 < n < Pow2(w) && 0 < d < Pow2(w)
    ensures var sr := ShiftDistance(n, d, w);
      if sr > w - 1 then n < d
      else Shr(n, sr + 1) < d && (d > Pow2(w - 1) ==> sr == 0 && n >= Pow2(w - 1))
  {
    var zn, zd := Clz(n, w), Clz(d, w);
    if zd < zn {
      Pow2Monotone(w - zn, w - zd - 1);
    } else {
      ShrBound(n, w - zn, zd - zn + 1);
    }
  }

  /** What the loop leaves behind once all bits are brought down. */
  lemma Finish(n: nat, d: nat, w: nat, q: nat, r: nat, carry: nat, k: nat)
    requires w > 0 && 0 < d && Partial(n, d, w, 0, q, r, carry, k)
    ensures ShiftedQ(q, carry, w) == k == Quot(n, d) && r == Rem(n, d)
  {
    LowSmall(q, w);
    LastBit(k, w);
    ShrNothing(n);
    Commuted(d, k);
    QuotUnique(n, d, k, r);
  }

  /** The last quotient bit shifted in. */
  lemma LastBit(k: nat, w: nat)
    requires w > 0 && k < Pow2(w)
    ensures ShiftedQ(k / 2, k % 2, w) == k
  {
    HalfFits(k, w);
    LowSmall(k / 2, w - 1);
    ShiftByOne(k / 2, k % 2, w);
  }

  lemma HalfFits(k: nat, w: nat)
    requires w > 0 && k < Pow2(w)
    ensures k / 2 < Pow2(w - 1) && 2 * (k / 2) + k % 2 == k
  {
  }

  lemma ShrNothing(n: nat)
    ensures Shr(n, 0) == n
  {
  }

  lemma Commuted(a: int, b: int)
    ensures a * b == b * a
  {
  }

  lemma SmallQuotient(n: nat, d: nat)
    requires n < d
    ensures Quot(n, d) == 0 && Rem(n, d) == n
  {
  }

  /** __udivsi3 */
  method UDivSI3(n: U32, d: U32) returns (q: U32)
    ensures q == if d == 0 then 0 else Quot(n, d)
  {
    WordPowers();
    q := UDiv(n, d, 32);
  }

  /** The same for words of any width up to 64 bits. */
  method UDiv(n: nat, d: nat, bits: nat) returns (q: nat)
    requires 0 < bits <= 64 && n < Pow2(bits) && d < Pow2(bits)
    ensures q == if d == 0 then 0 else Quot(n, d)
  {
    if d == 0 {
      return 0;
    }
    if n == 0 {
      SmallQuotient(n, d);
      return 0;
    }
    var sr := ShiftDistance(n, d, bits);
    ClzDistance(n, d, bits);
    if sr > bits - 1 {
      SmallQuotient(n, d);
      return 0;
    }
    if sr == bits - 1 {
      UnitDivisor(n, d, bits);
      return n;
    }
    sr := sr + 1;
    var left, r, carry := Shl(n, bits - sr, bits), Shr(n, sr), 0;
    Entry(n, d, bits, sr);
    ghost var k := 0;
    while sr > 0
      invariant 0 <= sr && Partial(n, d, bits, sr, left, r, carry, k)
      invariant sr > 0 ==> Normalised(n, d, bits, sr, k)
    {
      k := Iteration(n, d, bits, sr, left, r, carry, k);
      r, left := ShiftedR(r, left, bits), ShiftedQ(left, carry, bits);
      var s := CompareMask(d, r, bits);
      carry := BitAnd(s, 1);
      r := Sub(r, BitAnd(d, s), bits);
      sr := sr - 1;
    }
    Finish(n, d, bits, left, r, carry, k);
    q := ShiftedQ(left, carry, bits);
  }

  lemma UnitDivisor(n: nat, d: nat, w: nat)
    requires w <= 64 && 0 < n < Pow2(w) && 0 < d < Pow2(w) && ShiftDistance(n, d, w) == w - 1
    ensures Quot(n, d) == n && Rem(n, d) == 0
  {
    assert Clz(d, w) == w - 1 && Pow2(1) == 2 && d == 1;
    QuotUnique(n, 1, n, 0);
  }

  /** __umodsi3: the divisor is left-justified first and then moves back down. */
  method UModSI3(num: U32, den: U32) returns (r: U32)
    ensures r == if den == 0 then 0 else Rem(num, den)
  {
    WordPowers();
    r := UMod(num, den, 32);
  }

  /** The same for words of any width. */
  method UMod(num: nat, den: nat, bits: nat) returns (r: nat)
    requires bits > 0 && num < Pow2(bits) && den < Pow2(bits)
    ensures r == if den == 0 then 0 else Rem(num, den)
  {
    if den == 0 {
      return 0;
    }
    var d, qbit, quot := den, 1, 0;
    r := num;
    ghost var t := 0;
    while d < Pow2(bits - 1)
      invariant 0 <= t < bits && d == Scale(den, t) < Pow2(bits) && qbit == Pow2(t)
      decreases Pow2(bits) - d
    {
      ScaleIsPositive(den, t);
      ScaleBound(den, t + 1, bits);
      assert Scale(den, t + 1) == 2 * d && Pow2(t + 1) == 2 * qbit;
      d, qbit, t := 2 * d, 2 * qbit, t + 1;
    }
    while qbit > 0
      invariant qbit >= 0
      invariant qbit > 0 ==> t >= 0 && d == Scale(den, t) && qbit == Pow2(t) && r < 2 * d
      invariant qbit == 0 ==> r < den
      invariant quot >= 0 && num == den * quot + r
      decreases qbit
    {
      if d <= r {
        AddToQuotient(den, quot, t);
        r := r - d;
        quot := quot + qbit;
      }
      if t == 0 {
        assert d == den && qbit == 1;
      } else {
        assert d == 2 * Scale(den, t - 1) && qbit == 2 * Pow2(t - 1);
      }
      d, qbit := d / 2, qbit / 2;
      t := t - 1;
    }
    QuotUnique(num, den, quot, r);
  }

  lemma {:induction false} ScaleIsPositive(x: nat, n: nat)
    requires x > 0
    ensures Scale(x, n) >= Pow2(n)
  {
    if n > 0 {
      ScaleIsPositive(x, n - 1);
    }
  }

  lemma ScaleBound(x: nat, n: nat, w: nat)
    requires x > 0 && n <= w && Scale(x, n) < Pow2(w)
    ensures n < w
  {
    ScaleIsPositive(x, n);
  }

  lemma AddToQuotient(den: nat, quot: nat, t: nat)
    ensures den * (quot + Pow2(t)) == den * quot + Scale(den, t)
  {
    ScaleIsProduct(den, t);
    Distribute(quot, Pow2(t), den);
  }

  /** The w-bit word for an integer in (-2^w, 2^w). */
  function Residue(v: int, w: nat): int {
    if v < 0 then v + Pow2(w) else v
  }

  function Abs(v: int): nat { if v < 0 then -v else v }

  function WithSign(negative: bool, magnitude: int): int {
    if negative then 0 - magnitude else magnitude
  }

  /** Division truncated toward zero. */
  function TruncatedDiv(a: int, b: int): int
    requires b != 0
  {
    WithSign((a < 0) != (b < 0), Quot(Abs(a), Abs(b)))
  }

  /** (x ^ s) - s, which negates x when s is all ones and keeps it when s is zero. */
  function NegateIf(x: nat, s: nat, w: nat): nat { Sub(BitXor(x, s), s, w) }

  lemma NegateIfMeaning(x: nat, w: nat)
    requires x < Pow2(w)
    ensures NegateIf(x, 0, w) == x
    ensures NegateIf(x, Pow2(w) - 1, w) == if x == 0 then 0 else Pow2(w) - x
  {
    XorAllOnes(x, w);
    assert BitXor(x, 0) == x;
    LowSmall(x, w);
    LowSmall(0, w);
    if x > 0 {
      LowSmall(Pow2(w) - x, w);
    }
  }

  /** The absolute value step: the sign mask of x folded into x. */
  lemma AbsoluteValue(x: nat, w: nat)
    requires w > 0 && x < Pow2(w)
    ensures NegateIf(x, SignMask(x, w), w) == Abs(Signed(x, w))
  {
    NegateIfMeaning(x, w);
  }

  /** A magnitude with the combined sign of a and b restored. */
  lemma RestoreSign(a: nat, b: nat, w: nat, q: nat)
    requires w > 0 && a < Pow2(w) && b < Pow2(w) && q < Pow2(w)
    ensures NegateIf(q, BitXor(SignMask(a, w), SignMask(b, w)), w)
      == Residue(WithSign((Signed(a, w) < 0) != (Signed(b, w) < 0), q), w)
  {
    NegateIfMeaning(q, w);
    MasksCombine(w);
  }

  lemma MasksCombine(w: nat)
    ensures var ones: nat := Pow2(w) - 1;
      BitXor(ones, ones) == 0 && BitXor(0, ones) == ones && BitXor(ones, 0) == ones && BitXor(0, 0) == 0
  {
    var ones: nat := Pow2(w) - 1;
    XorAllOnes(ones, w);
    XorAllOnes(0, w);
    assert BitXor(ones, 0) == ones && BitXor(0, 0) == 0;
  }

  /** The word that signed division yields: 0 for divisor 0, else the truncated quotient. */
  function SignedResult(a: nat, b: nat, w: nat): int
    requires w > 0
  {
    if Signed(b, w) == 0 then 0 else Residue(TruncatedDiv(Signed(a, w), Signed(b, w)), w)
  }

  lemma Magnitudes(a: nat, b: nat, w: nat)
    requires w > 0 && a < Pow2(w) && b < Pow2(w)
    ensures NegateIf(a, SignMask(a, w), w) == Abs(Signed(a, w)) < Pow2(w)
    ensures NegateIf(b, SignMask(b, w), w) == Abs(Signed(b, w)) < Pow2(w)
  {
    AbsoluteValue(a, w);
    AbsoluteValue(b, w);
  }

  /** The quotient of the magnitudes u, with the combined sign restored. */
  lemma SignRestored(a: nat, b: nat, w: nat, u: nat)
    requires w > 0 && a < Pow2(w) && b < Pow2(w)
    requires u == if Abs(Signed(b, w)) == 0 then 0 else Quot(Abs(Signed(a, w)), Abs(Signed(b, w)))
    ensures NegateIf(u, BitXor(SignMask(a, w), SignMask(b, w)), w) == SignedResult(a, b, w)
    ensures 0 <= SignedResult(a, b, w) < Pow2(w)
  {
    Magnitudes(a, b, w);
    RestoreSign(a, b, w, u);
    if Signed(b, w) == 0 { ZeroQuotient(a, w); }
    ResultFits(a, b, w, u);
  }

  lemma ResultFits(a: nat, b: nat, w: nat, u: nat)
    requires w > 0 && a < Pow2(w) && b < Pow2(w) && u <= Abs(Signed(a, w)) < Pow2(w)
    ensures 0 <= NegateIf(u, BitXor(SignMask(a, w), SignMask(b, w)), w) < Pow2(w)
  {
    NegateIfMeaning(u, w);
    MasksCombine(w);
  }

  /** __divsi3; the operands and the result are two's complement words. */
  method DivSI3(a: U32, b: U32) returns (q: U32)
    ensures b == 0 ==> q == 0
    ensures Signed(b, 32) != 0 ==> q == Residue(TruncatedDiv(Signed(a, 32), Signed(b, 32)), 32)
  {
    q := DivideSigned(a, b, 32);
    if b == 0 { assert Signed(b, 32) == 0; }
  }

  method DivideSigned(a: U32, b: U32, w: nat) returns (q: U32)
    requires w == 32
    ensures q == SignedResult(a, b, w)
  {
    PowerOfWord(w);
    Magnitudes(a, b, w);
    var sa, sb := SignMask(a, w), SignMask(b, w);
    var u := UDivSI3(NegateIf(a, sa, w), NegateIf(b, sb, w));
    SignRestored(a, b, w, u);
    q := NegateIf(u, BitXor(sa, sb), w);
  }

  lemma PowerOfWord(w: nat)
    ensures w == 32 ==> Pow2(w) == WORD
  {
    WordPowers();
  }

  lemma ZeroQuotient(a: nat, w: nat)
    requires w > 0 && a < Pow2(w)
    ensures NegateIf(0, BitXor(SignMask(a, w), SignMask(0, w)), w) == 0
  {
    NegateIfMeaning(0, w);
    assert BitXor(SignMask(a, w), 0) == SignMask(a, w);
  }

  /** Read as signed numbers: truncation toward zero, except that the most negative value
      divided by -1 wraps to itself. */
  lemma SignedQuotient(a: nat, b: nat, w: nat)
    requires w > 0 && a < Pow2(w) && b < Pow2(w) && Signed(b, w) != 0
    ensures Signed(Residue(TruncatedDiv(Signed(a, w), Signed(b, w)), w), w) ==
      if Signed(a, w) + Pow2(w - 1) == 0 && Signed(b, w) == -1 then Signed(a, w)
      else TruncatedDiv(Signed(a, w), Signed(b, w))
  {
    var A, B := Signed(a, w), Signed(b, w);
    if Abs(B) == 1 {
      QuotUnique(Abs(A), 1, Abs(A), 0);
    }
    SignedMagnitude(A, B, w, Quot(Abs(A), Abs(B)));
  }

  lemma SignedMagnitude(A: int, B: int, w: nat, q: nat)
    requires w > 0 && 0 <= A + Pow2(w - 1) < Pow2(w) && B != 0
    requires q <= Abs(A) && (Abs(B) > 1 && Abs(A) > 0 ==> q < Abs(A)) && (Abs(B) == 1 ==> q == Abs(A))
    ensures var v := WithSign((A < 0) != (B < 0), q);
      Residue(v, w) >= 0 &&
      Signed(Residue(v, w), w) == if A + Pow2(w - 1) == 0 && B == -1 then A else v
  {
  }
}
