/** The 64-bit divider of system.c, which works on 32-bit halves. */
module WideDivision {
  import opened Bits
  import opened Division
  import opened Options

  /** The `all` view of the udwords union; the other view is its two halves of h bits. */
  function Whole(high: nat, low: nat, h: nat): nat { Scale(high, h) + low }

  lemma {:induction false} ScaleScale(x: nat, a: nat, b: nat)
    ensures Scale(Scale(x, a), b) == Scale(x, a + b)
  {
    if b > 0 {
      ScaleScale(x, a, b - 1);
    }
  }

  lemma {:induction false} LowOfScale(x: nat, m: nat, a: nat)
    ensures Low(Scale(x, m), m + a) == Scale(Low(x, a), m)
  {
    if m > 0 {
      LowOfScale(x, m - 1, a);
    }
  }

  /** A field of a bits over a field of b bits fits into a + b bits. */
  lemma {:induction false} FieldsFit(hi: nat, lo: nat, a: nat, b: nat)
    requires hi < Pow2(a) && lo < Pow2(b)
    ensures Scale(hi, b) + lo < Pow2(a + b)
  {
    if b > 0 {
      FieldsFit(hi, lo / 2, a, b - 1);
    }
  }

  /** n >> s, read off the halves. */
  lemma RightShiftHalves(high: nat, low: nat, s: nat, h: nat)
    requires low < Pow2(h) && s <= h
    ensures Shr(Whole(high, low, h), s) == Whole(Shr(high, s), BitOr(Shl(high, h - s, h), Shr(low, s)), h)
  {
    var a, b := Shr(high, s), Low(high, s);
    var c := Shr(low, s);
    SplitBits(high, s);
    SplitBits(low, s);
    ScaleSum(Scale(a, s), b, h);
    ScaleScale(a, s, h);
    ScaleScale(a, h, s);
    ScaleScale(b, h - s, s);
    ScaleSum(Scale(a, h), Scale(b, h - s), s);
    ScaleSum(Scale(a, h) + Scale(b, h - s), c, s);
    JoinBits(Whole(high, low, h), s, Scale(a, h) + Scale(b, h - s) + c, Low(low, s));
    LowOfScale(high, h - s, s);
    ShrBound(low, h, s);
    OrDisjoint(b, c, h - s);
  }

  lemma RightShiftHigh(high: nat, low: nat, s: nat, h: nat)
    requires low < Pow2(h) && s >= h
    ensures Shr(Whole(high, low, h), s) == Shr(high, s - h)
  {
    JoinBits(Whole(high, low, h), h, high, low);
    ShiftShift(Whole(high, low, h), h, s - h);
  }

  /** n << m in 2h bits, for a shift of at least h. */
  lemma LeftShiftHigh(high: nat, low: nat, m: nat, h: nat)
    requires h <= m <= 2 * h
    ensures Shl(Whole(high, low, h), m, 2 * h) == Whole(Shl(low, m - h, h), 0, h)
  {
    var k := m - h;
    ScaleSum(Scale(high, h), low, m);
    ScaleScale(high, h, m);
    ScaleScale(high, k, 2 * h);
    ScaleScale(low, k, h);
    var lo := Low(Scale(low, k), h);
    SplitBits(Scale(low, k), h);
    var c := Shr(Scale(low, k), h);
    ScaleSum(Scale(c, h), lo, h);
    ScaleScale(c, h, h);
    ScaleSum(Scale(high, k), c, 2 * h);
    FieldsFit(lo, 0, h, h);
    JoinBits(Scale(Whole(high, low, h), m), 2 * h, Scale(high, k) + c, Scale(lo, h));
  }

  /** What x << m pushes over position h, and what it keeps below. */
  lemma SplitShift(x: nat, m: nat, h: nat)
    requires m <= h
    ensures Scale(x, m) == Scale(Shr(x, h - m), h) + Scale(Low(x, h - m), m)
    ensures Shl(x, m, h) == Scale(Low(x, h - m), m) < Pow2(h)
  {
    var a, b := Shr(x, h - m), Low(x, h - m);
    SplitBits(x, h - m);
    ScaleSum(Scale(a, h - m), b, m);
    ScaleScale(a, h - m, m);
    LowOfScale(x, m, h - m);
    FieldsFit(b, 0, h - m, m);
  }

  /** n << m in 2h bits, for a shift below h. */
  lemma LeftShiftHalves(high: nat, low: nat, m: nat, h: nat)
    requires low < Pow2(h) && 0 < m < h
    ensures Shl(Whole(high, low, h), m, 2 * h)
      == Whole(BitOr(Shl(high, m, h), Shr(low, h - m)), Shl(low, m, h), h)
  {
    var carried, top := Shr(low, h - m), Shr(high, h - m);
    var d := Low(high, h - m);
    SplitShift(low, m, h);
    SplitShift(high, m, h);
    ShrBound(low, h, h - m);
    OrDisjoint(d, carried, m);
    FieldsFit(d, carried, h - m, m);
    var upper, lower := Scale(d, m) + carried, Shl(low, m, h);
    ScaleSum(Scale(high, h), low, m);
    ScaleScale(high, h, m);
    ScaleScale(high, m, h);
    ShiftedWhole(Scale(high, m), Scale(low, m), top, Scale(d, m), carried, lower, h);
    FieldsFit(upper, lower, h, h);
    JoinBits(Scale(Whole(high, low, h), m), 2 * h, top, Whole(upper, lower, h));
  }

  lemma ShiftedWhole(x: nat, y: nat, top: nat, d: nat, carried: nat, lower: nat, h: nat)
    requires x == Scale(top, h) + d && y == Scale(carried, h) + lower
    ensures Scale(x, h) + y == Scale(top, 2 * h) + Whole(d + carried, lower, h)
  {
    ScaleSum(Scale(top, h), d, h);
    ScaleScale(top, h, h);
    ScaleSum(d, carried, h);
  }

  /** The double-length shift of the loop, one half at a time. */
  lemma ShiftHalves(high: nat, low: nat, bit: nat, h: nat)
    requires h > 0 && low < Pow2(h) && bit < 2
    ensures Whole(BitOr(Shl(high, 1, h), Shr(low, h - 1)), BitOr(Shl(low, 1, h), bit), h)
      == BitOr(Shl(Whole(high, low, h), 1, 2 * h), bit)
    ensures Shr(Whole(high, low, h), 2 * h - 1) == Shr(high, h - 1)
  {
    RightShiftHigh(high, low, 2 * h - 1, h);
    ShrBound(low, h, h - 1);
    var top := Shr(low, h - 1);
    ShiftByOne(high, top, h);
    ShiftByOne(low, bit, h);
    ShiftByOne(Whole(high, low, h), bit, 2 * h);
    SplitBits(low, h - 1);
    LowOfWhole(high, low, h);
    CarryOver(Low(high, h - 1), top, h);
  }

  /** The bit shifted out of the low word into the high one. */
  lemma CarryOver(kept: nat, top: nat, h: nat)
    ensures Scale(2 * kept + top, h) == 2 * Scale(kept, h) + Scale(top, h)
  {
    ScaleSum(2 * kept, top, h);
    ScaleSum(kept, kept, h);
  }

  lemma LowOfWhole(high: nat, low: nat, h: nat)
    requires h > 0 && low < Pow2(h)
    ensures Low(Whole(high, low, h), 2 * h - 1) == Scale(Low(high, h - 1), h) + low
  {
    var c, d := Shr(high, h - 1), Low(high, h - 1);
    SplitBits(high, h - 1);
    ScaleSum(Scale(c, h - 1), d, h);
    ScaleScale(c, h - 1, h);
    FieldsFit(d, low, h - 1, h);
    JoinBits(Whole(high, low, h), 2 * h - 1, c, Scale(d, h) + low);
  }

  /** The leading zeros of a wide word are those of its high half. */
  lemma WideMagnitude(high: nat, low: nat, h: nat)
    requires 0 < high < Pow2(h) && low < Pow2(h)
    ensures Pow2(2 * h - Clz(high, h) - 1) <= Whole(high, low, h) < Pow2(2 * h - Clz(high, h))
  {
    var z := Clz(high, h);
    FieldsFit(high, low, h - z, h);
    ScaleMonotone(Pow2(h - z - 1), high, h);
    ScaleMonotone(1, 1, h - z - 1);
    ScaleScale(1, h - z - 1, h);
    ScaleMonotone(1, 1, 2 * h - z - 1);
  }

  /** Shifts of an h-bit word by an unsigned amount. C leaves an amount of h or more undefined:
      `other` stands for whatever such a shift yields. */
  function ShlAny(x: nat, n: nat, h: nat, other: nat): nat { if n < h then Shl(x, n, h) else other }

  function ShrAny(x: nat, n: nat, h: nat, other: nat): nat { if n < h then Shr(x, n) else other }

  /** (si_int)(a - b) >> (h - 1) on unsigned operands. */
  function LessMask(a: nat, b: nat, h: nat): nat
    requires h > 0
  {
    SignMask(Sub(a, b, h), h)
  }

  lemma LessMaskMeaning(a: nat, b: nat, h: nat)
    requires h > 0 && a <= 2 * h && b <= 2 * h < Pow2(h - 1)
    ensures LessMask(a, b, h) == if a < b then Pow2(h) - 1 else 0
    ensures a >= b ==> Sub(a, b, h) == a - b
    ensures a < b ==> Sub(a, b, h) >= h
  {
    if a >= b {
      LowSmall(a - b, h);
    } else {
      LowSmall(b - a, h);
      LowSmall(Pow2(h) - (b - a), h);
    }
  }

  lemma MaskKeeps(x: nat, h: nat)
    requires x < Pow2(h)
    ensures BitAnd(x, Pow2(h) - 1) == x && BitAnd(x, 0) == 0
    ensures BitOr(x, 0) == x && BitOr(0, x) == x
  {
    AndAllOnes(x, h);
  }

  datatype UDWords = UDWords(low: nat, high: nat) {
    function All(h: nat): nat { Whole(high, low, h) }

    ghost predicate Fits(h: nat) { low < Pow2(h) && high < Pow2(h) }
  }

  /** The masked start of q for a divisor of one word: no branch on whether sr is below, at or above h. */
  function MaskedQ(n: UDWords, sr: nat, h: nat, o: nat -> U32): UDWords
    requires h > 0
  {
    UDWords(
      BitAnd(ShlAny(n.low, Sub(2 * h, sr, h), h, o(0)), LessMask(h, sr, h)),
      BitOr(BitAnd(ShlAny(n.low, Sub(h, sr, h), h, o(1)), LessMask(sr, h + 1, h)),
            BitAnd(BitOr(ShlAny(n.high, Sub(2 * h, sr, h), h, o(2)), ShrAny(n.low, Sub(sr, h, h), h, o(3))),
                   LessMask(h, sr, h))))
  }

  /** The masked start of r for a divisor of one word. */
  function MaskedR(n: UDWords, sr: nat, h: nat, o: nat -> U32): UDWords
    requires h > 0
  {
    UDWords(
      BitOr(BitAnd(ShrAny(n.high, Sub(sr, h, h), h, o(4)), LessMask(h, sr + 1, h)),
            BitAnd(BitOr(ShlAny(n.high, Sub(h, sr, h), h, o(5)), ShrAny(n.low, sr, h, o(6))),
                   LessMask(sr, h, h))),
      BitAnd(ShrAny(n.high, sr, h, o(7)), LessMask(sr, h, h)))
  }

  lemma AnyShiftsFit(x: nat, n: nat, h: nat, other: nat)
    requires x < Pow2(h) && other < Pow2(h)
    ensures ShlAny(x, n, h, other) < Pow2(h) && ShrAny(x, n, h, other) < Pow2(h)
  {
    if n < h {
      ShrBound(x, h, n);
    }
  }

  /** Whatever the out-of-range shifts yield, the masks discard it. */
  lemma MaskedQMeaning(n: UDWords, sr: nat, h: nat, o: nat -> U32)
    requires h > 0 && n.Fits(h) && 0 < sr < 2 * h < Pow2(h - 1) && WORD <= Pow2(h)
    ensures MaskedQ(n, sr, h, o).Fits(h)
    ensures MaskedQ(n, sr, h, o).All(h) == Shl(n.All(h), 2 * h - sr, 2 * h)
  {
    LessMaskMeaning(h, sr, h);
    LessMaskMeaning(sr, h + 1, h);
    LessMaskMeaning(2 * h, sr, h);
    LessMaskMeaning(sr, h, h);
    var a := ShlAny(n.low, Sub(2 * h, sr, h), h, o(0));
    var b := ShlAny(n.low, Sub(h, sr, h), h, o(1));
    var c := ShlAny(n.high, Sub(2 * h, sr, h), h, o(2));
    var d := ShrAny(n.low, Sub(sr, h, h), h, o(3));
    AnyShiftsFit(n.low, Sub(2 * h, sr, h), h, o(0));
    AnyShiftsFit(n.low, Sub(h, sr, h), h, o(1));
    AnyShiftsFit(n.high, Sub(2 * h, sr, h), h, o(2));
    AnyShiftsFit(n.low, Sub(sr, h, h), h, o(3));
    OrBound(c, d, h);
    MaskKeeps(a, h);
    MaskKeeps(b, h);
    MaskKeeps(BitOr(c, d), h);
    if sr <= h {
      assert MaskedQ(n, sr, h, o) == UDWords(0, Shl(n.low, h - sr, h));
      LeftShiftHigh(n.high, n.low, 2 * h - sr, h);
    } else {
      assert MaskedQ(n, sr, h, o) == UDWords(a, BitOr(c, d));
      LeftShiftHalves(n.high, n.low, 2 * h - sr, h);
    }
  }

  lemma MaskedRMeaning(n: UDWords, sr: nat, h: nat, o: nat -> U32)
    requires h > 0 && n.Fits(h) && 0 < sr < 2 * h < Pow2(h - 1) && WORD <= Pow2(h)
    ensures MaskedR(n, sr, h, o).Fits(h)
    ensures MaskedR(n, sr, h, o).All(h) == Shr(n.All(h), sr)
  {
    LessMaskMeaning(h, sr + 1, h);
    LessMaskMeaning(sr, h, h);
    LessMaskMeaning(h, sr, h);
    var a := ShrAny(n.high, Sub(sr, h, h), h, o(4));
    var b := ShlAny(n.high, Sub(h, sr, h), h, o(5));
    var c := ShrAny(n.low, sr, h, o(6));
    var d := ShrAny(n.high, sr, h, o(7));
    AnyShiftsFit(n.high, Sub(sr, h, h), h, o(4));
    AnyShiftsFit(n.high, Sub(h, sr, h), h, o(5));
    AnyShiftsFit(n.low, sr, h, o(6));
    AnyShiftsFit(n.high, sr, h, o(7));
    OrBound(b, c, h);
    MaskKeeps(a, h);
    MaskKeeps(BitOr(b, c), h);
    MaskKeeps(d, h);
    if sr < h {
      assert MaskedR(n, sr, h, o) == UDWords(BitOr(b, c), d);
      RightShiftHalves(n.high, n.low, sr, h);
    } else {
      assert MaskedR(n, sr, h, o) == UDWords(a, 0);
      RightShiftHigh(n.high, n.low, sr, h);
      ScaleMonotone(0, 0, h);
    }
  }

  /** The start of q and r for a divisor with a nonzero high word: 1 <= sr <= h, and only sr = h needs the mask. */
  function HighQ(n: UDWords, sr: nat, h: nat): UDWords
    requires sr <= h
  {
    UDWords(0, Shl(n.low, h - sr, h))
  }

  function HighR(n: UDWords, sr: nat, h: nat, o: nat -> U32): UDWords
    requires 0 < sr <= h
  {
    UDWords(BitOr(Shl(n.high, h - sr, h), BitAnd(ShrAny(n.low, sr, h, o(0)), LessMask(sr, h, h))),
            BitAnd(ShrAny(n.high, sr, h, o(1)), LessMask(sr, h, h)))
  }

  lemma HighStart(n: UDWords, sr: nat, h: nat, o: nat -> U32)
    requires n.Fits(h) && 0 < sr <= h && 2 * h < Pow2(h - 1) && WORD <= Pow2(h)
    ensures HighQ(n, sr, h).Fits(h) && HighR(n, sr, h, o).Fits(h)
    ensures HighQ(n, sr, h).All(h) == Shl(n.All(h), 2 * h - sr, 2 * h)
    ensures HighR(n, sr, h, o).All(h) == Shr(n.All(h), sr)
    ensures sr < h ==> HighR(n, sr, h, o) == UDWords(BitOr(Shl(n.high, h - sr, h), Shr(n.low, sr)), Shr(n.high, sr))
  {
    LeftShiftHigh(n.high, n.low, 2 * h - sr, h);
    LessMaskMeaning(sr, h, h);
    var a, b := ShrAny(n.low, sr, h, o(0)), ShrAny(n.high, sr, h, o(1));
    AnyShiftsFit(n.low, sr, h, o(0));
    AnyShiftsFit(n.high, sr, h, o(1));
    MaskKeeps(a, h);
    MaskKeeps(b, h);
    OrBound(Shl(n.high, h - sr, h), BitAnd(a, LessMask(sr, h, h)), h);
    RightShiftHalves(n.high, n.low, sr, h);
    ShrBound(n.high, h, sr);
    ShrBound(n.low, h, sr);
  }

  /** A one-word divisor below a two-word dividend is never out of reach of the shift. */
  lemma OneWordDistance(n: UDWords, d: nat, h: nat)
    requires h > 0 && n.Fits(h) && n.high > 0 && 2 < d < Pow2(h)
    ensures var sr := 1 + h + Clz(d, h) - Clz(n.high, h);
      1 < sr < 2 * h && Shr(n.All(h), sr) < d && d <= Pow2(2 * h - 1)
  {
    TwoBits(d, Clz(d, h), h);
    WideMagnitude(n.high, n.low, h);
    OneWordShift(n.All(h), d, Clz(n.high, h), Clz(d, h), h);
  }

  lemma OneWordShift(n: nat, d: nat, zn: nat, zd: nat, h: nat)
    requires zn < h && zd < h - 1 && n < Pow2(2 * h - zn) && Pow2(h - zd - 1) <= d < Pow2(h)
    ensures Shr(n, 1 + h + zd - zn) < d && d <= Pow2(2 * h - 1)
  {
    ShrBound(n, 2 * h - zn, 1 + h + zd - zn);
    Pow2Monotone(h, 2 * h - 1);
  }

  lemma TwoBits(d: nat, zd: nat, h: nat)
    requires zd <= h && 2 < d < Pow2(h - zd)
    ensures zd < h - 1
  {
    SmallPower(h - zd);
  }

  lemma SmallPower(k: nat)
    ensures k <= 1 ==> Pow2(k) <= 2
  {
    assert Pow2(1) == 2 && Pow2(0) == 1;
  }

  lemma DistanceDecides(n: nat, d: nat, zn: nat, zd: nat, h: nat)
    requires zn < h && zd < h && n < Pow2(2 * h - zn) && Pow2(2 * h - zn - 1) <= n
    requires d < Pow2(2 * h - zd) && Pow2(2 * h - zd - 1) <= d
    ensures if zd < zn then n < d
      else Shr(n, zd - zn + 1) < d && (d > Pow2(2 * h - 1) ==> zd == zn && n >= Pow2(2 * h - 1))
  {
    if zd < zn {
      Pow2Monotone(2 * h - zn, 2 * h - zd - 1);
    } else {
      ShrBound(n, 2 * h - zn, zd - zn + 1);
      if zd > 0 {
        Pow2Monotone(2 * h - zd, 2 * h - 1);
      }
    }
  }

  /** A two-word divisor: the distance of the high words decides. */
  lemma TwoWordDistance(n: UDWords, d: UDWords, h: nat)
    requires 0 < h <= 64 && n.Fits(h) && d.Fits(h) && n.high > 0 && d.high > 0
    ensures var sr := ShiftDistance(n.high, d.high, h);
      if sr > h - 1 then n.All(h) < d.All(h)
      else Shr(n.All(h), sr + 1) < d.All(h) && (d.All(h) > Pow2(2 * h - 1) ==> sr == 0 && n.All(h) >= Pow2(2 * h - 1))
  {
    var zn, zd := Clz(n.high, h), Clz(d.high, h);
    WideMagnitude(n.high, n.low, h);
    WideMagnitude(d.high, d.low, h);
    DistanceDecides(n.All(h), d.All(h), zn, zd, h);
  }

  /** Divisor 2^z in the high word: the quotient and remainder are fields of the dividend. */
  lemma HighFields(n: UDWords, z: nat, h: nat)
    requires n.Fits(h)
    ensures Shr(n.All(h), z + h) == Shr(n.high, z)
    ensures Low(n.All(h), z + h) == Whole(Low(n.high, z), n.low, h)
  {
    var a, b := Shr(n.high, z), Low(n.high, z);
    SplitBits(n.high, z);
    ScaleSum(Scale(a, z), b, h);
    ScaleScale(a, z, h);
    FieldsFit(b, n.low, z, h);
    JoinBits(n.All(h), z + h, a, Whole(b, n.low, h));
  }

  lemma HighPowerOfTwo(n: UDWords, d: nat, h: nat)
    requires n.Fits(h) && 0 < d < Pow2(h) && BitAnd(d, d - 1) == 0
    ensures Whole(d, 0, h) > 0
    ensures Quot(n.All(h), Whole(d, 0, h)) == Shr(n.high, Ctz(d))
    ensures Rem(n.All(h), Whole(d, 0, h)) == Whole(BitAnd(n.high, d - 1), n.low, h)
  {
    PowerOfTwoTest(d);
    AndLowMask(n.high, Ctz(d));
    HighPower(n, Ctz(d), Whole(d, 0, h), h);
  }

  lemma HighPower(n: UDWords, z: nat, whole: nat, h: nat)
    requires n.Fits(h) && whole == Whole(Pow2(z), 0, h)
    ensures whole > 0 && Quot(n.All(h), whole) == Shr(n.high, z) && Rem(n.All(h), whole) == Whole(Low(n.high, z), n.low, h)
  {
    HighFields(n, z, h);
    PowerInHighWord(z, h);
    PowerDivisor(n.All(h), whole, z + h);
  }

  lemma PowerInHighWord(z: nat, h: nat)
    ensures Whole(Pow2(z), 0, h) == Pow2(z + h)
  {
    ScaleMonotone(1, 1, z);
    ScaleMonotone(1, 1, z + h);
    ScaleScale(1, z, h);
  }

  lemma PowerDivisor(n: nat, d: nat, k: nat)
    requires d == Pow2(k)
    ensures Quot(n, d) == Shr(n, k) && Rem(n, d) == Low(n, k)
  {
    SplitBits(n, k);
    ScaleIsProduct(Shr(n, k), k);
    QuotUnique(n, d, Shr(n, k), Low(n, k));
  }

  /** Divisor 2^z in the low word. */
  lemma LowFields(n: UDWords, z: nat, h: nat)
    requires n.Fits(h) && z < h
    ensures Low(n.All(h), z) == Low(n.low, z)
    ensures Shr(n.All(h), z) == Whole(Shr(n.high, z), BitOr(Shl(n.high, h - z, h), Shr(n.low, z)), h)
  {
    RightShiftHalves(n.high, n.low, z, h);
    SplitBits(n.low, z);
    ScaleScale(n.high, h - z, z);
    ScaleSum(Scale(n.high, h - z), Shr(n.low, z), z);
    JoinBits(n.All(h), z, Scale(n.high, h - z) + Shr(n.low, z), Low(n.low, z));
  }

  lemma LowPowerOfTwo(n: UDWords, d: nat, h: nat)
    requires n.Fits(h) && 0 < d < Pow2(h) && BitAnd(d, d - 1) == 0
    ensures var z := Ctz(d);
      && z < h
      && Quot(n.All(h), d) == Whole(Shr(n.high, z), BitOr(Shl(n.high, h - z, h), Shr(n.low, z)), h)
      && Rem(n.All(h), d) == BitAnd(n.low, d - 1)
    ensures d == 1 ==> Quot(n.All(h), d) == n.All(h)
  {
    var z := Ctz(d);
    PowerOfTwoTest(d);
    if z >= h { Pow2Monotone(h, z); }
    AndLowMask(n.low, z);
    PowerDivisor(n.All(h), d, z);
    LowFields(n, z, h);
  }

  /** Both operands multiples of 2^h. */
  lemma CommonScale(a: nat, b: nat, h: nat)
    requires b > 0
    ensures Scale(b, h) > 0
    ensures Quot(Scale(a, h), Scale(b, h)) == Quot(a, b) && Rem(Scale(a, h), Scale(b, h)) == Scale(Rem(a, b), h)
  {
    var q, r := Quot(a, b), Rem(a, b);
    QuotRem(a, b);
    ScaleIsPositive(b, h);
    ScaleOfProduct(q, b, h);
    ScaleSum(q * b, r, h);
    ScaleSum(r, b - r, h);
    ScaleIsPositive(b - r, h);
    QuotUnique(Scale(a, h), Scale(b, h), q, Scale(r, h));
  }

  lemma {:induction false} ScaleOfProduct(a: nat, c: nat, w: nat)
    ensures a * c >= 0 && a * Scale(c, w) == Scale(a * c, w)
  {
    ProductNonNegative(a, c);
    if w > 0 {
      ScaleOfProduct(a, c, w - 1);
      Associate(a, 2, Scale(c, w - 1));
    }
  }

  /** One pass of the loop on halves is one pass of the 2h-bit loop. */
  lemma HalvesStep(q: UDWords, r: UDWords, carry: nat, h: nat)
    requires h > 0 && q.Fits(h) && r.Fits(h) && carry < 2
    ensures NextR(q, r, h).All(h) == ShiftedR(r.All(h), q.All(h), 2 * h)
    ensures NextQ(q, carry, h).All(h) == ShiftedQ(q.All(h), carry, 2 * h)
    ensures NextQ(q, carry, h).Fits(h)
  {
    ShrBound(q.high, h, h - 1);
    ShrBound(q.low, h, h - 1);
    ShiftHalves(q.high, q.low, carry, h);
    ShiftHalves(r.high, r.low, Shr(q.high, h - 1), h);
    ShiftByOne(q.high, Shr(q.low, h - 1), h);
    ShiftByOne(q.low, carry, h);
  }

  function NextR(q: UDWords, r: UDWords, h: nat): UDWords
    requires h > 0
  {
    UDWords(BitOr(Shl(r.low, 1, h), Shr(q.high, h - 1)), BitOr(Shl(r.high, 1, h), Shr(r.low, h - 1)))
  }

  function NextQ(q: UDWords, carry: nat, h: nat): UDWords
    requires h > 0
  {
    UDWords(BitOr(Shl(q.low, 1, h), carry), BitOr(Shl(q.high, 1, h), Shr(q.low, h - 1)))
  }

  /** A write through the `all` view. */
  function Halves(x: nat, h: nat): UDWords { UDWords(Low(x, h), Shr(x, h)) }

  lemma HalvesOfWhole(x: nat, h: nat)
    requires x < Pow2(2 * h)
    ensures Halves(x, h).All(h) == x && Halves(x, h).Fits(h)
  {
    SplitBits(x, h);
    ShrBound(x, 2 * h, h);
  }

  /** Quotient and remainder, the contract of every branch below. */
  ghost predicate Divides(n: nat, d: nat, quot: nat, r: nat)
    requires d > 0
  {
    quot == Quot(n, d) && r == Rem(n, d)
  }

  /** The dividend is one word. */
  method SmallDividend(n: UDWords, d: UDWords, h: nat) returns (quot: nat, r: nat)
    requires h == 32 && n.Fits(h) && d.Fits(h) && n.high == 0
    ensures if d.All(h) == 0 then quot == 0 && r == 0 else Divides(n.All(h), d.All(h), quot, r)
  {
    LowWordOnly(n, h);
    if d.high == 0 {
      LowWordOnly(d, h);
      quot, r := LowWordsOnly(n.low, d.low, h);
      return;
    }
    LargeDivisor(n.low, d, h);
    return 0, n.low;
  }

  lemma LowWordOnly(n: UDWords, h: nat)
    requires n.high == 0
    ensures n.All(h) == n.low
  {
    ScaleMonotone(0, 0, h);
  }

  /** A divisor with a high word is larger than any word. */
  lemma LargeDivisor(n: nat, d: UDWords, h: nat)
    requires 0 < h && n < Pow2(h) && d.Fits(h) && d.high > 0
    ensures n < d.All(h) && Divides(n, d.All(h), 0, n)
  {
    WideMagnitude(d.high, d.low, h);
    Pow2Monotone(h, 2 * h - Clz(d.high, h) - 1);
    SmallQuotient(n, d.All(h));
  }

  /** 0 X / 0 X */
  method LowWordsOnly(n: nat, d: nat, h: nat) returns (quot: nat, r: nat)
    requires h == 32 && n < Pow2(h) && d < Pow2(h)
    ensures if d == 0 then quot == 0 && r == 0 else Divides(n, d, quot, r)
  {
    WordPowers();
    r := UModSI3(n, d);
    quot := UDivSI3(n, d);
  }

  /** The divisor's low word is zero, its high word is not. */
  method HighWordDivisor(n: UDWords, d: UDWords, h: nat, o: nat -> U32) returns (quot: nat, r: nat)
    requires h == 32 && n.Fits(h) && d.Fits(h) && n.high > 0 && d.low == 0 && d.high > 0
    ensures d.All(h) > 0 && Divides(n.All(h), d.All(h), quot, r)
  {
    ScaleIsPositive(d.high, h);
    if n.low == 0 {
      quot, r := HighWordsOnly(n.high, d.high, h);
      return;
    }
    if BitAnd(d.high, d.high - 1) == 0 {
      HighPowerOfTwo(n, d.high, h);
      return Shr(n.high, Ctz(d.high)), Whole(BitAnd(n.high, d.high - 1), n.low, h);
    }
    quot, r := HighWordGeneral(n, d, h, o);
  }

  /** K 0 / K 0 */
  method HighWordsOnly(n: nat, d: nat, h: nat) returns (quot: nat, r: nat)
    requires h == 32 && n < Pow2(h) && 0 < d < Pow2(h) && Whole(d, 0, h) > 0
    ensures Divides(Whole(n, 0, h), Whole(d, 0, h), quot, r)
  {
    WordPowers();
    CommonScale(n, d, h);
    r := UModSI3(n, d);
    r := Whole(r, 0, h);
    quot := UDivSI3(n, d);
  }

  /** K K / K 0, no power of two. */
  method HighWordGeneral(n: UDWords, d: UDWords, h: nat, o: nat -> U32) returns (quot: nat, r: nat)
    requires h == 32 && n.Fits(h) && d.Fits(h) && n.high > 0 && d.high > 0 && d.All(h) > 0 && BitAnd(d.high, d.high - 1) != 0
    ensures Divides(n.All(h), d.All(h), quot, r)
  {
    WordPowers();
    var sr := ShiftDistance(n.high, d.high, h);
    TwoWordDistance(n, d, h);
    if sr > h - 2 {
      NotTheUnit(n, d, h);
      SmallQuotient(n.All(h), d.All(h));
      return 0, n.All(h);
    }
    sr := sr + 1;
    HighStart(n, sr, h, o);
    var q := UDWords(0, Shl(n.low, h - sr, h));
    var r0 := UDWords(BitOr(Shl(n.high, h - sr, h), Shr(n.low, sr)), Shr(n.high, sr));
    quot, r := MainLoop(n, d, sr, q, r0, h);
  }

  /** Distance h - 1 needs a divisor of 1 in the high word, which is a power of two. */
  lemma NotTheUnit(n: UDWords, d: UDWords, h: nat)
    requires 1 < h <= 64 && n.Fits(h) && d.Fits(h) && n.high > 0 && d.high > 0
    requires BitAnd(d.high, d.high - 1) != 0
    ensures ShiftDistance(n.high, d.high, h) != h - 1
  {
    if ShiftDistance(n.high, d.high, h) == h - 1 {
      UnitDivisor(n.high, d.high, h);
    }
  }

  lemma NotAPowerOfTwo(d: nat)
    requires d > 0 && BitAnd(d, d - 1) != 0
    ensures d > 2
  {
    assert BitAnd(1, 0) == 0 && BitAnd(2, 1) == 0;
  }

  lemma OneWordStart(n: UDWords, d: nat, sr: int, h: nat, o: nat -> U32)
    requires h > 0 && n.Fits(h) && n.high > 0 && 0 < d < Pow2(h) && 2 * h < Pow2(h - 1) && WORD <= Pow2(h)
    requires BitAnd(d, d - 1) != 0 && sr == 1 + h + Clz(d, h) - Clz(n.high, h)
    ensures 0 < sr < 2 * h && d <= Pow2(2 * h - 1)
    ensures MaskedQ(n, sr, h, o).Fits(h) && MaskedR(n, sr, h, o).Fits(h)
    ensures MaskedQ(n, sr, h, o).All(h) == Shl(n.All(h), 2 * h - sr, 2 * h)
    ensures MaskedR(n, sr, h, o).All(h) == Shr(n.All(h), sr) < d
  {
    NotAPowerOfTwo(d);
    OneWordDistance(n, d, h);
    MaskedQMeaning(n, sr, h, o);
    MaskedRMeaning(n, sr, h, o);
  }

  /** The divisor is one nonzero word, the dividend two. */
  method OneWordDivisor(n: UDWords, d: UDWords, h: nat, o: nat -> U32) returns (quot: nat, r: nat)
    requires h == 32 && n.Fits(h) && d.Fits(h) && n.high > 0 && d.high == 0 && d.low > 0
    ensures d.All(h) > 0 && Divides(n.All(h), d.All(h), quot, r)
  {
    WordPowers();
    ScaleMonotone(0, 0, h);
    if BitAnd(d.low, d.low - 1) == 0 {
      LowPowerOfTwo(n, d.low, h);
      r := BitAnd(n.low, d.low - 1);
      if d.low == 1 {
        return n.All(h), r;
      }
      var sr := Ctz(d.low);
      var q := UDWords(BitOr(Shl(n.high, h - sr, h), Shr(n.low, sr)), Shr(n.high, sr));
      return q.All(h), r;
    }
    var sr := 1 + h + Clz(d.low, h) - Clz(n.high, h);
    OneWordStart(n, d.low, sr, h, o);
    quot, r := MainLoop(n, d, sr, MaskedQ(n, sr, h, o), MaskedR(n, sr, h, o), h);
  }

  /** Both operands have two words. */
  method TwoWordDivisor(n: UDWords, d: UDWords, h: nat, o: nat -> U32) returns (quot: nat, r: nat)
    requires h == 32 && n.Fits(h) && d.Fits(h) && n.high > 0 && d.high > 0
    ensures d.All(h) > 0 && Divides(n.All(h), d.All(h), quot, r)
  {
    WordPowers();
    ScaleIsPositive(d.high, h);
    var sr := ShiftDistance(n.high, d.high, h);
    TwoWordDistance(n, d, h);
    if sr > h - 1 {
      SmallQuotient(n.All(h), d.All(h));
      return 0, n.All(h);
    }
    sr := sr + 1;
    HighStart(n, sr, h, o);
    quot, r := MainLoop(n, d, sr, HighQ(n, sr, h), HighR(n, sr, h, o), h);
  }

  /** The shared tail of the function: one quotient bit per pass. */
  method MainLoop(n: UDWords, d: UDWords, start: nat, q0: UDWords, r0: UDWords, h: nat) returns (quot: nat, rem: nat)
    requires h > 0 && n.Fits(h) && d.Fits(h) && q0.Fits(h) && r0.Fits(h) && 0 < start < 2 * h && d.All(h) > 0
    requires q0.All(h) == Shl(n.All(h), 2 * h - start, 2 * h) && r0.All(h) == Shr(n.All(h), start)
    requires r0.All(h) < d.All(h)
    requires d.All(h) > Pow2(2 * h - 1) ==> start == 1 && n.All(h) >= Pow2(2 * h - 1)
    ensures Divides(n.All(h), d.All(h), quot, rem)
  {
    var N, D, w := n.All(h), d.All(h), 2 * h;
    FieldsFit(n.high, n.low, h, h);
    FieldsFit(d.high, d.low, h, h);
    Entry(N, D, w, start);
    var sr, q, r, carry := start, q0, r0, 0;
    ghost var k := 0;
    while sr > 0
      invariant 0 <= sr && q.Fits(h) && r.Fits(h)
      invariant Partial(N, D, w, sr, q.All(h), r.All(h), carry, k)
      invariant sr > 0 ==> Normalised(N, D, w, sr, k)
    {
      k := Iteration(N, D, w, sr, q.All(h), r.All(h), carry, k);
      HalvesStep(q, r, carry, h);
      r, q := NextR(q, r, h), NextQ(q, carry, h);
      var s := CompareMask(D, r.All(h), w);
      carry := BitAnd(s, 1);
      var rest := Sub(r.All(h), BitAnd(D, s), w);
      HalvesOfWhole(rest, h);
      r := Halves(rest, h);
      sr := sr - 1;
    }
    Finish(N, D, w, q.All(h), r.All(h), carry, k);
    HalvesStep(q, r, carry, h);
    q := NextQ(q, carry, h);
    return q.All(h), r.All(h);
  }

  /** The two words of a 64-bit operand. */
  method Words(x: U64, h: nat) returns (n: UDWords)
    requires h == 32
    ensures n.Fits(h) && n.All(h) == x
  {
    WordPowers();
    HalvesOfWhole(x, h);
    n := Halves(x, h);
  }

  /** K X / 0 0 */
  method ZeroDivisor(n: UDWords, d: UDWords, h: nat) returns (quot: nat, r: nat)
    requires h == 32 && n.Fits(h) && d.low == 0
    ensures quot == 0 && r == 0
  {
    WordPowers();
    quot := UDivSI3(n.high, d.low);
    r := UModSI3(n.high, d.low);
  }

  lemma ZeroWords(d: UDWords, h: nat)
    requires d.Fits(h)
    ensures d.All(h) == 0 <==> d.high == 0 && d.low == 0
  {
    if d.high == 0 {
      ScaleMonotone(0, 0, h);
    } else {
      ScaleIsPositive(d.high, h);
    }
  }

  /** The case split on the words of dividend and divisor. */
  method DivideWords(n: UDWords, d: UDWords, h: nat, o: nat -> U32) returns (quot: nat, r: nat)
    requires h == 32 && n.Fits(h) && d.Fits(h)
    ensures if d.All(h) == 0 then quot == 0 && r == 0 else Divides(n.All(h), d.All(h), quot, r)
  {
    ZeroWords(d, h);
    if n.high == 0 {
      quot, r := SmallDividend(n, d, h);
    } else if d.low == 0 {
      if d.high == 0 {
        quot, r := ZeroDivisor(n, d, h);
      } else {
        quot, r := HighWordDivisor(n, d, h, o);
      }
    } else if d.high == 0 {
      quot, r := OneWordDivisor(n, d, h, o);
    } else {
      quot, r := TwoWordDivisor(n, d, h, o);
    }
  }

  /** __udivmoddi4. A null `rem` is wantRem == false. */
  method UDivModDI4(a: U64, b: U64, wantRem: bool, o: nat -> U32) returns (quot: nat, rem: Option<nat>)
    ensures rem.Some? == wantRem && quot < DWORD
    ensures b != 0 ==> quot == Quot(a, b) && (wantRem ==> rem.value == Rem(a, b))
    ensures b == 0 ==> quot == 0 && (wantRem ==> rem.value == 0)
  {
    var h := 32;
    var n := Words(a, h);
    var d := Words(b, h);
    var r;
    quot, r := DivideWords(n, d, h, o);
    rem := if wantRem then Some(r) else None;
  }

  /** __divdi3; the operands and the result are two's complement words. */
  method DivDI3(a: U64, b: U64, o: nat -> U32) returns (q: U64)
    ensures Signed(b, 64) == 0 ==> q == 0
    ensures Signed(b, 64) != 0 ==> q == Residue(TruncatedDiv(Signed(a, 64), Signed(b, 64)), 64)
  {
    q := DivideSigned(a, b, 64, o);
  }

  method DivideSigned(a: U64, b: U64, w: nat, o: nat -> U32) returns (q: U64)
    requires w == 64
    ensures q == SignedResult(a, b, w)
  {
    PowerOfWidth(w);
    Magnitudes(a, b, w);
    var sa, sb := SignMask(a, w), SignMask(b, w);
    var u, _ := UDivModDI4(NegateIf(a, sa, w), NegateIf(b, sb, w), false, o);
    SignRestored(a, b, w, u);
    q := NegateIf(u, BitXor(sa, sb), w);
  }

  lemma PowerOfWidth(w: nat)
    ensures w == 64 ==> Pow2(w) == DWORD
  {
    WordPowers();
  }
}
