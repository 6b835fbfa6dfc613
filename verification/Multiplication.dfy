/** Software multiplication of system.c: shift-add, and wide products from half-words. */
module Multiplication {
  import opened Bits
  import opened Division
  import opened WideDivision

  lemma LowAbsorbs(k: nat, z: nat, w: nat)
    ensures Low(Scale(k, w) + z, w) == Low(z, w)
  {
    SplitBits(z, w);
    ScaleSum(k, Shr(z, w), w);
    JoinBits(Scale(k, w) + z, w, k + Shr(z, w), Low(z, w));
  }

  /** Truncating one summand first changes nothing modulo 2^w. */
  lemma LowOfSum(x: nat, y: nat, w: nat)
    ensures Low(Low(x, w) + y, w) == Low(x + y, w)
  {
    SplitBits(x, w);
    LowAbsorbs(Shr(x, w), Low(x, w) + y, w);
  }

  /** Truncating one factor first changes nothing modulo 2^w. */
  lemma LowOfProduct(a: nat, x: nat, r: nat, w: nat)
    requires a * x >= 0 && a * Low(x, w) >= 0
    ensures Low(r + a * Low(x, w), w) == Low(r + a * x, w)
  {
    SplitBits(x, w);
    ScaleOfProduct(a, Shr(x, w), w);
    LeftDistribute(a, Scale(Shr(x, w), w), Low(x, w));
    AbsorbMultiple(a * Shr(x, w), r, a * Low(x, w), a * x, w);
  }

  lemma LeftDistribute(a: int, b: int, c: int)
    ensures a * (b + c) == a * b + a * c
  {
  }

  lemma AbsorbMultiple(k: nat, r: nat, y: int, z: int, w: nat)
    requires y >= 0 && z >= 0 && z == Scale(k, w) + y
    ensures Low(r + y, w) == Low(r + z, w)
  {
    LowAbsorbs(k, r + y, w);
  }

  /** __mulsi3 for a `long` of w bits. */
  method MulSI3(a: nat, b: nat, w: nat) returns (res: nat)
    requires w > 0
    ensures a * b >= 0 && res == Low(a * b, w)
  {
    res := 0;
    var x, y := a, b;
    ProductNonNegative(a, b);
    while x > 0
      invariant 0 <= res < Pow2(w) && 0 <= y && 0 <= x && x * y >= 0
      invariant Low(res + x * y, w) == Low(a * b, w)
      decreases x
    {
      ShiftAdd(x, y, res, w);
      if BitAnd(x, 1) != 0 {
        res := Low(res + y, w);
      }
      y := Shl(y, 1, w);
      x := Shr(x, 1);
      ProductNonNegative(x, y);
    }
    LowSmall(res, w);
  }

  lemma ShiftAdd(x: nat, y: nat, res: nat, w: nat)
    requires x > 0 && w > 0
    ensures x * y >= 0 && Shr(x, 1) * Shl(y, 1, w) >= 0
    ensures BitAnd(x, 1) == x % 2
    ensures var next := if x % 2 == 1 then Low(res + y, w) else res;
      Low(next + Shr(x, 1) * Shl(y, 1, w), w) == Low(res + x * y, w)
  {
    assert BitAnd(x / 2, 0) == 0;
    assert Shr(x, 1) == x / 2 && Scale(y, 1) == 2 * y;
    var half := x / 2;
    ProductNonNegative(half, Low(2 * y, w));
    ProductNonNegative(half, 2 * y);
    Associate(half, 2, y);
    if x % 2 == 1 {
      Distribute(2 * half, 1, y);
      LowOfSum(res + y, half * Low(2 * y, w), w);
      LowOfProduct(half, 2 * y, res + y, w);
    } else {
      LowOfProduct(half, 2 * y, res, w);
    }
  }

  const HALF: nat := 0x1_0000

  lemma HalfWords(x: nat, g: nat)
    requires g == 16
    ensures BitAnd(x, Shr(WORD - 1, g)) == x % HALF && Shr(x, g) == x / HALF
    ensures x < HALF ==> Shl(x, g, 2 * g) == x * HALF
  {
    WordPowers();
    ShiftHalf(WORD - 1, g);
    AndLowMask(x, g);
    ShiftHalf(x, g);
    ScaleIsProduct(x, g);
    if x < HALF {
      LowSmall(Scale(x, g), 2 * g);
    }
  }

  lemma ShiftHalf(x: nat, g: nat)
    requires g == 16
    ensures Shr(x, g) == x / HALF && Low(x, g) == x % HALF
  {
    WordPowers();
    SplitBits(x, g);
    ScaleIsProduct(Shr(x, g), g);
  }

  lemma SmallProduct(a: nat, b: nat)
    requires a < HALF && b < HALF
    ensures 0 <= a * b <= (HALF - 1) * (HALF - 1)
  {
    var top := HALF - 1;
    MulMonotone(a, top, b);
    MulMonotone(b, top, top);
    Commuted(b, top);
    MulMonotone(0, a, b);
  }

  /** The product of half-words fits the `long` it is computed in and the word it is stored in. */
  method HalfProduct(a: nat, b: nat, w: nat) returns (p: U32)
    requires a < HALF && b < HALF && w >= 32
    ensures p == a * b
  {
    p := 0;
    var res := MulSI3(a, b, w);
    SmallProduct(a, b);
    WordPowers();
    Pow2Monotone(32, w);
    LowSmall(a * b, w);
    p := res;
  }

  /** __muldsi3: schoolbook multiplication in half-words. The sums are kept modulo 2^32 and never carry out. */
  method MulDSI3(a: U32, b: U32, w: nat) returns (low: U32, high: U32)
    requires w >= 32
    ensures high * WORD + low == a * b
  {
    var g := 16;
    var mask := Shr(WORD - 1, g);
    HalfWords(a, g);
    HalfWords(b, g);
    var al, ah, bl, bh := BitAnd(a, mask), Shr(a, g), BitAnd(b, mask), Shr(b, g);
    var p00 := HalfProduct(al, bl, w);
    low, high := p00, 0;
    var p := HalfProduct(ah, bl, w);
    SmallProduct(ah, bl);
    low, high := AddMiddle(low, high, p);
    ghost var p10 := p;
    p := HalfProduct(bh, al, w);
    SmallProduct(al, bl);
    SmallProduct(bh, al);
    low, high := AddMiddle(low, high, p);
    ghost var p01 := p;
    p := HalfProduct(ah, bh, w);
    WordProduct(a, b, p00, p10, p01, p);
    NoCarry(low, high, p, a * b);
    high := (high + p) % WORD;
  }

  lemma NoCarry(low: U32, high: U32, p: U32, ab: int)
    requires ab == p * WORD + (high * WORD + low) && ab < WORD * WORD
    ensures (high + p) % WORD == high + p && (high + p) * WORD + low == ab
  {
  }

  /** Adds a cross product at the half-word position: the code's t, written out twice in the source. */
  method AddMiddle(low: U32, high: U32, p: U32) returns (low': U32, high': U32)
    requires p <= (HALF - 1) * (HALF - 1) && high < HALF
    ensures high' * WORD + low' == high * WORD + low + p * HALF
    ensures high == 0 ==> high' < HALF
  {
    var g := 16;
    var mask := Shr(WORD - 1, g);
    HalfWords(low, g);
    var t := (Shr(low, g) + p) % WORD;
    HalfWords(t, g);
    HalfWords(t % HALF, g);
    low' := (BitAnd(low, mask) + Shl(BitAnd(t, mask), g, 2 * g)) % WORD;
    high' := (high + Shr(t, g)) % WORD;
    MiddleSum(low, high, p, t, low', high');
  }

  /** None of the three additions carries out of its word. */
  lemma MiddleSum(low: U32, high: U32, p: U32, t: U32, low': U32, high': U32)
    requires p <= (HALF - 1) * (HALF - 1) && high < HALF && t == (low / HALF + p) % WORD
    requires low' == (low % HALF + t % HALF * HALF) % WORD && high' == (high + t / HALF) % WORD
    ensures high' * WORD + low' == high * WORD + low + p * HALF
    ensures high == 0 ==> high' < HALF
  {
    assert t == low / HALF + p;
    assert low' == low % HALF + t % HALF * HALF && high' == high + t / HALF;
  }

  lemma WordProduct(a: U32, b: U32, p00: int, p10: int, p01: int, p11: int)
    requires p00 == a % HALF * (b % HALF) && p10 == a / HALF * (b % HALF)
    requires p01 == b / HALF * (a % HALF) && p11 == a / HALF * (b / HALF)
    ensures a * b == p11 * WORD + (p10 + p01) * HALF + p00
    ensures 0 <= a * b < WORD * WORD
  {
    var ah, al, bh, bl := a / HALF, a % HALF, b / HALF, b % HALF;
    Split(ah, al, bh, bl, HALF);
    MulMonotone(a, WORD - 1, b);
    MulMonotone(b, WORD - 1, WORD - 1);
  }

  lemma Split(ah: int, al: int, bh: int, bl: int, p: int)
    ensures (ah * p + al) * (bh * p + bl) == ah * bh * (p * p) + (ah * bl + bh * al) * p + al * bl
  {
    Foil(ah * p, al, bh * p, bl);
    Interchange(ah, p, bh, p);
    Associate(ah, p, bl);
    Associate(ah, bl, p);
    Associate(al, bh, p);
    Associate(bh, al, p);
    Distribute(ah * bl, bh * al, p);
  }

  lemma Foil(x: int, a: int, y: int, b: int)
    ensures (x + a) * (y + b) == x * y + x * b + a * y + a * b
  {
    Distribute(x, a, y + b);
    Distribute(y, b, x);
    Distribute(y, b, a);
  }

  lemma Interchange(a: int, p: int, b: int, q: int)
    ensures a * p * (b * q) == a * b * (p * q)
  {
    Associate(a, p, b * q);
    Associate(p, b, q);
    Associate(b, p, q);
    Associate(a, b, p * q);
  }

  /** si_int to unsigned long. */
  function SignExtend(x: U32, w: nat): nat
    requires w >= 32
  {
    if x < 0x8000_0000 then x else (Pow2(w - 32) - 1) * WORD + x
  }

  lemma Extended(x: U32, w: nat)
    requires w >= 32
    ensures WORD <= Pow2(w) && Pow2(w) == WORD * Pow2(w - 32)
    ensures SignExtend(x, w) >= 0
    ensures exists m: nat :: SignExtend(x, w) == m * WORD + x
  {
    WordPowers();
    Pow2Add(32, w - 32);
    Pow2Monotone(32, w);
    if x < 0x8000_0000 {
      assert SignExtend(x, w) == 0 * WORD + x;
    } else {
      assert SignExtend(x, w) == (Pow2(w - 32) - 1) * WORD + x;
    }
  }

  /** A cross product: the sign extension and the width of `long` do not reach the low word. */
  method CrossProduct(high: U32, low: U32, w: nat) returns (p: U32)
    requires w >= 32
    ensures p == high * low % WORD
  {
    Extended(high, w);
    ghost var m: nat :| SignExtend(high, w) == m * WORD + high;
    var res := MulSI3(SignExtend(high, w), low, w);
    Extended(0, w);
    ProductNonNegative(SignExtend(high, w), low);
    TruncatedProduct(SignExtend(high, w), m, high, low, w);
    p := res % WORD;
  }

  lemma TruncatedProduct(x: nat, m: nat, high: U32, low: U32, w: nat)
    requires w >= 32 && x == m * WORD + high && x * low >= 0
    ensures Low(x * low, w) % WORD == high * low % WORD
  {
    ProductNonNegative(high, low);
    Distribute(m * WORD, high, low);
    Associate(m, WORD, low);
    var c := WideningTruncation(x * low, w);
    SameResidue(Low(x * low, w), high * low, c, m * low) by { Associate(m, low, WORD); }
  }

  /** Truncation to w >= 32 bits drops a multiple of 2^32. */
  lemma WideningTruncation(z: nat, w: nat) returns (c: nat)
    requires w >= 32
    ensures z == c * WORD + Low(z, w)
  {
    WordPowers();
    Pow2Add(32, w - 32);
    SplitBits(z, w);
    ScaleIsProduct(Shr(z, w), w);
    Associate(Shr(z, w), Pow2(w - 32), WORD);
    ProductNonNegative(Shr(z, w), Pow2(w - 32));
    c := Shr(z, w) * Pow2(w - 32);
  }

  lemma SameResidue(x: nat, y: nat, i: int, j: int)
    requires i * WORD + x == j * WORD + y
    ensures x % WORD == y % WORD
  {
  }

  /** __muldi3 */
  method MulDI3(a: U64, b: U64, w: nat) returns (r: U64)
    requires w >= 32
    ensures r == a * b % DWORD
  {
    var al, ah, bl, bh := a % WORD, a / WORD, b % WORD, b / WORD;
    var low, high := MulDSI3(al, bl, w);
    var p := CrossProduct(ah, bl, w);
    var q := CrossProduct(bh, al, w);
    high := (high + p + q) % WORD;
    r := high * WORD + low;
    Split(ah, al, bh, bl, WORD);
    DoubleWord(a * b, ah * bh, ah * bl, bh * al, al * bl, low, high);
  }

  lemma DoubleWord(ab: int, hh: int, hl: int, lh: int, ll: int, low: U32, high: U32)
    requires ab == hh * DWORD + (hl + lh) * WORD + ll
    requires (ll - low) % WORD == 0 && high == ((ll - low) / WORD + hl % WORD + lh % WORD) % WORD
    ensures ab % DWORD == high * WORD + low
  {
    var k := (ll - low) / WORD;
    var sum := k + hl + lh;
    SumOfResidues(k, hl, lh);
    assert ll == k * WORD + low && sum == sum / WORD * WORD + high;
    DivModUnique(ab, DWORD, hh + sum / WORD, high * WORD + low);
  }

  lemma SumOfResidues(k: int, x: int, y: int)
    ensures (k + x % WORD + y % WORD) % WORD == (k + x + y) % WORD
  {
    var c := x / WORD + y / WORD;
    assert k + x + y == (k + x % WORD + y % WORD) + c * WORD;
    DivModWitness(k + x % WORD + y % WORD, WORD);
    DivModUnique(k + x + y, WORD, (k + x % WORD + y % WORD) / WORD + c, (k + x % WORD + y % WORD) % WORD);
  }

  /** Residues multiply like the signed numbers they stand for. */
  lemma SignedProduct(a: U64, b: U64)
    ensures (Signed(a, 64) * Signed(b, 64)) % DWORD == a * b % DWORD
  {
    WordPowers();
    var i, j := if a >= Pow2(63) then 1 else 0, if b >= Pow2(63) then 1 else 0;
    SignedResidue(a, b, i, j);
  }

  lemma SignedResidue(a: int, b: int, i: int, j: int)
    ensures ((a - i * DWORD) * (b - j * DWORD)) % DWORD == a * b % DWORD
  {
    var k := i * j * DWORD - i * b - j * a;
    assert (a - i * DWORD) * (b - j * DWORD) == a * b + k * DWORD;
    Congruent(a * b, k);
  }

  lemma Congruent(x: int, k: int)
    ensures (x + k * DWORD) % DWORD == x % DWORD
  {
  }
}
