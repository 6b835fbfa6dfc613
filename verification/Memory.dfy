/** Byte-addressed memory, little-endian words in it, and the copy that a transfer has to make. */
module Memory {
  import opened Bits

  type Byte = x: int | 0 <= x < 256

  type Memory = map<int, Byte>

  function Read(m: Memory, a: int): Byte { if a in m then m[a] else 0 }

  /** The n bytes from address a on. */
  function Bytes(m: Memory, a: int, n: nat): (s: seq<Byte>)
    ensures |s| == n
  {
    seq<Byte>(n, i => Read(m, a + i))
  }

  /** The memory with bytes s stored from address a on. */
  function Write(m: Memory, a: int, s: seq<Byte>): Memory {
    if s == [] then m else Write(m, a, s[..|s| - 1])[a + |s| - 1 := s[|s| - 1]]
  }

  function Copy(m: Memory, dst: int, src: int, n: nat): Memory { Write(m, dst, Bytes(m, src, n)) }

  lemma {:induction false} ReadWrite(m: Memory, a: int, s: seq<Byte>, x: int)
    ensures Read(Write(m, a, s), x) == if a <= x < a + |s| then s[x - a] else Read(m, x)
  {
    if s != [] {
      ReadWrite(m, a, s[..|s| - 1], x);
    }
  }

  lemma BytesWritten(m: Memory, a: int, s: seq<Byte>)
    ensures Bytes(Write(m, a, s), a, |s|) == s
  {
    forall i | 0 <= i < |s| ensures Bytes(Write(m, a, s), a, |s|)[i] == s[i] {
      ReadWrite(m, a, s, a + i);
    }
  }

  /** Ranges of n bytes at a and of k bytes at b have no byte in common. */
  predicate Disjoint(a: int, n: nat, b: int, k: nat) { a + n <= b || b + k <= a }

  /** A write elsewhere is not seen. */
  lemma BytesApart(m: Memory, a: int, s: seq<Byte>, b: int, n: nat)
    requires Disjoint(a, |s|, b, n)
    ensures Bytes(Write(m, a, s), b, n) == Bytes(m, b, n)
  {
    forall i | 0 <= i < n ensures Bytes(Write(m, a, s), b, n)[i] == Bytes(m, b, n)[i] {
      ReadWrite(m, a, s, b + i);
    }
  }

  lemma {:induction false} WriteFurther(m: Memory, a: int, s: seq<Byte>, t: seq<Byte>)
    ensures Write(Write(m, a, s), a + |s|, t) == Write(m, a, s + t)
  {
    if t == [] {
      assert s + t == s;
    } else {
      var t0 := t[..|t| - 1];
      WriteFurther(m, a, s, t0);
      assert (s + t)[..|s + t| - 1] == s + t0;
    }
  }

  /** Copying the next k bytes after the first n, when the destination does not start inside the source. */
  lemma CopyFurther(m: Memory, dst: int, src: int, n: nat, k: nat)
    requires dst <= src || src + n + k <= dst
    ensures Copy(Copy(m, dst, src, n), dst + n, src + n, k) == Copy(m, dst, src, n + k)
  {
    BytesApart(m, dst, Bytes(m, src, n), src + n, k);
    assert Bytes(m, src, n + k) == Bytes(m, src, n) + Bytes(m, src + n, k);
    WriteFurther(m, dst, Bytes(m, src, n), Bytes(m, src + n, k));
  }

  /** The number that the bytes spell, least significant first. */
  function Number(s: seq<Byte>): nat { if s == [] then 0 else s[0] + 256 * Number(s[1..]) }

  /** The n low bytes of v, least significant first. */
  function Digits(v: nat, n: nat): (s: seq<Byte>)
    ensures |s| == n
  {
    if n == 0 then [] else [v % 256] + Digits(v / 256, n - 1)
  }

  lemma {:induction false} DigitsOfNumber(s: seq<Byte>)
    ensures Digits(Number(s), |s|) == s
  {
    if s != [] {
      var rest := s[1..];
      DigitsOfNumber(rest);
      DivModUnique(Number(s), 256, Number(rest), s[0]);
      assert s == [s[0]] + rest;
    }
  }

  lemma {:induction false} NumberOfDigits(v: nat, n: nat)
    requires v < Pow2(8 * n)
    ensures Number(Digits(v, n)) == v
  {
    if n > 0 {
      PowerOfByte(n - 1);
      NumberOfDigits(v / 256, n - 1);
    }
  }

  lemma {:induction false} NumberBound(s: seq<Byte>)
    ensures Number(s) < Pow2(8 * |s|)
  {
    if s != [] {
      NumberBound(s[1..]);
      PowerOfByte(|s| - 1);
    }
  }

  /** The least significant byte comes first. */
  lemma {:induction false} NumberByte(s: seq<Byte>, k: nat)
    requires k < |s|
    ensures Number(s) / Pow2(8 * k) % 256 == s[k]
  {
    var rest := Number(s[1..]);
    if k == 0 {
      DivModUnique(Number(s), 256, rest, s[0]);
    } else {
      NumberByte(s[1..], k - 1);
      PowerOfByte(k - 1);
      DropByte(s[0], rest, Pow2(8 * (k - 1)));
    }
  }

  lemma DropByte(b: Byte, rest: nat, p: nat)
    requires p > 0
    ensures (b + 256 * rest) / (256 * p) == rest / p
  {
    DivModWitness(rest, p);
    DivModUnique(b + 256 * rest, 256 * p, rest / p, b + 256 * (rest % p));
  }

  lemma PowerOfByte(n: nat)
    ensures Pow2(8 * (n + 1)) == 256 * Pow2(8 * n)
  {
    Pow2Add(8, 8 * n);
    assert Pow2(8) == 256;
  }

  function Load(m: Memory, a: int, n: nat): nat { Number(Bytes(m, a, n)) }

  function Store(m: Memory, a: int, n: nat, v: nat): Memory { Write(m, a, Digits(v, n)) }

  /** Loading a word and storing it copies its bytes. */
  lemma LoadStore(m: Memory, dst: int, src: int, n: nat)
    ensures Store(m, dst, n, Load(m, src, n)) == Copy(m, dst, src, n)
  {
    DigitsOfNumber(Bytes(m, src, n));
  }

  /** A 64-bit word reads back as it was stored. */
  function Load64(m: Memory, a: int): (v: U64) {
    NumberBound(Bytes(m, a, 8));
    WordPowers();
    Load(m, a, 8)
  }

  lemma StoreLoad(m: Memory, a: int, v: U64)
    ensures Load64(Store(m, a, 8, v), a) == v
  {
    WordPowers();
    var n := 8;
    NumberOfDigits(v, n);
    BytesWritten(m, a, Digits(v, n));
  }
}
