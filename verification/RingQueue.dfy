/** A ring of entries addressed by two 64-bit indices that only ever grow, masked to the ring's length. */
module RingQueue {
  import opened Bits

  /** ++i on a 64-bit index. */
  function Increment(i: U64): U64 { if i == DWORD - 1 then 0 else i + 1 }

  /** w - r in 64 bits: how many entries lie between the two indices. */
  function Distance(r: U64, w: U64): (d: U64)
  {
    if w >= r then w - r else w + DWORD - r
  }

  /** The index j places after r. */
  function Advance(r: U64, j: U64): U64 { if r + j < DWORD then r + j else r + j - DWORD }

  lemma DistanceIncrements(r: U64, w: U64)
    requires Distance(r, w) < DWORD - 1
    ensures Distance(r, Increment(w)) == Distance(r, w) + 1 && w == Advance(r, Distance(r, w))
  {
  }

  lemma DistanceShrinks(r: U64, w: U64)
    requires r != w
    ensures Distance(Increment(r), w) == Distance(r, w) - 1
  {
  }

  /** Adding a multiple of 2^k leaves the k low bits alone. */
  lemma LowShift(x: nat, m: nat, k: nat)
    ensures Low(x + m * Pow2(k), k) == Low(x, k)
  {
    SplitBits(x, k);
    ScaleIsProduct(Shr(x, k), k);
    ScaleIsProduct(Shr(x, k) + m, k);
    Distribute(Shr(x, k), m, Pow2(k));
    JoinBits(x + m * Pow2(k), k, Shr(x, k) + m, Low(x, k));
  }

  /** Wrapping at 2^64 does not disturb the k low bits. */
  lemma LowWraps(x: nat, m: nat, k: nat)
    requires k <= 64
    ensures Low(x + m * DWORD, k) == Low(x, k)
  {
    var n := m * Pow2(64 - k);
    Regroup(m, k);
    LowShift(x, n, k);
  }

  lemma Regroup(m: nat, k: nat)
    requires k <= 64
    ensures m * DWORD == m * Pow2(64 - k) * Pow2(k)
  {
    var p, q := Pow2(64 - k), Pow2(k);
    WordPowers();
    Pow2Add(64 - k, k);
    assert p * q == DWORD;
    Associate(m, p, q);
  }

  /** Masking an index with the ring's length less one is taking the remainder by the length. */
  lemma MaskOfCounter(x: U64, k: nat)
    ensures Cell(x, k) == x % Pow2(k)
  {
    AndLowMask(x, k);
    LowIsModulo(x, k);
  }

  /** A counter kept modulo 2^64 has the same remainder by a power of two up to 2^64 as the true count. */
  lemma CounterModulo(x: nat, c: U64, m: nat, k: nat)
    requires k <= 64 && x == c + m * DWORD
    ensures c % Pow2(k) == x % Pow2(k)
  {
    MaskOfCounter(c, k);
    AndLowMask(c, k);
    LowWraps(c, m, k);
    LowIsModulo(x, k);
  }

  /** Indices less than the ring's length apart use different cells. */
  lemma CellsApart(i: nat, j: nat, k: nat)
    requires i < j < i + Pow2(k)
    ensures Low(i, k) != Low(j, k)
  {
    SplitBits(i, k);
    SplitBits(j, k);
    ScaleIsProduct(Shr(i, k), k);
    ScaleIsProduct(Shr(j, k), k);
    if Low(i, k) == Low(j, k) {
      QuotientGap(Shr(i, k), Shr(j, k), Pow2(k));
    }
  }

  lemma QuotientGap(a: nat, b: nat, p: nat)
    ensures b <= a ==> b * p <= a * p
    ensures a < b ==> b * p >= a * p + p
  {
    if b <= a {
      MulMonotone(b, a, p);
    } else {
      MulMonotone(a + 1, b, p);
      Distribute(a, 1, p);
    }
  }

  function Cell(index: U64, k: nat): (c: nat)
    ensures c < Pow2(k)
  {
    AndLowMask(index, k);
    BitAnd(index, Pow2(k) - 1)
  }

  /** The cells of up to 2^k consecutive indices are all different, across the wrap of the indices too. */
  lemma CellsDistinct(r: U64, i: nat, j: nat, k: nat)
    requires k <= 64 && i < j < Pow2(k) && j < DWORD
    ensures Cell(Advance(r, i), k) != Cell(Advance(r, j), k)
  {
    CellAhead(r, i, k);
    CellAhead(r, j, k);
    CellsApart(r + i, r + j, k);
  }

  /** The wrap of the index does not show in its low bits. */
  lemma CellAhead(r: U64, i: nat, k: nat)
    requires k <= 64 && i < DWORD
    ensures Cell(Advance(r, i), k) == Low(r + i, k)
  {
    AndLowMask(Advance(r, i), k);
    if r + i >= DWORD { OneWrap(r + i - DWORD, k); }
  }

  /** The entries between two indices of a ring with 2^k cells, oldest first. */
  ghost function Entries<T>(cells: seq<T>, r: U64, w: U64, k: nat): (s: seq<T>)
    requires |cells| == Pow2(k)
    ensures |s| == Distance(r, w)
  {
    seq(Distance(r, w), j requires 0 <= j < Distance(r, w) => cells[Cell(Advance(r, j), k)])
  }

  /** Writing one more entry appends it and disturbs none, as long as the ring is not full. */
  lemma EntriesPush<T>(cells: seq<T>, r: U64, w: U64, k: nat, x: T)
    requires k < 64 && |cells| == Pow2(k) && Distance(r, w) < Pow2(k)
    ensures Entries(cells[Cell(w, k) := x], r, Increment(w), k) == Entries(cells, r, w, k) + [x]
  {
    Shorter(k);
    DistanceIncrements(r, w);
    var n := Distance(r, w);
    var s := Entries(cells[Cell(w, k) := x], r, Increment(w), k);
    forall j | 0 <= j < n ensures s[j] == Entries(cells, r, w, k)[j] {
      CellsDistinct(r, j, n, k);
    }
  }

  lemma OneRound(r: nat, k: nat)
    ensures Low(r + Pow2(k), k) == Low(r, k)
  {
    LowShift(r, 1, k);
  }

  lemma OneWrap(x: nat, k: nat)
    requires k <= 64
    ensures Low(x + DWORD, k) == Low(x, k)
  {
    LowWraps(x, 1, k);
  }

  /** One more entry in a full ring would land on the oldest one. */
  lemma FullRingOverwrites(r: U64, w: U64, k: nat)
    requires k < 64 && Distance(r, w) == Pow2(k)
    ensures Cell(w, k) == Cell(r, k)
  {
    AndLowMask(w, k);
    AndLowMask(r, k);
    OneRound(r, k);
    if w < r { OneWrap(w, k); }
  }

  lemma EntriesPop<T>(cells: seq<T>, r: U64, w: U64, k: nat)
    requires k < 64 && |cells| == Pow2(k) && r != w
    ensures cells[Cell(r, k)] == Entries(cells, r, w, k)[0]
    ensures Entries(cells, Increment(r), w, k) == Entries(cells, r, w, k)[1..]
  {
    DistanceShrinks(r, w);
    assert Advance(r, 0) == r;
    forall j | 0 <= j < Distance(r, w) - 1 ensures Advance(Increment(r), j) == Advance(r, j + 1) {
    }
  }

  lemma Shorter(k: nat)
    requires k < 64
    ensures Pow2(k) < DWORD - 1
  {
    Pow2Monotone(k, 63);
    WordPowers();
  }

  class Ring<T(0)> {
    const bits: nat
    const data: array<T>
    var readIndex: U64
    var writeIndex: U64

    ghost predicate Valid()
      reads this
    {
      bits < 64 && data.Length == Pow2(bits) && Distance(readIndex, writeIndex) <= data.Length
    }

    ghost function Contents(): (s: seq<T>)
      reads this, data
      requires Valid()
    {
      Entries(data[..], readIndex, writeIndex, bits)
    }

    constructor (k: nat)
      requires k < 64
      ensures Valid() && fresh(data) && Contents() == [] && bits == k
    {
      bits := k;
      data := new T[Pow2(k)];
      readIndex, writeIndex := 0, 0;
    }

    method NonEmpty() returns (b: bool)
      requires Valid()
      ensures b <==> Contents() != []
    {
      b := readIndex != writeIndex;
    }

    /** ring[write & (length - 1)] = x; ++write */
    method Push(x: T)
      requires Valid() && |Contents()| < data.Length
      modifies this`writeIndex, data
      ensures Valid() && Contents() == old(Contents()) + [x]
    {
      EntriesPush(data[..], readIndex, writeIndex, bits, x);
      Shorter(bits);
      DistanceIncrements(readIndex, writeIndex);
      data[Cell(writeIndex, bits)] := x;
      writeIndex := Increment(writeIndex);
    }

    /** x = ring[read & (length - 1)]; ++read */
    method Pop() returns (x: T)
      requires Valid() && Contents() != []
      modifies this`readIndex
      ensures Valid() && x == old(Contents())[0] && Contents() == old(Contents())[1..]
    {
      EntriesPop(data[..], readIndex, writeIndex, bits);
      DistanceShrinks(readIndex, writeIndex);
      x := data[Cell(readIndex, bits)];
      readIndex := Increment(readIndex);
    }
  }
}
