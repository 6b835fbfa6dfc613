/** A RAM with two ports of different power-of-two widths, built from banks of the narrower width. A data word is a
    sequence of bytes, lowest bits first. The wider port reaches all banks at once, the narrower one picks a bank by
    the address bits just above the byte offset. */
module DualPortRam {
  import opened Bits
  import opened Memory

  type Word = seq<Byte>

  /** bram_tdp: the lines, and the output register of each port. */
  datatype Bank = Bank(ram: seq<Word>, wideOut: Word, narrowOut: Word)

  /** The banks, and the narrow port's address delayed by one cycle. Words of 2^q bytes, 2^p banks. */
  datatype Ram = Ram(q: nat, p: nat, lines: nat, banks: seq<Bank>, delayed: nat)

  predicate BankOk(b: Bank, q: nat, lines: nat) {
    && |b.ram| == lines && |b.wideOut| == |b.narrowOut| == Pow2(q)
    && forall l :: 0 <= l < lines ==> |b.ram[l]| == Pow2(q)
  }

  predicate Valid(d: Ram) {
    |d.banks| == Pow2(d.p) && forall i :: 0 <= i < |d.banks| ==> BankOk(d.banks[i], d.q, d.lines)
  }

  /** The number of bytes. */
  function Size(d: Ram): nat { Scale(Scale(d.lines, d.p), d.q) }

  /** The address slices: word index, bank and line. */
  function WordIndex(d: Ram, a: nat): nat { Shr(a, d.q) }

  function BankOf(d: Ram, a: nat): (i: nat)
    ensures i < Pow2(d.p)
  {
    Low(Shr(a, d.q), d.p)
  }

  function LineOf(d: Ram, a: nat): nat { Shr(Shr(a, d.q), d.p) }

  lemma {:induction false} ShrBelow(x: nat, m: nat, n: nat)
    requires x < Scale(m, n)
    ensures Shr(x, n) < m
  {
    SplitBits(x, n);
    if Shr(x, n) >= m {
      ScaleMonotone(m, Shr(x, n), n);
    }
  }

  lemma LineExists(d: Ram, a: nat)
    requires a < Size(d)
    ensures LineOf(d, a) < d.lines && WordIndex(d, a) < Scale(d.lines, d.p)
  {
    ShrBelow(a, Scale(d.lines, d.p), d.q);
    ShrBelow(Shr(a, d.q), d.lines, d.p);
  }

  /** One port of one bank, write first: what is written is what is read. */
  function BankWide(b: Bank, en: bool, wr: bool, line: nat, din: Word): Bank
    requires line < |b.ram|
  {
    if !en then b
    else
      var ram := if wr then b.ram[line := din] else b.ram;
      b.(ram := ram, wideOut := ram[line])
  }

  function BankNarrow(b: Bank, en: bool, wr: bool, line: nat, din: Word): Bank
    requires line < |b.ram|
  {
    if !en then b
    else
      var ram := if wr then b.ram[line := din] else b.ram;
      b.(ram := ram, narrowOut := ram[line])
  }

  /** Slice i of the wide data word. */
  function Slice(d: Ram, din: Word, i: nat): (w: Word)
    requires |din| == Scale(Pow2(d.p), d.q) && i < Pow2(d.p)
    ensures |w| == Pow2(d.q)
  {
    SliceFits(d, i);
    din[Scale(i, d.q)..Scale(i, d.q) + Pow2(d.q)]
  }

  lemma SliceFits(d: Ram, i: nat)
    requires i < Pow2(d.p)
    ensures Scale(i, d.q) + Pow2(d.q) <= Scale(Pow2(d.p), d.q)
  {
    ScaleMonotone(i + 1, Pow2(d.p), d.q);
    ScaleNext(i, d.q);
  }

  lemma {:induction false} ScaleNext(i: nat, n: nat)
    ensures Scale(i + 1, n) == Scale(i, n) + Pow2(n)
  {
    if n > 0 {
      ScaleNext(i, n - 1);
    }
  }

  /** A clock edge at the wide port. */
  function Wide(d: Ram, en: bool, wr: bool, a: nat, din: Word): (d': Ram)
    requires Valid(d) && a < Size(d) && |din| == Scale(Pow2(d.p), d.q)
    ensures Valid(d')
  {
    LineExists(d, a);
    d.(banks := seq(|d.banks|, i requires 0 <= i < |d.banks| => BankWide(d.banks[i], en, wr, LineOf(d, a), Slice(d, din, i))))
  }

  /** A clock edge at the narrow port; the delayed address follows even without enable. */
  function Narrow(d: Ram, en: bool, wr: bool, a: nat, din: Word): (d': Ram)
    requires Valid(d) && a < Size(d) && |din| == Pow2(d.q)
    ensures Valid(d')
  {
    LineExists(d, a);
    d.(banks := seq(|d.banks|, i requires 0 <= i < |d.banks| =>
                      BankNarrow(d.banks[i], en, wr && BankOf(d, a) == i, LineOf(d, a), din)),
       delayed := a)
  }

  /** The wide port's output: the banks' outputs side by side. */
  function WideOut(d: Ram): (w: Word)
    requires Valid(d)
    ensures |w| == Scale(Pow2(d.p), d.q)
  {
    seq<Byte>(Scale(Pow2(d.p), d.q), k requires 0 <= k < Scale(Pow2(d.p), d.q) =>
      (ShrBelow(k, Pow2(d.p), d.q); d.banks[Shr(k, d.q)].wideOut[Low(k, d.q)]))
  }

  function NarrowOut(d: Ram): Word
    requires Valid(d)
  {
    d.banks[BankOf(d, d.delayed)].narrowOut
  }

  /** The bytes in address order. */
  function Flat(d: Ram): (m: seq<Byte>)
    requires Valid(d)
    ensures |m| == Size(d)
  {
    seq<Byte>(Size(d), x requires 0 <= x < Size(d) => ByteAt(d, x))
  }

  function ByteAt(d: Ram, x: nat): Byte
    requires Valid(d) && x < Size(d)
  {
    LineExists(d, x);
    d.banks[BankOf(d, x)].ram[LineOf(d, x)][Low(x, d.q)]
  }

  /** Byte arrays written in place. */
  function Overwrite(m: seq<Byte>, base: nat, din: Word): (r: seq<Byte>)
    requires base + |din| <= |m|
    ensures |r| == |m|
  {
    m[..base] + din + m[base + |din|..]
  }

  /** The address of the word that a narrow access at a touches. */
  function NarrowBase(d: Ram, a: nat): nat { Scale(Shr(a, d.q), d.q) }

  function WideBase(d: Ram, a: nat): nat { Scale(Scale(LineOf(d, a), d.p), d.q) }

  lemma BasesFit(d: Ram, a: nat)
    requires a < Size(d)
    ensures NarrowBase(d, a) + Pow2(d.q) <= Size(d) && WideBase(d, a) + Scale(Pow2(d.p), d.q) <= Size(d)
  {
    LineExists(d, a);
    ScaleMonotone(Shr(a, d.q) + 1, Scale(d.lines, d.p), d.q);
    ScaleNext(Shr(a, d.q), d.q);
    ScaleMonotone(LineOf(d, a) + 1, d.lines, d.p);
    ScaleNext(LineOf(d, a), d.p);
    ScaleSum(Scale(LineOf(d, a), d.p), Pow2(d.p), d.q);
    ScaleMonotone(Scale(LineOf(d, a) + 1, d.p), Scale(d.lines, d.p), d.q);
  }

  /** A word's bytes are those whose address has its index above the offset bits. */
  lemma InWord(base: nat, x: nat, q: nat)
    ensures Shr(x, q) == base <==> Scale(base, q) <= x < Scale(base, q) + Pow2(q)
    ensures Shr(x, q) == base ==> Low(x, q) == x - Scale(base, q)
  {
    SplitBits(x, q);
    if Scale(base, q) <= x < Scale(base, q) + Pow2(q) {
      JoinBits(x, q, base, x - Scale(base, q));
    }
  }

  /** A line's bytes, and where they are in the wide word. */
  lemma OffsetInLine(d: Ram, x: nat)
    ensures x == Scale(Scale(LineOf(d, x), d.p), d.q) + Scale(BankOf(d, x), d.q) + Low(x, d.q)
  {
    SplitBits(x, d.q);
    SplitBits(Shr(x, d.q), d.p);
    ScaleSum(Scale(LineOf(d, x), d.p), BankOf(d, x), d.q);
  }

  lemma InLine(d: Ram, line: nat, x: nat)
    ensures var base := Scale(Scale(line, d.p), d.q);
      && (LineOf(d, x) == line <==> base <= x < base + Scale(Pow2(d.p), d.q))
      && (LineOf(d, x) == line ==> x - base == Scale(BankOf(d, x), d.q) + Low(x, d.q))
  {
    if LineOf(d, x) == line { OffsetInLine(d, x); }
    var index, first := Shr(x, d.q), Scale(line, d.p);
    InWord(line, index, d.p);
    SplitBits(x, d.q);
    ScaleSum(first, Pow2(d.p), d.q);
    if first <= index < first + Pow2(d.p) {
      ScaleSum(first, index - first, d.q);
      ScaleMonotone(index + 1, first + Pow2(d.p), d.q);
      ScaleNext(index, d.q);
    } else if index < first {
      ScaleMonotone(index + 1, first, d.q);
      ScaleNext(index, d.q);
    } else {
      ScaleMonotone(first + Pow2(d.p), index, d.q);
    }
  }

  lemma SameWordIndex(d: Ram, x: nat, a: nat)
    ensures BankOf(d, x) == BankOf(d, a) && LineOf(d, x) == LineOf(d, a) <==> Shr(x, d.q) == Shr(a, d.q)
  {
    SplitBits(Shr(x, d.q), d.p);
    SplitBits(Shr(a, d.q), d.p);
  }

  lemma NarrowByte(d: Ram, en: bool, wr: bool, a: nat, din: Word, x: nat)
    requires Valid(d) && a < Size(d) && x < Size(d) && |din| == Pow2(d.q)
    ensures ByteAt(Narrow(d, en, wr, a, din), x)
      == if en && wr && Shr(x, d.q) == Shr(a, d.q) then din[Low(x, d.q)] else ByteAt(d, x)
  {
    LineExists(d, x);
    LineExists(d, a);
    SameWordIndex(d, x, a);
  }

  lemma WideByte(d: Ram, en: bool, wr: bool, a: nat, din: Word, x: nat)
    requires Valid(d) && a < Size(d) && x < Size(d) && |din| == Scale(Pow2(d.p), d.q)
    ensures ByteAt(Wide(d, en, wr, a, din), x)
      == if en && wr && LineOf(d, x) == LineOf(d, a) then Slice(d, din, BankOf(d, x))[Low(x, d.q)] else ByteAt(d, x)
  {
    LineExists(d, x);
    LineExists(d, a);
  }

  /** On the flat byte array a narrow access writes one word in place. */
  lemma NarrowWrites(d: Ram, en: bool, wr: bool, a: nat, din: Word)
    requires Valid(d) && a < Size(d) && |din| == Pow2(d.q)
    ensures NarrowBase(d, a) + |din| <= Size(d)
    ensures Flat(Narrow(d, en, wr, a, din)) == if en && wr then Overwrite(Flat(d), NarrowBase(d, a), din) else Flat(d)
  {
    BasesFit(d, a);
    var m, m' := Flat(d), Flat(Narrow(d, en, wr, a, din));
    forall x | 0 <= x < |m|
      ensures m'[x] == if en && wr && NarrowBase(d, a) <= x < NarrowBase(d, a) + |din| then din[x - NarrowBase(d, a)] else m[x]
    {
      NarrowByte(d, en, wr, a, din, x);
      InWord(Shr(a, d.q), x, d.q);
    }
    Overwritten(m, m', NarrowBase(d, a), din, en && wr);
  }

  /** Byte by byte it is a write in place. */
  lemma Overwritten(m: seq<Byte>, m': seq<Byte>, base: nat, din: Word, write: bool)
    requires |m'| == |m| && base + |din| <= |m|
    requires forall x :: 0 <= x < |m| ==> m'[x] == if write && base <= x < base + |din| then din[x - base] else m[x]
    ensures m' == if write then Overwrite(m, base, din) else m
  {
  }

  lemma SliceByte(d: Ram, din: Word, i: nat, k: nat)
    requires |din| == Scale(Pow2(d.p), d.q) && i < Pow2(d.p) && k < Pow2(d.q)
    ensures Scale(i, d.q) + k < |din| && Slice(d, din, i)[k] == din[Scale(i, d.q) + k]
  {
    SliceFits(d, i);
  }

  /** A wide access writes one line in place. */
  lemma WideWrites(d: Ram, en: bool, wr: bool, a: nat, din: Word)
    requires Valid(d) && a < Size(d) && |din| == Scale(Pow2(d.p), d.q)
    ensures WideBase(d, a) + |din| <= Size(d)
    ensures Flat(Wide(d, en, wr, a, din)) == if en && wr then Overwrite(Flat(d), WideBase(d, a), din) else Flat(d)
  {
    BasesFit(d, a);
    var m, m' := Flat(d), Flat(Wide(d, en, wr, a, din));
    forall x | 0 <= x < |m|
      ensures m'[x] == if en && wr && WideBase(d, a) <= x < WideBase(d, a) + |din| then din[x - WideBase(d, a)] else m[x]
    {
      WideWritesByte(d, en, wr, a, din, x);
    }
    Overwritten(m, m', WideBase(d, a), din, en && wr);
  }

  lemma WideWritesByte(d: Ram, en: bool, wr: bool, a: nat, din: Word, x: nat)
    requires Valid(d) && a < Size(d) && x < Size(d) && |din| == Scale(Pow2(d.p), d.q)
    ensures ByteAt(Wide(d, en, wr, a, din), x)
      == if en && wr && WideBase(d, a) <= x < WideBase(d, a) + |din| then din[x - WideBase(d, a)] else ByteAt(d, x)
  {
    WideByte(d, en, wr, a, din, x);
    InLine(d, LineOf(d, a), x);
    if LineOf(d, x) == LineOf(d, a) { SliceByte(d, din, BankOf(d, x), Low(x, d.q)); }
  }

  /** The byte of a flat array at an offset into word or line, found in its bank. */
  lemma NarrowPlace(d: Ram, a: nat, k: nat)
    requires a < Size(d) && k < Pow2(d.q)
    ensures var x := NarrowBase(d, a) + k;
      x < Size(d) && Shr(x, d.q) == Shr(a, d.q) && Low(x, d.q) == k
  {
    BasesFit(d, a);
    JoinBits(NarrowBase(d, a) + k, d.q, Shr(a, d.q), k);
  }

  lemma WidePlace(d: Ram, a: nat, k: nat)
    requires a < Size(d) && k < Scale(Pow2(d.p), d.q)
    ensures var x := WideBase(d, a) + k;
      x < Size(d) && LineOf(d, x) == LineOf(d, a) && BankOf(d, x) == Shr(k, d.q) && Low(x, d.q) == Low(k, d.q)
  {
    BasesFit(d, a);
    var first, x := Scale(LineOf(d, a), d.p), WideBase(d, a) + k;
    ShrBelow(k, Pow2(d.p), d.q);
    SplitBits(k, d.q);
    ScaleSum(first, Shr(k, d.q), d.q);
    JoinBits(x, d.q, first + Shr(k, d.q), Low(k, d.q));
    JoinBits(first + Shr(k, d.q), d.p, LineOf(d, a), Shr(k, d.q));
  }

  /** An enabled narrow access shows, one cycle later, the word now in the flat array. */
  lemma NarrowReads(d: Ram, wr: bool, a: nat, din: Word)
    requires Valid(d) && a < Size(d) && |din| == Pow2(d.q)
    ensures var d' := Narrow(d, true, wr, a, din);
      NarrowBase(d, a) + Pow2(d.q) <= Size(d)
      && NarrowOut(d') == Flat(d')[NarrowBase(d, a)..NarrowBase(d, a) + Pow2(d.q)]
  {
    BasesFit(d, a);
    LineExists(d, a);
    var d', base := Narrow(d, true, wr, a, din), NarrowBase(d, a);
    var window := Flat(d')[base..base + Pow2(d.q)];
    forall k | 0 <= k < Pow2(d.q) ensures NarrowOut(d')[k] == window[k] {
      NarrowPlace(d, a, k);
      assert window[k] == ByteAt(d', base + k);
    }
  }

  lemma WideShows(d: Ram, wr: bool, a: nat, din: Word, k: nat)
    requires Valid(d) && a < Size(d) && |din| == Scale(Pow2(d.p), d.q) && k < |din|
    ensures var d' := Wide(d, true, wr, a, din);
      WideBase(d, a) + k < Size(d) && WideOut(d')[k] == ByteAt(d', WideBase(d, a) + k)
  {
    LineExists(d, a);
    WidePlace(d, a, k);
    ShrBelow(k, Pow2(d.p), d.q);
  }

  lemma WideReads(d: Ram, wr: bool, a: nat, din: Word)
    requires Valid(d) && a < Size(d) && |din| == Scale(Pow2(d.p), d.q)
    ensures var d' := Wide(d, true, wr, a, din);
      WideBase(d, a) + |din| <= Size(d) && WideOut(d') == Flat(d')[WideBase(d, a)..WideBase(d, a) + |din|]
  {
    BasesFit(d, a);
    var d', base := Wide(d, true, wr, a, din), WideBase(d, a);
    forall k | 0 <= k < |din| ensures WideOut(d')[k] == ByteAt(d', base + k) { WideShows(d, wr, a, din, k); }
    Window(d', base, WideOut(d'));
  }

  /** Bytes that are those at consecutive addresses are a piece of the flat array. */
  lemma Window(d: Ram, base: nat, w: Word)
    requires Valid(d) && base + |w| <= Size(d)
    requires forall k :: 0 <= k < |w| ==> w[k] == ByteAt(d, base + k)
    ensures w == Flat(d)[base..base + |w|]
  {
    var m, piece := Flat(d), Flat(d)[base..base + |w|];
    forall k | 0 <= k < |w| ensures piece[k] == w[k] { assert piece[k] == m[base + k]; }
  }

  /** What is shown at a port without an access: the wide port keeps its output, the narrow one shows the last output of
      the bank that the delayed address selects. Neither changes the memory, nor do accesses at one port what the other
      shows. */
  lemma OutputsHeld(d: Ram, wr: bool, a: nat, wide: Word, narrow: Word)
    requires Valid(d) && a < Size(d) && |wide| == Scale(Pow2(d.p), d.q) && |narrow| == Pow2(d.q)
    ensures WideOut(Wide(d, false, wr, a, wide)) == WideOut(d) && Flat(Wide(d, false, wr, a, wide)) == Flat(d)
    ensures NarrowOut(Narrow(d, false, wr, a, narrow)) == d.banks[BankOf(d, a)].narrowOut
    ensures Flat(Narrow(d, false, wr, a, narrow)) == Flat(d)
  {
    WideWrites(d, false, wr, a, wide);
    NarrowWrites(d, false, wr, a, narrow);
    DisabledWide(d, wr, a, wide);
    DisabledNarrow(d, wr, a, narrow);
  }

  lemma DisabledWide(d: Ram, wr: bool, a: nat, din: Word)
    requires Valid(d) && a < Size(d) && |din| == Scale(Pow2(d.p), d.q)
    ensures Wide(d, false, wr, a, din) == d
  {
    assert Wide(d, false, wr, a, din).banks == d.banks;
  }

  lemma DisabledNarrow(d: Ram, wr: bool, a: nat, din: Word)
    requires Valid(d) && a < Size(d) && |din| == Pow2(d.q)
    ensures Narrow(d, false, wr, a, din) == d.(delayed := Narrow(d, false, wr, a, din).delayed)
    ensures BankOf(d, Narrow(d, false, wr, a, din).delayed) == BankOf(d, a)
  {
    assert Narrow(d, false, wr, a, din).banks == d.banks;
  }

  /** An access at one port does not show at the other. */
  lemma PortsApart(d: Ram, en: bool, wr: bool, a: nat, wide: Word, narrow: Word)
    requires Valid(d) && a < Size(d) && |wide| == Scale(Pow2(d.p), d.q) && |narrow| == Pow2(d.q)
    ensures NarrowOut(Wide(d, en, wr, a, wide)) == NarrowOut(d)
    ensures WideOut(Narrow(d, en, wr, a, narrow)) == WideOut(d)
  {
    LineExists(d, a);
    var d' := Narrow(d, en, wr, a, narrow);
    forall k | 0 <= k < Scale(Pow2(d.p), d.q) ensures WideOut(d')[k] == WideOut(d)[k] { ShrBelow(k, Pow2(d.p), d.q); }
  }

  // ---- any interleaving of accesses at the two ports ----

  datatype Op = Op(wide: bool, en: bool, wr: bool, a: nat, din: Word)

  predicate OpFits(d: Ram, op: Op) {
    op.a < Size(d) && |op.din| == if op.wide then Scale(Pow2(d.p), d.q) else Pow2(d.q)
  }

  function Apply(d: Ram, op: Op): (d': Ram)
    requires Valid(d) && OpFits(d, op)
    ensures Valid(d') && d'.q == d.q && d'.p == d.p && d'.lines == d.lines
  {
    if op.wide then Wide(d, op.en, op.wr, op.a, op.din) else Narrow(d, op.en, op.wr, op.a, op.din)
  }

  function OutOf(d: Ram, op: Op): Word
    requires Valid(d)
  {
    if op.wide then WideOut(d) else NarrowOut(d)
  }

  predicate AllFit(d: Ram, ops: seq<Op>) { forall k :: 0 <= k < |ops| ==> OpFits(d, ops[k]) }

  /** The outputs of the enabled accesses, each just after its clock edge. */
  function Outputs(d: Ram, ops: seq<Op>): seq<Word>
    requires Valid(d) && AllFit(d, ops)
    decreases |ops|
  {
    if ops == [] then [] else Shown(d, ops[0]) + Outputs(Apply(d, ops[0]), ops[1..])
  }

  function Shown(d: Ram, op: Op): seq<Word>
    requires Valid(d) && OpFits(d, op)
  {
    if op.en then [OutOf(Apply(d, op), op)] else []
  }

  lemma FirstOutput(d: Ram, ops: seq<Op>)
    requires Valid(d) && ops != [] && AllFit(d, ops)
    ensures OpFits(d, ops[0]) && AllFit(Apply(d, ops[0]), ops[1..])
    ensures Outputs(d, ops) == Shown(d, ops[0]) + Outputs(Apply(d, ops[0]), ops[1..])
  {
  }

  /** The same accesses to a plain byte array. */
  function Base(d: Ram, op: Op): nat { if op.wide then WideBase(d, op.a) else NarrowBase(d, op.a) }

  function FlatApply(d: Ram, m: seq<Byte>, op: Op): (m': seq<Byte>)
    requires |m| == Size(d) && OpFits(d, op)
    ensures |m'| == |m|
  {
    BasesFit(d, op.a);
    if op.en && op.wr then Overwrite(m, Base(d, op), op.din) else m
  }

  function FlatOutputs(d: Ram, m: seq<Byte>, ops: seq<Op>): seq<Word>
    requires |m| == Size(d) && AllFit(d, ops)
    decreases |ops|
  {
    if ops == [] then [] else FlatShown(d, m, ops[0]) + FlatOutputs(d, FlatApply(d, m, ops[0]), ops[1..])
  }

  function FlatShown(d: Ram, m: seq<Byte>, op: Op): seq<Word>
    requires |m| == Size(d) && OpFits(d, op)
  {
    BasesFit(d, op.a);
    if op.en then [FlatApply(d, m, op)[Base(d, op)..Base(d, op) + |op.din|]] else []
  }

  /** What one access does to the flat array, and what it shows. */
  ghost predicate Refines(d: Ram, op: Op)
    requires Valid(d) && OpFits(d, op)
  {
    Flat(Apply(d, op)) == FlatApply(d, Flat(d), op) && Shown(d, op) == FlatShown(d, Flat(d), op)
  }

  lemma WideRefines(d: Ram, op: Op)
    requires Valid(d) && OpFits(d, op) && op.wide
    ensures Refines(d, op)
  {
    WideWrites(d, op.en, op.wr, op.a, op.din);
    if op.en {
      WideReads(d, op.wr, op.a, op.din);
      ShownAs(d, op, WideOut(Apply(d, op)));
    }
  }

  lemma NarrowRefines(d: Ram, op: Op)
    requires Valid(d) && OpFits(d, op) && !op.wide
    ensures Refines(d, op)
  {
    NarrowWrites(d, op.en, op.wr, op.a, op.din);
    if op.en {
      NarrowReads(d, op.wr, op.a, op.din);
      ShownAs(d, op, NarrowOut(Apply(d, op)));
    }
  }

  lemma ShownAs(d: Ram, op: Op, out: Word)
    requires Valid(d) && OpFits(d, op) && op.en && out == OutOf(Apply(d, op), op)
    requires Flat(Apply(d, op)) == FlatApply(d, Flat(d), op) && Base(d, op) + |op.din| <= Size(d)
    requires out == Flat(Apply(d, op))[Base(d, op)..Base(d, op) + |op.din|]
    ensures Shown(d, op) == FlatShown(d, Flat(d), op)
  {
  }

  lemma ApplyRefines(d: Ram, op: Op)
    requires Valid(d) && OpFits(d, op)
    ensures Refines(d, op)
  {
    if op.wide {
      WideRefines(d, op);
    } else {
      NarrowRefines(d, op);
    }
  }

  predicate SameShape(d: Ram, g: Ram) { d.q == g.q && d.p == g.p && d.lines == g.lines }

  lemma FitsShape(d: Ram, g: Ram, ops: seq<Op>)
    requires SameShape(d, g) && AllFit(g, ops)
    ensures Size(g) == Size(d) && AllFit(d, ops)
  {
  }

  /** One access: the flat side depends on the geometry alone. */
  lemma RefinesFirst(g: Ram, d: Ram, op: Op)
    requires Valid(d) && SameShape(d, g) && OpFits(d, op)
    ensures Size(g) == Size(d) && OpFits(g, op) && SameShape(Apply(d, op), g)
    ensures Flat(Apply(d, op)) == FlatApply(g, Flat(d), op) && Shown(d, op) == FlatShown(g, Flat(d), op)
  {
    ApplyRefines(d, op);
  }

  lemma {:induction false} RefinesFrom(g: Ram, d: Ram, ops: seq<Op>)
    requires Valid(d) && SameShape(d, g) && AllFit(g, ops) && AllFit(d, ops) && Size(g) == Size(d)
    ensures Outputs(d, ops) == FlatOutputs(g, Flat(d), ops)
    decreases |ops|
  {
    if ops != [] {
      RefinesFirst(g, d, ops[0]);
      FitsShape(Apply(d, ops[0]), g, ops[1..]);
      RefinesFrom(g, Apply(d, ops[0]), ops[1..]);
    }
  }

  /** Whatever the two ports do, one access at a time: every enabled access shows what a flat little-endian byte
      array would show, the bytes last written by either port. */
  lemma RamIsFlat(d: Ram, ops: seq<Op>)
    requires Valid(d) && AllFit(d, ops)
    ensures Outputs(d, ops) == FlatOutputs(d, Flat(d), ops)
  {
    RefinesFrom(d, d, ops);
  }
}
