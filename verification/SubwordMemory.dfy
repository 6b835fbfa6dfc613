/** A word memory seen as bytes: what reading a piece of a word and merging a piece into it mean. */
module SubwordMemory {
  import opened Bits
  import opened Memory
  import opened MipsIsa
  import opened MipsUnits

  /** The data memory, by word index. */
  type Words = map<int, U32>

  function WordAt(words: Words, index: int): U32 { if index in words then words[index] else 0 }

  /** Byte k of every word is the byte at four times its index plus k. */
  ghost predicate Agrees(mem: Memory, words: Words) {
    forall a :: 0 <= a < WORD ==> Read(mem, a) == ByteAt(WordAt(words, a / 4), a % 4)
  }

  /** The part of a word that a width and an offset select. */
  function Piece(word: U32, width: nat, offset: nat): U32 {
    if width == 1 then ByteAt(word, offset) else if width == 2 then HalfAt(word, offset) else word
  }

  predicate Proper(width: nat, a: int) { width in {1, 2, 4} && 0 <= a < WORD && AlignedTo(a, width) }

  lemma NumberOfOne(m: Memory, a: int)
    ensures Load(m, a, 1) == Read(m, a)
  {
    var s := Bytes(m, a, 1);
    assert s[1..] == [] && Number(s[1..]) == 0 && s[0] == Read(m, a + 0);
  }

  lemma NumberOfTwo(m: Memory, a: int)
    ensures Load(m, a, 2) == Read(m, a) + 256 * Read(m, a + 1)
  {
    NumberOfOne(m, a + 1);
    assert Bytes(m, a, 2)[1..] == Bytes(m, a + 1, 1);
  }

  lemma NumberOfFour(m: Memory, a: int)
    ensures Load(m, a, 4) == Read(m, a) + 256 * (Read(m, a + 1) + 256 * (Read(m, a + 2) + 256 * Read(m, a + 3)))
  {
    NumberOfTwo(m, a + 2);
    var s, t := Bytes(m, a, 4), Bytes(m, a + 1, 3);
    assert s[1..] == t && t[1..] == Bytes(m, a + 2, 2);
    assert Number(s) == s[0] + 256 * Number(t) && Number(t) == t[0] + 256 * Number(t[1..]);
  }

  function Compose(b0: Byte, b1: Byte, b2: Byte, b3: Byte): U32 { b0 + 0x100 * b1 + 0x1_0000 * b2 + 0x100_0000 * b3 }

  /** Splitting at bit 16 and at bit 24, one byte at a time. */
  lemma NestedParts(w: U32)
    ensures var q1 := w / 0x100;
      var q2 := q1 / 0x100;
      && w / 0x1_0000 == q2 && w % 0x1_0000 == q1 % 0x100 * 0x100 + w % 0x100
      && w / 0x100_0000 == q2 / 0x100 && w % 0x100_0000 == q2 % 0x100 * 0x1_0000 + q1 % 0x100 * 0x100 + w % 0x100
  {
    var q1 := w / 0x100;
    var q2 := q1 / 0x100;
    var r0, r1, r2 := w % 0x100, q1 % 0x100, q2 % 0x100;
    assert w == q1 * 0x100 + r0 && q1 == q2 * 0x100 + r1 && q2 == q2 / 0x100 * 0x100 + r2;
    DivModUnique(w, 0x1_0000, q2, r1 * 0x100 + r0);
    DivModUnique(w, 0x100_0000, q2 / 0x100, r2 * 0x1_0000 + r1 * 0x100 + r0);
  }

  /** The high and low parts of a word in terms of its bytes. */
  lemma Parts(w: U32)
    ensures var b0, b1, b2, b3 := ByteAt(w, 0), ByteAt(w, 1), ByteAt(w, 2), ByteAt(w, 3);
      && w / 0x100 == b1 + 0x100 * b2 + 0x1_0000 * b3 && w / 0x1_0000 == b2 + 0x100 * b3 && w / 0x100_0000 == b3
      && w % 0x100 == b0 && w % 0x1_0000 == b0 + 0x100 * b1 && w % 0x100_0000 == b0 + 0x100 * b1 + 0x1_0000 * b2
      && b0 < 0x100 && b1 < 0x100 && b2 < 0x100 && b3 < 0x100
  {
    NestedParts(w);
    var q1 := w / 0x100;
    var q2 := q1 / 0x100;
    assert q1 == q2 * 0x100 + q1 % 0x100 && q2 == q2 / 0x100 * 0x100 + q2 % 0x100;
  }

  lemma ComposedBytes(b0: Byte, b1: Byte, b2: Byte, b3: Byte)
    ensures var w := Compose(b0, b1, b2, b3);
      ByteAt(w, 0) == b0 && ByteAt(w, 1) == b1 && ByteAt(w, 2) == b2 && ByteAt(w, 3) == b3
  {
    var w := Compose(b0, b1, b2, b3);
    var q1, q2 := b1 + 0x100 * b2 + 0x1_0000 * b3, b2 + 0x100 * b3;
    DivModUnique(w, 0x100, q1, b0);
    DivModUnique(q1, 0x100, q2, b1);
    DivModUnique(q2, 0x100, b3, b2);
    NestedParts(w);
  }

  lemma WordOfBytes(w: U32)
    ensures w == Compose(ByteAt(w, 0), ByteAt(w, 1), ByteAt(w, 2), ByteAt(w, 3))
    ensures HalfAt(w, 0) == ByteAt(w, 0) + 0x100 * ByteAt(w, 1) && HalfAt(w, 2) == ByteAt(w, 2) + 0x100 * ByteAt(w, 3)
  {
    Parts(w);
    var high, low := w / 0x100, w % 0x100;
    assert w == high * 0x100 + low;
  }

  /** Byte k of word i. */
  lemma ReadAt(mem: Memory, words: Words, i: nat, k: nat)
    requires Agrees(mem, words) && i < 0x4000_0000 && k < 4
    ensures Read(mem, 4 * i + k) == ByteAt(WordAt(words, i), k)
  {
    assert (4 * i + k) / 4 == i && (4 * i + k) % 4 == k;
  }

  lemma HalfOfBytes(w: U32, b0: nat, b1: nat, offset: nat)
    requires (offset == 0 || offset == 2) && b0 == ByteAt(w, offset) && b1 == ByteAt(w, offset + 1)
    ensures HalfAt(w, offset) == b0 + 256 * b1
  {
    WordOfBytes(w);
  }

  lemma LoadTwo(mem: Memory, words: Words, i: nat, offset: nat)
    requires Agrees(mem, words) && i < 0x4000_0000 && (offset == 0 || offset == 2)
    ensures Load(mem, 4 * i + offset, 2) == HalfAt(WordAt(words, i), offset)
  {
    var a := 4 * i + offset;
    NumberOfTwo(mem, a);
    ReadAt(mem, words, i, offset);
    ReadAt(mem, words, i, offset + 1);
    HalfOfBytes(WordAt(words, i), Read(mem, a), Read(mem, a + 1), offset);
  }

  lemma WordFromBytes(w: U32, b0: nat, b1: nat, b2: nat, b3: nat)
    requires b0 == ByteAt(w, 0) && b1 == ByteAt(w, 1) && b2 == ByteAt(w, 2) && b3 == ByteAt(w, 3)
    ensures w == b0 + 256 * (b1 + 256 * (b2 + 256 * b3))
  {
    WordOfBytes(w);
  }

  lemma LoadFour(mem: Memory, words: Words, i: nat)
    requires Agrees(mem, words) && i < 0x4000_0000
    ensures Load(mem, 4 * i, 4) == WordAt(words, i)
  {
    var a := 4 * i;
    NumberOfFour(mem, a);
    ReadAt(mem, words, i, 0);
    ReadAt(mem, words, i, 1);
    ReadAt(mem, words, i, 2);
    ReadAt(mem, words, i, 3);
    WordFromBytes(WordAt(words, i), Read(mem, a), Read(mem, a + 1), Read(mem, a + 2), Read(mem, a + 3));
  }

  lemma LoadPiece(mem: Memory, words: Words, i: nat, offset: nat, width: nat)
    requires Agrees(mem, words) && i < 0x4000_0000 && offset < 4
    requires width == 1 || (width == 2 && (offset == 0 || offset == 2)) || (width == 4 && offset == 0)
    ensures Load(mem, 4 * i + offset, width) == Piece(WordAt(words, i), width, offset)
  {
    if width == 1 {
      NumberOfOne(mem, 4 * i + offset);
      ReadAt(mem, words, i, offset);
    } else if width == 2 {
      LoadTwo(mem, words, i, offset);
    } else {
      LoadFour(mem, words, i);
    }
  }

  lemma OffsetInWord(a: nat, width: nat)
    requires Proper(width, a)
    ensures width == 1 || (width == 2 && (a % 4 == 0 || a % 4 == 2)) || (width == 4 && a % 4 == 0)
  {
    if width == 2 { EvenOffset(a); }
  }

  lemma EvenOffset(a: nat)
    requires a % 2 == 0
    ensures a % 4 == 0 || a % 4 == 2
  {
    var half := a / 2;
    assert a == 2 * half && half == 2 * (half / 2) + half % 2;
    DivModUnique(a, 4, half / 2, 2 * (half % 2));
  }

  /** An aligned load sees the selected piece of its word. */
  lemma LoadSeesPiece(mem: Memory, words: Words, a: int, width: nat)
    requires Agrees(mem, words) && Proper(width, a)
    ensures Load(mem, a, width) == Piece(WordAt(words, a / 4), width, a % 4)
  {
    OffsetInWord(a, width);
    LoadPiece(mem, words, a / 4, a % 4, width);
  }

  /** The word after a store of the given width. */
  function Stored(word: U32, width: nat, offset: nat, data: U32): U32 {
    if width == 4 then data else Merge(word, width == 1, offset, data)
  }

  lemma DigitsOfWord(v: U32, width: nat, k: nat)
    requires width in {1, 2, 4} && k < width
    ensures Digits(v, width)[k] == ByteAt(v, k)
  {
    NestedParts(v);
    var q1 := v / 0x100;
    var q2 := q1 / 0x100;
    if width == 2 {
      TwoDigits(v);
    } else if width == 4 {
      FourDigits(v, q1, q2, q2 / 0x100);
    }
  }

  lemma TwoDigits(v: nat)
    ensures Digits(v, 2) == [v % 256, v / 256 % 256]
  {
    assert Digits(v / 256 / 256, 0) == [];
  }

  lemma FourDigits(v: nat, q1: nat, q2: nat, q3: nat)
    requires q1 == v / 256 && q2 == q1 / 256 && q3 == q2 / 256
    ensures Digits(v, 4) == [v % 256, q1 % 256, q2 % 256, q3 % 256]
  {
    TwoDigits(q2);
    assert Digits(q1, 3) == [q1 % 256] + Digits(q2, 2);
  }

  lemma MergedParts(word: U32, width: nat, offset: nat, data: U32)
    requires width in {1, 2} && AlignedTo(offset, width) && offset < 4
    ensures var w0, w1, w2, w3 := ByteAt(word, 0), ByteAt(word, 1), ByteAt(word, 2), ByteAt(word, 3);
      var d0, d1 := ByteAt(data, 0), ByteAt(data, 1);
      Merge(word, width == 1, offset, data)
        == if width == 1 then
             (if offset == 0 then Compose(d0, w1, w2, w3) else if offset == 1 then Compose(w0, d0, w2, w3)
              else if offset == 2 then Compose(w0, w1, d0, w3) else Compose(w0, w1, w2, d0))
           else if offset == 0 then Compose(d0, d1, w2, w3) else Compose(w0, w1, d0, d1)
  {
    Parts(word);
    Parts(data);
  }

  /** Each byte of the merged word is the stored one or the old one. */
  lemma MergedByte(word: U32, width: nat, offset: nat, data: U32, k: nat)
    requires width in {1, 2, 4} && AlignedTo(offset, width) && offset < 4 && k < 4
    ensures ByteAt(Stored(word, width, offset, data), k)
      == if offset <= k < offset + width then ByteAt(data, k - offset) else ByteAt(word, k)
  {
    var w0, w1, w2, w3 := ByteAt(word, 0), ByteAt(word, 1), ByteAt(word, 2), ByteAt(word, 3);
    var d0, d1 := ByteAt(data, 0), ByteAt(data, 1);
    if width == 4 {
    } else {
      MergedParts(word, width, offset, data);
      if width == 1 {
        if offset == 0 { ComposedBytes(d0, w1, w2, w3); }
        else if offset == 1 { ComposedBytes(w0, d0, w2, w3); }
        else if offset == 2 { ComposedBytes(w0, w1, d0, w3); }
        else { ComposedBytes(w0, w1, w2, d0); }
      } else {
        if offset == 0 { ComposedBytes(d0, d1, w2, w3); } else { ComposedBytes(w0, w1, d0, d1); }
      }
    }
  }

  /** An aligned store into the byte memory is the merge into the word. */
  lemma StoreMerges(mem: Memory, words: Words, a: int, width: nat, data: U32)
    requires Agrees(mem, words) && Proper(width, a)
    ensures Agrees(Store(mem, a, width, data),
                   words[a / 4 := Stored(WordAt(words, a / 4), width, a % 4, data)])
  {
    var word := WordAt(words, a / 4);
    var words' := words[a / 4 := Stored(word, width, a % 4, data)];
    forall b | 0 <= b < WORD ensures Read(Store(mem, a, width, data), b) == ByteAt(WordAt(words', b / 4), b % 4) {
      StoredByte(mem, words, a, width, data, b);
    }
  }

  lemma StoredByte(mem: Memory, words: Words, a: int, width: nat, data: U32, b: int)
    requires Agrees(mem, words) && Proper(width, a) && 0 <= b < WORD
    ensures Read(Store(mem, a, width, data), b)
      == ByteAt(WordAt(words[a / 4 := Stored(WordAt(words, a / 4), width, a % 4, data)], b / 4), b % 4)
  {
    ReadWrite(mem, a, Digits(data, width), b);
    OffsetAligned(width, a);
    MergedByte(WordAt(words, a / 4), width, a % 4, data, b % 4);
    if a <= b < a + width {
      DigitsOfWord(data, width, b - a);
      SameWord(width, a, b);
    } else if b / 4 == a / 4 {
      assert b - a == b % 4 - a % 4;
    }
  }

  lemma OffsetAligned(width: nat, a: int)
    requires Proper(width, a)
    ensures AlignedTo(a % 4, width) && a % 4 + width <= 4
  {
    if width == 2 { assert a % 4 % 2 == a % 2; }
  }

  lemma SameWord(width: nat, a: int, b: int)
    requires Proper(width, a) && a <= b < a + width
    ensures b / 4 == a / 4 && b % 4 == a % 4 + (b - a)
  {
    OffsetAligned(width, a);
  }
}
