/** The other end of the protocol: the command processor that moves the data and decrements the signals. */
module Dma {
  import opened Bits
  import opened Memory
  import opened Protocol

  /** x - 1 on the 64-bit signal value. */
  function Decrement(x: U64): U64 { if x == 0 then DWORD - 1 else x - 1 }

  function Decremented(m: Memory, signal: int): Memory {
    var width := 8;
    Store(m, signal, width, Decrement(Load64(m, signal)))
  }

  lemma DecrementedMeaning(m: Memory, signal: int)
    ensures Load64(Decremented(m, signal), signal) == (Load64(m, signal) + (DWORD - 1)) % DWORD
    ensures forall a :: !(signal <= a < signal + 8) ==> Read(Decremented(m, signal), a) == Read(m, a)
  {
    var width, v := 8, Decrement(Load64(m, signal));
    StoreLoad(m, signal, v);
    forall a | !(signal <= a < signal + 8) ensures Read(Decremented(m, signal), a) == Read(m, a) {
      ReadWrite(m, signal, Digits(v, width), a);
    }
  }

  /** The word at the signal has been decremented by one, modulo 2^64. */
  ghost predicate OneLess(before: Memory, after: Memory, signal: int) {
    Load64(after, signal) == (Load64(before, signal) + (DWORD - 1)) % DWORD
  }

  lemma DecrementedOnce(m: Memory, signal: int)
    ensures OneLess(m, Decremented(m, signal), signal)
  {
    DecrementedMeaning(m, signal);
  }

  lemma WordFits(width: nat, i: nat, words: nat)
    requires i < words
    ensures width * i + width == width * (i + 1) <= width * words
  {
    MulMonotone(i + 1, words, width);
  }

  /** The memory after n pieces of the given width have been copied one after another, lowest address first. */
  function Forward(m: Memory, dst: int, src: int, width: nat, n: nat): Memory {
    if n == 0 then m
    else Copy(Forward(m, dst, src, width, n - 1), dst + width * (n - 1), src + width * (n - 1), width)
  }

  /** Doublewords as far as they go, then bytes. */
  function Transferred(m: Memory, dst: int, src: int, length: nat): Memory {
    var words := length / 8;
    Forward(Forward(m, dst, src, 8, words), dst + 8 * words, src + 8 * words, 1, length % 8)
  }

  /** Byte j of piece i is the one at its source after the pieces before. */
  lemma {:induction false} ForwardByte(m: Memory, dst: int, src: int, width: nat, n: nat, i: nat, j: nat)
    requires i < n && j < width
    ensures Read(Forward(m, dst, src, width, n), dst + width * i + j)
      == Read(Forward(m, dst, src, width, i), src + width * i + j)
  {
    var done := width * (n - 1);
    var before := Forward(m, dst, src, width, n - 1);
    ReadWrite(before, dst + done, Bytes(before, src + done, width), dst + width * i + j);
    if i < n - 1 {
      WordFits(width, i, n - 1);
      ForwardByte(m, dst, src, width, n - 1, i, j);
    }
  }

  lemma {:induction false} ForwardMisses(m: Memory, dst: int, src: int, width: nat, n: nat, a: int)
    requires a < dst
    ensures Read(Forward(m, dst, src, width, n), a) == Read(m, a)
  {
    if n > 0 {
      var before := Forward(m, dst, src, width, n - 1);
      ForwardMisses(m, dst, src, width, n - 1, a);
      MulMonotone(0, n - 1, width);
      ReadWrite(before, dst + width * (n - 1), Bytes(before, src + width * (n - 1), width), a);
    }
  }

  lemma {:induction false} ForwardCopies(m: Memory, dst: int, src: int, width: nat, n: nat)
    requires dst <= src || src + width * n <= dst
    ensures Forward(m, dst, src, width, n) == Copy(m, dst, src, width * n)
  {
    if n > 0 {
      WordFits(width, n - 1, n);
      ForwardCopies(m, dst, src, width, n - 1);
      CopyFurther(m, dst, src, width * (n - 1), width);
    }
  }

  /** Where the destination starts inside the source, this byte is one that the transfer has overwritten before it
      reads it. */
  function Stale(length: nat, d: nat): nat { if length < 8 || d > 8 then d else 8 }

  /** The first doubleword puts the bytes at the source's start where later ones are read. */
  lemma FirstWord(m: Memory, dst: int, src: int, n: nat, k: nat)
    requires n > 0 && dst - src <= k < dst - src + 8
    ensures Read(Forward(m, dst, src, 8, n), src + k) == Read(m, src + k - (dst - src))
  {
    var width, j := 8, k - (dst - src);
    ForwardByte(m, dst, src, width, n, 0, j);
  }

  lemma StaleInWords(m: Memory, dst: int, src: int, words: nat, k: nat)
    requires src < dst && 8 <= k < 8 * words && dst - src <= k < dst - src + 8
    ensures Read(Forward(m, dst, src, 8, words), dst + k) == Read(m, src + k - (dst - src))
  {
    var width := 8;
    ForwardByte(m, dst, src, width, words, k / 8, k % 8);
    FirstWord(m, dst, src, k / 8, k);
  }

  lemma StaleInBytes(m: Memory, dst: int, src: int, words: nat, rest: nat, k: nat)
    requires src < dst && words > 0 && 8 * words <= k < 8 * words + rest && dst - src <= k < dst - src + 8
    ensures Read(Forward(Forward(m, dst, src, 8, words), dst + 8 * words, src + 8 * words, 1, rest), dst + k)
      == Read(m, src + k - (dst - src))
  {
    var end := 8 * words;
    var m1, i := Forward(m, dst, src, 8, words), k - end;
    ForwardByte(m1, dst + end, src + end, 1, rest, i, 0);
    ForwardMisses(m1, dst + end, src + end, 1, i, src + k);
    FirstWord(m, dst, src, words, k);
  }

  lemma StaleByte(m: Memory, dst: int, src: int, length: nat)
    requires src < dst < src + length && length != 8
    ensures var k := Stale(length, dst - src);
      dst - src <= k < length && Read(Transferred(m, dst, src, length), dst + k) == Read(m, src + k - (dst - src))
  {
    var words, d := length / 8, dst - src;
    var k, end := Stale(length, d), 8 * words;
    if k < end {
      ForwardMisses(Forward(m, dst, src, 8, words), dst + end, src + end, 1, length % 8, dst + k);
      StaleInWords(m, dst, src, words, k);
    } else if words > 0 {
      StaleInBytes(m, dst, src, words, length % 8, k);
    } else {
      ForwardByte(m, dst, src, 1, length, d, 0);
      ForwardByte(m, dst, src, 1, d, 0, 0);
    }
  }

  /** A transfer copies its payload in every memory exactly when the destination does not start inside the source, or
      the payload is one doubleword. */
  lemma TransferredIff(dst: int, src: int, length: nat)
    ensures (forall m: Memory :: Transferred(m, dst, src, length) == Copy(m, dst, src, length))
      <==> dst <= src || src + length <= dst || length == 8
  {
    if dst <= src || src + length <= dst || length == 8 {
      forall m: Memory ensures Transferred(m, dst, src, length) == Copy(m, dst, src, length) {
        TransferCopies(m, dst, src, length);
      }
    } else {
      var m := map[src + Stale(length, dst - src) := 1];
      TransferDiffers(m, dst, src, length);
      assert Transferred(m, dst, src, length) != Copy(m, dst, src, length);
    }
  }

  lemma TransferDiffers(m: Memory, dst: int, src: int, length: nat)
    requires src < dst < src + length && length != 8 && m == map[src + Stale(length, dst - src) := 1]
    ensures Transferred(m, dst, src, length) != Copy(m, dst, src, length)
  {
    var k := Stale(length, dst - src);
    StaleByte(m, dst, src, length);
    ReadWrite(m, dst, Bytes(m, src, length), dst + k);
    assert Read(Copy(m, dst, src, length), dst + k) == Read(m, src + k) == 1;
  }

  lemma TransferCopies(m: Memory, dst: int, src: int, length: nat)
    requires dst <= src || src + length <= dst || length == 8
    ensures Transferred(m, dst, src, length) == Copy(m, dst, src, length)
  {
    var words, rest, width := length / 8, length % 8, 8;
    var end := width * words;
    if dst <= src || src + length <= dst {
      ForwardCopies(m, dst, src, width, words);
      ForwardCopies(Copy(m, dst, src, end), dst + end, src + end, 1, rest);
      CopyFurther(m, dst, src, end, rest);
    } else {
      assert Forward(m, dst, src, width, 1) == Copy(Forward(m, dst, src, width, 0), dst, src, width);
    }
  }

  /** The 32-bit loop counter gets as far as the number of doublewords exactly for transfers below 2^35 bytes. */
  lemma CopyEndsIff(length: nat)
    ensures (exists passes: nat :: Counter(passes, WORD) >= length / 8) <==> length < 0x8_0000_0000
  {
    CounterReaches(length / 8, WORD);
  }

  class CommandProcessor {
    var memory: Memory

    /** Doubleword steps first, then bytes; longer transfers do not end. */
    method InterruptTransfer(host: int, device: int, length: nat, direction: Direction)
      requires length < 0x8_0000_0000
      modifies this
      ensures memory == if direction == LoadData then Transferred(old(memory), device, host, length)
                        else Transferred(old(memory), host, device, length)
    {
      var length64 := length / 8;
      var length8 := length - length64 * 8;
      var src, dst := device, host;
      if direction == LoadData {
        src, dst := host, device;
      }
      CopyWords(dst, src, length64, 8);
      CopyRest(dst + 8 * length64, src + 8 * length64, length8);
    }

    /** Copies the whole 64-bit words of the transfer, lowest address first. */
    method CopyWords(dst: int, src: int, words: nat, width: nat)
      requires words < WORD
      modifies this
      ensures memory == Forward(old(memory), dst, src, width, words)
    {
      var i: U32 := 0;
      var to, from := dst, src;
      while i < words
        invariant i <= words && i == Counter(i, WORD) && to == dst + width * i && from == src + width * i
        invariant memory == Forward(old(memory), dst, src, width, i)
        decreases words - i
      {
        LoadStore(memory, to, from, width);
        WordFits(width, i, words);
        memory := Store(memory, to, width, Load(memory, from, width));
        i, to, from := (i + 1) % WORD, to + width, from + width;
      }
    }

    /** Copies the bytes left over after the last whole word, lowest address first. */
    method CopyRest(dst: int, src: int, rest: nat)
      requires rest < WORD
      modifies this
      ensures memory == Forward(old(memory), dst, src, 1, rest)
    {
      var i: U32 := 0;
      while i < rest
        invariant i <= rest && memory == Forward(old(memory), dst, src, 1, i)
        decreases rest - i
      {
        memory := Copy(memory, dst + i, src + i, 1);
        i := (i + 1) % WORD;
      }
    }

    method InterruptCompletion(signal: int)
      modifies this
      ensures memory == Decremented(old(memory), signal)
      ensures Load64(memory, signal) == (Load64(old(memory), signal) + (DWORD - 1)) % DWORD
      ensures forall a :: !(signal <= a < signal + 8) ==> Read(memory, a) == Read(old(memory), a)
    {
      DecrementedMeaning(memory, signal);
      var width := 8;
      memory := Store(memory, signal, width, Decrement(Load64(memory, signal)));
    }
  }
}
