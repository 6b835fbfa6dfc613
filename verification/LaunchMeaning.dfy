/** What a request has to say for the packet it is made for: the argument block that is fetched, the image that is moved,
    and the configuration of the core. */
module LaunchMeaning {
  import opened Options
  import opened Bits
  import opened Protocol

  /** The coefficients of the fixed smoothing filters, row by row. */
  const GAUSS_3X3_MASK: seq<nat> := [1, 2, 1, 2, 4, 2, 1, 2, 1]
  const GAUSS_5X5_MASK: seq<nat> :=
    [1, 4, 6, 4, 1, 4, 16, 24, 16, 4, 6, 24, 36, 24, 6, 4, 16, 24, 16, 4, 1, 4, 6, 4, 1]

  function Sum(s: seq<nat>): nat { if s == [] then 0 else Sum(s[..|s| - 1]) + s[|s| - 1] }

  /** A smoothing filter is scaled down by the sum of its coefficients, a custom one by what its arguments say, and any
      other kernel not at all. */
  predicate Scales(kernel: nat, normalization: nat, custom: nat) {
    if kernel == 0x11 then Pow2(normalization) == Sum(GAUSS_3X3_MASK)
    else if kernel == 0x12 then Pow2(normalization) == Sum(GAUSS_5X5_MASK)
    else if kernel == 0x31 || kernel == 0x32 then normalization == custom
    else normalization == 0
  }

  lemma NormalizationScales(kernel: nat, args: KernArgs)
    ensures Scales(kernel, Normalization(kernel, args), args.normalization)
  {
    assert Pow2(4) == 16 && Pow2(8) == 256;
    SumOfSmall();
    SumOfLarge();
  }

  lemma {:induction false} SumJoin(s: seq<nat>, t: seq<nat>)
    ensures Sum(s + t) == Sum(s) + Sum(t)
  {
    if t == [] {
      assert s + t == s;
    } else {
      assert (s + t)[..|s + t| - 1] == s + t[..|t| - 1];
      SumJoin(s, t[..|t| - 1]);
    }
  }

  lemma SumOfTwo(a: nat, b: nat)
    ensures Sum([a, b]) == a + b
  {
    assert [a, b][..1] == [a] && [a][..0] == [] && Sum([a, b]) == Sum([a]) + b && Sum([a]) == Sum([]) + a;
  }

  lemma SumOfThree(a: nat, b: nat, c: nat)
    ensures Sum([a, b, c]) == a + b + c
  {
    SumOfTwo(a, b);
    assert [a, b, c][..2] == [a, b] && Sum([a, b, c]) == Sum([a, b]) + c;
  }

  lemma SumOfFive(a: nat, b: nat, c: nat, d: nat, e: nat)
    ensures Sum([a, b, c, d, e]) == a + b + c + d + e
  {
    assert [a, b, c, d, e] == [a, b, c] + [d, e];
    SumOfThree(a, b, c);
    SumOfTwo(d, e);
    SumJoin([a, b, c], [d, e]);
  }

  lemma SumOfSmall()
    ensures Sum(GAUSS_3X3_MASK) == 16
  {
    var edge, middle: seq<nat> := [1, 2, 1], [2, 4, 2];
    assert GAUSS_3X3_MASK == edge + middle + edge;
    SumOfThree(1, 2, 1);
    SumOfThree(2, 4, 2);
    SumJoin(edge, middle);
    SumJoin(edge + middle, edge);
  }

  lemma SumOfLarge()
    ensures Sum(GAUSS_5X5_MASK) == 256
  {
    var edge, next, middle: seq<nat> := [1, 4, 6, 4, 1], [4, 16, 24, 16, 4], [6, 24, 36, 24, 6];
    assert GAUSS_5X5_MASK == edge + next + middle + next + edge;
    SumOfFive(1, 4, 6, 4, 1);
    SumOfFive(4, 16, 24, 16, 4);
    SumOfFive(6, 24, 36, 24, 6);
    SumJoin(edge, next);
    SumJoin(edge + next, middle);
    SumJoin(edge + next + middle, next);
    SumJoin(edge + next + middle + next, edge);
  }

  /** The configuration of a core for packet kp with these arguments, its block at kernarg and its image at image. The
      mask of a custom filter begins where the normalization is. */
  predicate RightLaunch(r: LaunchRequest, slot: Slot, kp: KernelPacket, args: KernArgs, kernarg: Address, image: Address) {
    && r.slot == slot && r.kernel == kp.kernelObject % 0x1_0000
    && Scales(r.kernel, r.normalization, args.normalization)
    && r.threshold == args.threshold && r.colorModel == args.colorModel && r.border == args.border
    && r.sizeX == kp.gridX && r.sizeY == kp.gridY && r.src == image && r.dst == image
    && r.mask == if r.kernel == 0x31 || r.kernel == 0x32 then Some(kernarg + 20) else None
  }

  lemma LaunchIsRight(slot: Slot, kp: KernelPacket, args: KernArgs, kernarg: Address, image: Address)
    ensures RightLaunch(LaunchFor(slot, kp, args, kernarg, image), slot, kp, args, kernarg, image)
  {
    NormalizationScales(kp.kernelObject % 0x1_0000, args);
  }

  /** The length of the argument block: 20 bytes, and for a custom filter four of normalization and four for each
      coefficient. */
  function BlockLength(kernelObject: U64): nat {
    20 + if kernelObject == 0x31 then 4 + 4 * (3 * 3) else if kernelObject == 0x32 then 4 + 4 * (5 * 5) else 0
  }

  /** The bytes of a pixel: one 16-bit gray value, three 8-bit colours, or one byte. */
  function PixelLength(colorModel: nat): nat { if colorModel == 0 then 2 else if colorModel == 1 then 3 else 1 }

  lemma LengthsAreRight(kernelObject: U64, colorModel: nat)
    ensures KernargSize(kernelObject) == BlockLength(kernelObject) && PixelStorage(colorModel) == PixelLength(colorModel)
  {
  }

  /** The dispatch asks for the packet's argument block, into the block that was allocated for it. */
  lemma DispatchFetches(s: State)
    requires |s.aql| > 0 && s.phase.Admitted? && |s.free| > 0 && s.free[|s.free| - 1] < |s.info|
    ensures var s', slot, kp := DispatchNext(s), s.free[|s.free| - 1], Head(s).packet;
      && s'.dmaQ == s.dmaQ + [DmaRequest(slot, kp.kernargAddress, s.phase.kernarg, BlockLength(kp.kernelObject), LoadData, s.phase.pasid)]
      && s'.info[slot].kernarg == s.phase.kernarg && s'.info[slot].pasid == s.phase.pasid && s'.info[slot].num == s.current
  {
    LengthsAreRight(Head(s).packet.kernelObject, 0);
  }
}
