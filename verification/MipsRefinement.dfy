/** The pipeline with its forwarding and stalls does what executing the instructions one at a time does. */
module MipsRefinement {
  import opened Bits
  import opened Memory
  import opened MipsIsa
  import opened MipsUnits
  import opened SubwordMemory
  import opened MipsPipeline

  /** A stage: whether it holds an instruction, which one, and the state before it. */
  datatype Stage = Stage(full: bool, i: U32, s: Arch)

  /** Write back, memory access, execute and decode. */
  datatype Trace = Trace(w: Stage, m: Stage, e: Stage, d: Stage)

  /** The memory after instruction i. */
  function MemoryAfter(i: U32, s: Arch): Memory {
    if IsStore(i) then Store(s.mem, Address(i, s), Width(i), s.regs[Rt(i)]) else s.mem
  }

  function RegsAfter(i: U32, s: Arch): Registers {
    if Writes(i) && Dest(i) != 0 then s.regs[Dest(i) := Value(i, s)] else s.regs
  }

  /** The state s' is the one behind this stage. */
  ghost predicate Leads(g: Stage, s': Arch) {
    if g.full then s'.regs == RegsAfter(g.i, g.s) && s'.mem == MemoryAfter(g.i, g.s) else s' == g.s
  }

  /** The stages hold consecutive instructions of one execution. */
  ghost predicate Chain(t: Trace) { Leads(t.w, t.m.s) && Leads(t.m, t.e.s) && Leads(t.e, t.d.s) && t.d.full }

  predicate Accesses(i: U32) { IsLoad(i) || IsStore(i) }

  /** Whether the instruction leaves a value in register r. */
  predicate Sets(i: U32, r: Reg) { Writes(i) && Dest(i) != 0 && r == Dest(i) }

  /** Register rt is an operand, not a destination. */
  predicate UsesRt(i: U32) { IsRegister(i) || IsStore(i) }

  predicate Aligned4(i: U32, s: Arch, address: U32) { address == Address(i, s) - Address(i, s) % 4 }

  /** The memory control word of instruction i. */
  function ControlOf(i: U32, s: Arch): MemCtrl {
    Decode(i).mem.(offset := if Accesses(i) && Subword(i) then Address(i, s) % 4 else 0)
  }

  /** Write back holds instruction i with its result. */
  ghost predicate InWb(p: Pipeline, i: U32, s: Arch) {
    && p.memWb.wb == Decode(i).wb
    && (Writes(i) ==> p.memWb.dest == Dest(i))
    && (Writes(i) && Dest(i) != 0 ==> WbData(p) == Value(i, s))
  }

  ghost predicate InMem(m: ExMem, i: U32, s: Arch) {
    && m.wb == Decode(i).wb && m.mem == ControlOf(i, s)
    && (Writes(i) ==> m.dest == Dest(i))
    && (IsRegister(i) || IsImmediate(i) ==> m.alu == Value(i, s))
    && (Accesses(i) ==> Aligned4(i, s, m.address))
    && (IsStore(i) ==> m.data == s.regs[Rt(i)])
  }

  /** Execute holds instruction i, and forwarding gives it its operands. */
  ghost predicate InEx(p: Pipeline, i: U32, s: Arch) {
    var d, c := p.idEx, Decode(i);
    && d.rs == Rs(i) && d.rt == Rt(i) && d.imm == ImmediateOf(i, c.signExtend) && d.dest == DestOf(i, c.regdst)
    && d.aluSrc == c.aluSrc && d.alu == c.alu && d.mem == c.mem && d.wb == c.wb && p.regOpcode == Opcode(i)
    && Operand(d.rs, d.a, p.exMem, p.memWb, WbData(p)) == s.regs[Rs(i)]
    && (UsesRt(i) ==> Operand(d.rt, d.b, p.exMem, p.memWb, WbData(p)) == s.regs[Rt(i)])
  }

  /** The store that the memory access machine still has to carry out belongs to the instruction in write back. */
  ghost predicate Unfinished(p: Pipeline, i: U32, s: Arch) {
    && IsStore(i) && Subword(i) && !p.access.init
    && Aligned4(i, s, p.access.address) && p.access.data == s.regs[Rt(i)]
    && p.access.ctrl.byte == (Width(i) == 1) && p.access.ctrl.offset == Address(i, s) % 4
    && p.din == WordAt(p.words, p.access.address / 4)
  }

  /** The data memory as it will be once an unfinished store is done. */
  function Settled(p: Pipeline): Words {
    if p.access.unaligned then
      p.words[p.access.address / 4 := Merge(p.din, p.access.ctrl.byte, p.access.ctrl.offset, p.access.data)]
    else p.words
  }

  ghost predicate WbOk(p: Pipeline, t: Trace) {
    if t.w.full then InWb(p, t.w.i, t.w.s) else !p.memWb.wb.write
  }

  ghost predicate MemOk(p: Pipeline, t: Trace) {
    if t.m.full then InMem(p.exMem, t.m.i, t.m.s)
    else !p.exMem.wb.write && !p.exMem.mem.read && !p.exMem.mem.write
  }

  ghost predicate ExOk(p: Pipeline, t: Trace) {
    if t.e.full then InEx(p, t.e.i, t.e.s)
    else !p.idEx.wb.write && !p.idEx.mem.read && !p.idEx.mem.write
  }

  /** The load-use rule: an instruction right behind a load does not read its destination. */
  ghost predicate LoadsApart(t: Trace) {
    t.e.full && t.m.full && IsLoad(t.m.i) && Dest(t.m.i) != 0 ==>
      Dest(t.m.i) != Rs(t.e.i) && Dest(t.m.i) != Rt(t.e.i)
  }

  ghost predicate MemoryOk(p: Pipeline, t: Trace) {
    && (if p.access.unaligned then t.w.full && Unfinished(p, t.w.i, t.w.s) else p.access.init)
    && Agrees(t.m.s.mem, Settled(p))
  }

  /** The pipeline is at this point of the program. */
  ghost predicate Follows(p: Pipeline, t: Trace) {
    && Chain(t) && p.ir == t.d.i && p.regs == t.w.s.regs
    && WbOk(p, t) && MemOk(p, t) && ExOk(p, t) && LoadsApart(t) && MemoryOk(p, t)
  }

  /** The instruction is one of the modelled ones and its access, if any, is aligned. */
  predicate Fits(g: Stage) { g.full ==> Supported(g.i) && Aligned(g.i, g.s) }

  predicate Near(t: Trace) { Fits(t.w) && Fits(t.m) && Fits(t.e) && Fits(t.d) }

  /** One register after one more instruction. */
  lemma RegisterAfter(g: Stage, s': Arch, r: Reg)
    requires g.full && Leads(g, s')
    ensures s'.regs[r] == if Sets(g.i, r) then Value(g.i, g.s) else g.s.regs[r]
  {
  }

  lemma DecodedWrites(i: U32)
    requires Supported(i)
    ensures Decode(i).wb == WbCtrl(Writes(i), IsLoad(i)) && Decode(i).alu != Nop
    ensures Decode(i).mem.read == IsLoad(i) && Decode(i).mem.write == IsStore(i)
    ensures Accesses(i) ==> Decode(i).mem.byte == (Width(i) == 1) && Decode(i).mem.half == (Width(i) == 2)
    ensures IsLoad(i) ==> Decode(i).mem.unsigned == (Opcode(i) in {0x24, 0x25})
    ensures Writes(i) ==> DestOf(i, Decode(i).regdst) == Dest(i)
    ensures Decode(i).aluSrc == !IsRegister(i) && (Accesses(i) ==> Decode(i).alu == Add && Decode(i).signExtend)
    ensures IsRegister(i) ==> Decode(i).signExtend
    ensures IsLoadOpcode(Opcode(i)) == IsLoad(i)
  {
  }

  /** What forwarding delivers, when the value read is right for a register that neither later stage sets. */
  lemma ForwardMeaning(p: Pipeline, t: Trace, r: Reg, read: U32)
    requires Fits(t.w) && Fits(t.m) && Chain(t) && WbOk(p, t) && MemOk(p, t)
    requires t.m.full && IsLoad(t.m.i) ==> !Sets(t.m.i, r)
    requires (t.m.full && Sets(t.m.i, r)) || (t.w.full && Sets(t.w.i, r)) || read == t.w.s.regs[r]
    ensures Operand(r, read, p.exMem, p.memWb, WbData(p)) == t.e.s.regs[r]
  {
    if t.w.full { RegisterAfter(t.w, t.m.s, r); DecodedWrites(t.w.i); }
    if t.m.full { RegisterAfter(t.m, t.e.s, r); DecodedWrites(t.m.i); }
  }

  /** The decode stage reads the right value unless a load in memory access is about to set the register. */
  lemma ReadMeaning(p: Pipeline, t: Trace, r: Reg)
    requires Near(t) && Follows(p, t)
    requires t.m.full && IsLoad(t.m.i) ==> !Sets(t.m.i, r)
    ensures ReadOperand(p, r) == t.e.s.regs[r]
  {
    if t.w.full { DecodedWrites(t.w.i); }
    var through := if p.memWb.wb.write && p.memWb.dest != 0 && r == p.memWb.dest then WbData(p) else p.regs[r];
    ForwardMeaning(p, t, r, through);
  }

  lemma ShamtOfImmediate(i: U32, signExtend: bool)
    ensures ImmediateOf(i, signExtend) / 64 % 32 == Shamt(i)
  {
    var high, imm := i / 0x1_0000, Immediate(i);
    DivModWitness(i, 0x1_0000);
    FieldAbove(imm, high);
    FieldAbove(imm, 0xFFFF);
  }

  /** Bits 16 and up do not reach into bits 6 to 10. */
  lemma FieldAbove(low: nat, high: nat)
    requires low < 0x1_0000
    ensures (high * 0x1_0000 + low) / 64 % 32 == low / 64 % 32
  {
    var q, r := low / 64, low % 64;
    DivModWitness(low, 64);
    DivModUnique(high * 0x1_0000 + low, 64, high * 0x400 + q, r);
    DivModWitness(q, 32);
    DivModUnique(high * 0x400 + q, 32, high * 0x20 + q / 32, q % 32);
  }

  lemma SplitAligned(mem: MemCtrl, address: U32, width: nat)
    requires width in {1, 2, 4} && AlignedTo(address, width) && (mem.read || mem.write)
    requires mem.byte == (width == 1) && mem.half == (width == 2)
    ensures SplitAddress(mem, address).0 == address - address % 4
    ensures SplitAddress(mem, address).1 == if width < 4 then address % 4 else 0
  {
  }

  /** The arithmetic unit's result with the right operands. */
  lemma ResultCorrect(i: U32, s: Arch, d: IdEx, a: U32, b: U32)
    requires Supported(i) && d.imm == ImmediateOf(i, Decode(i).signExtend) && d.aluSrc == Decode(i).aluSrc && d.alu == Decode(i).alu
    requires a == s.regs[Rs(i)] && (UsesRt(i) ==> b == s.regs[Rt(i)])
    ensures var result := Alu(d.alu, a, if d.aluSrc then d.imm else b, d.imm / 64 % 32);
      && (IsRegister(i) || IsImmediate(i) ==> result == Value(i, s))
      && (Accesses(i) ==> result == Address(i, s))
  {
    DecodedWrites(i);
    ShamtOfImmediate(i, Decode(i).signExtend);
    if IsRegister(i) {
      RegisterOpCorrect(i, a, b);
    } else if IsImmediate(i) {
      ImmediateOpCorrect(i, a);
    } else {
      AddressCorrect(i, s, a, d.imm, d.imm / 64 % 32);
    }
  }

  lemma AddressCorrect(i: U32, s: Arch, a: U32, imm: U32, shamt: nat)
    requires a == s.regs[Rs(i)] && imm == ImmediateOf(i, true)
    ensures Alu(Add, a, imm, shamt) == Address(i, s)
  {
    AddressAdds(i, s);
  }

  /** Execute hands the instruction on, with result, address and store data right. */
  lemma ExecuteHandsOn(p: Pipeline, i: U32, s: Arch)
    requires Supported(i) && Aligned(i, s) && InEx(p, i, s)
    ensures InMem(ExMemAfter(p.exMem, ExStage(p.idEx, p.exMem, p.memWb, WbData(p))), i, s)
  {
    var d, wbData := p.idEx, WbData(p);
    var a, b := Operand(d.rs, d.a, p.exMem, p.memWb, wbData), Operand(d.rt, d.b, p.exMem, p.memWb, wbData);
    DecodedWrites(i);
    ResultCorrect(i, s, d, a, b);
    if Accesses(i) {
      SplitAligned(d.mem, Address(i, s), Width(i));
    }
  }

  /** What write back makes of the word that was read. */
  lemma ExtractCorrect(i: U32, s: Arch, words: Words, address: U32)
    requires IsLoad(i) && Aligned(i, s) && Aligned4(i, s, address) && Agrees(s.mem, words)
    ensures Extract(ControlOf(i, s), WordAt(words, address / 4)) == LoadValue(i, s)
  {
    var a := Address(i, s);
    DecodedWrites(i);
    LoadSeesPiece(s.mem, words, a, Width(i));
    assert address / 4 == a / 4;
    OffsetAligned(Width(i), a);
    LoadedValue(i, s, WordAt(words, a / 4));
  }

  /** Sign extension as write back does it and as the manual has it. */
  lemma LoadedValue(i: U32, s: Arch, word: U32)
    requires IsLoad(i) && Aligned(i, s) && Load(s.mem, Address(i, s), Width(i)) == Piece(word, Width(i), Address(i, s) % 4)
    ensures Extract(ControlOf(i, s), word) == LoadValue(i, s)
  {
    var c := ControlOf(i, s);
    DecodedWrites(i);
    if Width(i) == 1 {
      ByteExtended(c, word, ByteAt(word, Address(i, s) % 4));
      ByteRead(i, s, ByteAt(word, Address(i, s) % 4));
    } else if Width(i) == 2 {
      OffsetInWord(Address(i, s), 2);
      HalfExtended(c, word, HalfAt(word, Address(i, s) % 4));
      HalfRead(i, s, HalfAt(word, Address(i, s) % 4));
    }
  }

  lemma ByteExtended(c: MemCtrl, word: U32, v: U32)
    requires c.read && c.byte && v == ByteAt(word, c.offset) < 0x100
    ensures Extract(c, word) == if c.unsigned || v < 0x80 then v else v + 0xFFFF_FF00
  {
  }

  lemma HalfExtended(c: MemCtrl, word: U32, v: U32)
    requires c.read && !c.byte && c.half && v == HalfAt(word, c.offset) < 0x1_0000
    ensures Extract(c, word) == if c.unsigned || v < 0x8000 then v else v + 0xFFFF_0000
  {
  }

  lemma ByteRead(i: U32, s: Arch, v: U32)
    requires IsLoad(i) && Width(i) == 1 && Load(s.mem, Address(i, s), 1) == v < 0x100
    ensures LoadValue(i, s) == if Opcode(i) == 0x24 || v < 0x80 then v else v + 0xFFFF_FF00
  {
    ExtendByte(v);
  }

  lemma HalfRead(i: U32, s: Arch, v: U32)
    requires IsLoad(i) && Width(i) == 2 && Load(s.mem, Address(i, s), 2) == v < 0x1_0000
    ensures LoadValue(i, s) == if Opcode(i) == 0x25 || v < 0x8000 then v else v + 0xFFFF_0000
  {
    ExtendHalf(v);
  }

  lemma ExtendByte(v: U32)
    ensures Wrap(v) == v && (0x80 <= v < 0x100 ==> Wrap(v - 0x100) == v + 0xFFFF_FF00)
  {
  }

  lemma ExtendHalf(v: U32)
    ensures Wrap(v) == v && (0x8000 <= v < 0x1_0000 ==> Wrap(v - 0x1_0000) == v + 0xFFFF_0000)
  {
  }

  /** Memory access hands the instruction on to write back. */
  lemma MemoryHandsOn(p: Pipeline, t: Trace, next: U32, junk: U32)
    requires Near(t) && Follows(p, t) && !Busy(p) && t.m.full
    ensures InWb(Cycle(p, next, junk), t.m.i, t.m.s)
  {
    var i, s := t.m.i, t.m.s;
    DecodedWrites(i);
    if IsLoad(i) {
      ExtractCorrect(i, s, p.words, p.exMem.address);
    }
  }

  /** Where the program is after a cycle: nowhere new when memory access is busy, a bubble in execute on a load-use
      stall, one instruction further otherwise. */
  function Moved(p: Pipeline, t: Trace, next: U32): Trace {
    if Busy(p) then t
    else if Stalls(p) then Trace(t.m, t.e, Stage(false, 0, t.d.s), t.d)
    else Trace(t.m, t.e, t.d, Stage(true, next, Execute(t.d.i, t.d.s)))
  }

  lemma RegistersWritten(p: Pipeline, t: Trace)
    requires Near(t) && Follows(p, t)
    ensures RegistersAfter(p.regs, p.memWb, WbData(p)) == t.m.s.regs
  {
    if t.w.full {
        DecodedWrites(t.w.i);
      }
  }

  /** Memory access is busy only while the store in write back is unfinished, and that writes no register. */
  lemma BusyMeans(p: Pipeline, t: Trace)
    requires Near(t) && Follows(p, t) && Busy(p)
    ensures p.access.unaligned && t.w.full && IsStore(t.w.i) && !p.memWb.wb.write
    ensures t.m.s.regs == t.w.s.regs
  {
    DecodedWrites(t.w.i);
  }

  /** The word memory catches up with the byte memory of the program. */
  lemma FinishStore(p: Pipeline, t: Trace, next: U32, junk: U32)
    requires Near(t) && Follows(p, t) && p.access.unaligned
    ensures var p' := Cycle(p, next, junk);
      !p'.access.unaligned && p'.access.init && p'.words == Settled(p)
  {
  }

  /** What the cycle does to the machine and the memory, case by case. */
  lemma CycleMemory(p: Pipeline, next: U32, junk: U32)
    ensures var p' := Cycle(p, next, junk);
      !p.access.unaligned ==>
        if MustFetch(p.access, p.exMem) then
          && p'.access == Access(true, false, p.exMem.address, p.exMem.data, p.exMem.mem) && p'.words == p.words
          && p'.din == WordAt(p.words, p.exMem.address / 4)
        else
          && p'.access == p.access
          && p'.words == if p.exMem.mem.write then p.words[p.exMem.address / 4 := p.exMem.data] else p.words
  {
  }

  lemma StoreIntoWord(i: U32, s: Arch, words: Words, address: U32, data: U32)
    requires IsStore(i) && Aligned(i, s) && Agrees(s.mem, words) && Aligned4(i, s, address) && data == s.regs[Rt(i)]
    ensures Agrees(MemoryAfter(i, s),
                   words[address / 4 := Stored(WordAt(words, address / 4), Width(i), Address(i, s) % 4, data)])
  {
    StoreMerges(s.mem, words, Address(i, s), Width(i), s.regs[Rt(i)]);
    SameIndex(Address(i, s), address);
  }

  lemma SameIndex(a: U32, address: U32)
    requires address == a - a % 4
    ensures address / 4 == a / 4
  {
  }

  /** A word store, or no store. */
  lemma DirectStep(p: Pipeline, i: U32, s: Arch, next: U32, junk: U32)
    requires Supported(i) && Aligned(i, s) && InMem(p.exMem, i, s) && Agrees(s.mem, p.words)
    requires !p.access.unaligned && p.access.init && !MustFetch(p.access, p.exMem)
    ensures Agrees(MemoryAfter(i, s), Cycle(p, next, junk).words)
  {
    CycleMemory(p, next, junk);
    DecodedWrites(i);
    if IsStore(i) {
      StoreIntoWord(i, s, p.words, p.exMem.address, p.exMem.data);
    }
  }

  lemma DirectMemory(p: Pipeline, t: Trace, next: U32, junk: U32)
    requires Near(t) && Follows(p, t) && !p.access.unaligned && !MustFetch(p.access, p.exMem)
    ensures var p' := Cycle(p, next, junk);
      !p'.access.unaligned && p'.access.init && Agrees(t.e.s.mem, p'.words)
  {
    CycleMemory(p, next, junk);
    if t.m.full {
      DirectStep(p, t.m.i, t.m.s, next, junk);
      }
  }

  /** A byte or halfword store first reads its word; its effect is then pending. */
  lemma FetchStep(p: Pipeline, i: U32, s: Arch, next: U32, junk: U32)
    requires Supported(i) && Aligned(i, s) && InMem(p.exMem, i, s) && Agrees(s.mem, p.words)
    requires !p.access.unaligned && MustFetch(p.access, p.exMem)
    ensures var p' := Cycle(p, next, junk);
      p'.access.unaligned && Unfinished(p', i, s) && Agrees(MemoryAfter(i, s), Settled(p'))
  {
    CycleMemory(p, next, junk);
    DecodedWrites(i);
    StoreIntoWord(i, s, p.words, p.exMem.address, p.exMem.data);
  }

  lemma FetchFirst(p: Pipeline, t: Trace, next: U32, junk: U32)
    requires Near(t) && Follows(p, t) && !p.access.unaligned && MustFetch(p.access, p.exMem)
    ensures var p' := Cycle(p, next, junk);
      && t.m.full && p'.access.unaligned && Unfinished(p', t.m.i, t.m.s) && Agrees(t.e.s.mem, Settled(p'))
  {
    FetchStep(p, t.m.i, t.m.s, next, junk);
  }

  lemma IdleMeans(p: Pipeline, i: U32, s: Arch)
    requires Supported(i) && InMem(p.exMem, i, s) && p.access.unaligned && !Busy(p)
    ensures !IsStore(i) && !IsLoad(i)
  {
    DecodedWrites(i);
  }

  lemma UnalignedKept(p: Pipeline, t: Trace, next: U32, junk: U32)
    requires Near(t) && Follows(p, t) && p.access.unaligned
    ensures MemoryOk(Cycle(p, next, junk), Moved(p, t, next))
  {
    FinishStore(p, t, next, junk);
    if !Busy(p) && t.m.full {
      IdleMeans(p, t.m.i, t.m.s);
      }
  }

  lemma NormalNotBusy(p: Pipeline)
    ensures !p.access.unaligned ==> !Busy(p)
  {
  }

  lemma MemoryKept(p: Pipeline, t: Trace, next: U32, junk: U32)
    requires Near(t) && Follows(p, t)
    ensures MemoryOk(Cycle(p, next, junk), Moved(p, t, next))
  {
    NormalNotBusy(p);
    if p.access.unaligned {
      UnalignedKept(p, t, next, junk);
    } else if MustFetch(p.access, p.exMem) {
      FetchFirst(p, t, next, junk);
    } else {
      DirectMemory(p, t, next, junk);
    }
  }

  /** No stall: the instruction in execute is no load whose destination the one in decode reads. */
  lemma NoStallMeans(p: Pipeline, t: Trace, r: Reg)
    requires Near(t) && Follows(p, t) && !Stalls(p) && (r == Rs(p.ir) || r == Rt(p.ir))
    ensures t.e.full && IsLoad(t.e.i) ==> Dest(t.e.i) != r
  {
    if t.e.full {
        DecodedWrites(t.e.i);
    }
  }

  ghost predicate TailOk(p: Pipeline, t: Trace) { Chain(t) && WbOk(p, t) && MemOk(p, t) }

  lemma TailKept(p: Pipeline, t: Trace, next: U32, junk: U32)
    requires Near(t) && Follows(p, t) && !Busy(p)
    ensures TailOk(Cycle(p, next, junk), Moved(p, t, next))
  {
    WriteBackKept(p, t, next, junk);
    MemoryStageKept(p, t, next, junk);
    ChainKept(p, t, next);
  }

  lemma WriteBackKept(p: Pipeline, t: Trace, next: U32, junk: U32)
    requires Near(t) && Follows(p, t) && !Busy(p)
    ensures WbOk(Cycle(p, next, junk), Moved(p, t, next))
  {
    if t.m.full { MemoryHandsOn(p, t, next, junk); }
  }

  lemma MemoryStageKept(p: Pipeline, t: Trace, next: U32, junk: U32)
    requires Near(t) && Follows(p, t) && !Busy(p)
    ensures MemOk(Cycle(p, next, junk), Moved(p, t, next))
  {
    if t.e.full { ExecuteHandsOn(p, t.e.i, t.e.s); }
  }

  lemma ChainKept(p: Pipeline, t: Trace, next: U32)
    requires Near(t) && Follows(p, t) && !Busy(p)
    ensures Chain(Moved(p, t, next))
  {
  }

  /** What decode reads is right, or write back will set the register in the next cycle. */
  lemma ReadOrSet(p: Pipeline, t: Trace, r: Reg)
    requires Near(t) && Follows(p, t)
    ensures (t.m.full && Sets(t.m.i, r)) || ReadOperand(p, r) == t.m.s.regs[r]
  {
    if !(t.m.full && Sets(t.m.i, r)) {
      ReadMeaning(p, t, r);
      if t.m.full { RegisterAfter(t.m, t.e.s, r); }
    }
  }

  /** An operand read in decode is delivered right in execute. */
  lemma OperandArrives(p: Pipeline, t: Trace, next: U32, junk: U32, r: Reg)
    requires Near(t) && Follows(p, t) && Issues(p) && (r == Rs(p.ir) || r == Rt(p.ir))
    ensures var p' := Cycle(p, next, junk);
      Operand(r, ReadOperand(p, r), p'.exMem, p'.memWb, WbData(p')) == t.d.s.regs[r]
  {
    TailKept(p, t, next, junk);
    NoStallMeans(p, t, r);
    ReadOrSet(p, t, r);
    ForwardMeaning(Cycle(p, next, junk), Moved(p, t, next), r, ReadOperand(p, r));
  }

  lemma IssueKeeps(p: Pipeline, t: Trace, next: U32, junk: U32)
    requires Near(t) && Follows(p, t) && Issues(p)
    ensures InEx(Cycle(p, next, junk), t.d.i, t.d.s) && LoadsApart(Moved(p, t, next))
  {
    var i := t.d.i;
    DecodedWrites(i);
    OperandArrives(p, t, next, junk, Rs(i));
    OperandArrives(p, t, next, junk, Rt(i));
    NoStallMeans(p, t, Rs(i));
    NoStallMeans(p, t, Rt(i));
  }

  /** Memory access busy: everything but the memory stands still. */
  lemma BusyKeeps(p: Pipeline, t: Trace, next: U32, junk: U32)
    requires Near(t) && Follows(p, t) && Busy(p)
    ensures Follows(Cycle(p, next, junk), t)
  {
    RegistersWritten(p, t);
    BusyMeans(p, t);
    MemoryKept(p, t, next, junk);
  }

  lemma BubbleKeeps(p: Pipeline, t: Trace, next: U32, junk: U32)
    requires Near(t) && Follows(p, t) && !Busy(p) && Stalls(p)
    ensures ExOk(Cycle(p, next, junk), Moved(p, t, next)) && LoadsApart(Moved(p, t, next))
  {
  }

  /** Every cycle keeps the pipeline in step with the program. */
  lemma FollowsKept(p: Pipeline, t: Trace, next: U32, junk: U32)
    requires Near(t) && Follows(p, t)
    ensures Follows(Cycle(p, next, junk), Moved(p, t, next))
  {
    if Busy(p) {
      BusyKeeps(p, t, next, junk);
    } else {
      RegistersWritten(p, t);
      MemoryKept(p, t, next, junk);
      TailKept(p, t, next, junk);
      if Stalls(p) {
        BubbleKeeps(p, t, next, junk);
      } else {
        IssueKeeps(p, t, next, junk);
      }
    }
  }
}
