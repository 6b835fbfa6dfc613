/** A program in which the load-use stall is high two cycles running: a byte store freezes the pipeline while the
    second of two loads sits in execute in front of an instruction that reads its register. */
module MipsStallExample {
  import opened Bits
  import opened MipsIsa
  import opened MipsUnits
  import opened SubwordMemory
  import opened MipsPipeline
  import opened MipsExecution

  /** sb $0,0($0); lw $2,0($0); lw $5,0($0); addu $7,$5,$5 */
  const PROGRAM: seq<U32> := [SB, LW2, LW5, ADDU]

  const SB: U32 := 0xA000_0000
  const LW2: U32 := 0x8C02_0000
  const LW5: U32 := 0x8C05_0000
  const ADDU: U32 := 0x00A5_3821

  lemma Fields()
    ensures Opcode(SB) == 0x28 && Opcode(LW2) == 0x23 && Opcode(LW5) == 0x23
    ensures Rs(LW2) == 0 && Rt(LW2) == 2 && Rs(LW5) == 0 && Rt(LW5) == 5 && Rs(ADDU) == 5
  {
  }

  /** The store is in execute. */
  predicate Second(p: Pipeline) {
    && p.ir == LW2 && p.regOpcode == 0x28 && p.idEx.mem.write && p.idEx.mem.byte
    && !p.exMem.mem.read && !p.exMem.mem.write && !p.access.unaligned && p.access.init
  }

  /** The store is in memory access, the first load in execute. */
  predicate Third(p: Pipeline) {
    && p.ir == LW5 && p.regOpcode == 0x23 && p.idEx.mem.read && p.idEx.wb.write && p.idEx.dest == 2
    && p.exMem.mem.write && p.exMem.mem.byte && !p.access.unaligned && p.access.init
  }

  /** The store is unfinished, the first load in memory access, the second in execute, its user in decode. */
  predicate Fourth(p: Pipeline) {
    && p.ir == ADDU && p.regOpcode == 0x23 && p.idEx.wb.write && p.idEx.dest == 5 && p.exMem.mem.read && p.access.unaligned
  }

  lemma FirstCycle(regs: Registers, words: Words, din: U32, junk: U32)
    ensures Issues(Reset(SB, regs, words, din)) && Second(Cycle(Reset(SB, regs, words, din), LW2, junk))
  {
    Fields();
  }

  lemma SecondCycle(p: Pipeline, junk: U32)
    requires Second(p)
    ensures Issues(p) && Third(Cycle(p, LW5, junk))
  {
    Fields();
  }

  lemma ThirdCycle(p: Pipeline, junk: U32)
    requires Third(p)
    ensures Issues(p) && Fourth(Cycle(p, ADDU, junk))
  {
    Fields();
  }

  lemma FourthStalls(p: Pipeline)
    requires Fourth(p)
    ensures Stalls(p) && Busy(p)
  {
    Fields();
  }

  /** After three cycles from reset the stall is high, and it is high in the cycle after that. */
  lemma StallsTwice(regs: Registers, words: Words, din: U32, junk: nat -> U32)
    ensures var p := Reset(SB, regs, words, din);
      Stalls(RunFor(PROGRAM, p, junk, 3).p) && Stalls(RunFor(PROGRAM, p, junk, 4).p)
  {
    var p := Reset(SB, regs, words, din);
    FirstCycle(regs, words, din, junk(0));
    var r1 := OneMore(Run(p, 0), PROGRAM, junk(0));
    SecondCycle(r1.p, junk(1));
    var r2 := OneMore(r1, PROGRAM, junk(1));
    ThirdCycle(r2.p, junk(2));
    var r3 := OneMore(r2, PROGRAM, junk(2));
    FourthStalls(r3.p);
    StallsAgainIff(r3.p, Fetch(PROGRAM, r3.issued + 1), junk(3));
    Unrolled(p, junk);
  }

  lemma Unrolled(p: Pipeline, junk: nat -> U32)
    ensures var r0 := Run(p, 0);
      var r1 := OneMore(r0, PROGRAM, junk(0));
      var r2 := OneMore(r1, PROGRAM, junk(1));
      var r3 := OneMore(r2, PROGRAM, junk(2));
      RunFor(PROGRAM, p, junk, 3) == r3 && RunFor(PROGRAM, p, junk, 4) == OneMore(r3, PROGRAM, junk(3))
  {
    OneCycleMore(PROGRAM, p, junk, 0);
    OneCycleMore(PROGRAM, p, junk, 1);
    OneCycleMore(PROGRAM, p, junk, 2);
    OneCycleMore(PROGRAM, p, junk, 3);
  }
}
