/** The clocked parts of the processor as objects: stage registers, the memory access machine, the register file. */
module MipsCpu {
  import opened Bits
  import opened MipsIsa
  import opened MipsUnits
  import opened SubwordMemory
  import opened MipsPipeline
  import opened MipsExecution

  class StageIdEx {
    var a: U32
    var b: U32
    var imm: U32
    var dest: Reg
    var rs: Reg
    var rt: Reg
    var aluSrc: bool
    var alu: AluOp
    var mem: MemCtrl
    var wb: WbCtrl

    function View(): IdEx
      reads this
    {
      IdEx(a, b, imm, dest, rs, rt, aluSrc, alu, mem, wb)
    }

    constructor ()
      ensures View() == Reset(0, seq<U32>(32, _ => 0), map[], 0).idEx
    {
      a, b, imm, dest, rs, rt := 0, 0, 0, 0, 0, 0;
      aluSrc, alu, mem, wb := false, Sll, NO_MEM, NO_WB;
    }

    /** For op_nop the operands are not read and stay fixed, and the second one also when an immediate replaces it. */
    method Clock(enable: bool, d: IdEx)
      modifies this
      ensures View() == if enable then IdExAfter(old(View()), d) else old(View())
    {
      if enable {
        rs, rt := d.rs, d.rt;
        mem, wb := d.mem, d.wb;
        dest := d.dest;
        if d.alu != Nop {
          alu, aluSrc, imm, a := d.alu, d.aluSrc, d.imm, d.a;
          if !d.aluSrc || d.mem.write {
            b := d.b;
          }
        }
      }
    }
  }

  class StageExMem {
    var alu: U32
    var address: U32
    var data: U32
    var dest: Reg
    var mem: MemCtrl
    var wb: WbCtrl

    function View(): ExMem
      reads this
    {
      ExMem(alu, address, data, dest, mem, wb)
    }

    constructor ()
      ensures View() == Reset(0, seq<U32>(32, _ => 0), map[], 0).exMem
    {
      alu, address, data, dest, mem, wb := 0, 0, 0, 0, NO_MEM, NO_WB;
    }

    /** The address is held unless there is an access, the data unless there is a store. */
    method Clock(enable: bool, e: ExMem)
      modifies this
      ensures View() == if enable then ExMemAfter(old(View()), e) else old(View())
    {
      if enable {
        alu, dest, mem, wb := e.alu, e.dest, e.mem, e.wb;
        if e.mem.read || e.mem.write {
          address := e.address;
        }
        if e.mem.write {
          data := e.data;
        }
      }
    }
  }

  class StageMemWb {
    var alu: U32
    var dest: Reg
    var mem: MemCtrl
    var wb: WbCtrl

    function View(): MemWb
      reads this
    {
      MemWb(alu, dest, mem, wb)
    }

    constructor ()
      ensures View() == Reset(0, seq<U32>(32, _ => 0), map[], 0).memWb
    {
      alu, dest, mem, wb := 0, 0, NO_MEM, NO_WB;
    }

    method Clock(enable: bool, m: ExMem)
      modifies this
      ensures View() == if enable then MemWb(m.alu, m.dest, m.mem, m.wb) else old(View())
    {
      if enable {
        alu, dest, mem, wb := m.alu, m.dest, m.mem, m.wb;
      }
    }
  }

  class MemoryAccess {
    var unaligned: bool
    var init: bool
    var address: U32
    var data: U32
    var ctrl: MemCtrl

    function View(): Access
      reads this
    {
      Access(unaligned, init, address, data, ctrl)
    }

    constructor ()
      ensures View() == Reset(0, seq<U32>(32, _ => 0), map[], 0).access
    {
      unaligned, init, address, data, ctrl := false, true, 0, 0, NO_MEM;
    }

    /** NORMAL saves a byte or halfword store and turns UNALIGNED; UNALIGNED is over after one cycle. */
    method Clock(m: ExMem, ghost din: U32)
      modifies this
      ensures View() == AccessAfter(old(View()), m, MemStage(old(View()), m, din))
    {
      if unaligned {
        init := true;
        unaligned := false;
      } else if m.mem.write && (m.mem.byte || m.mem.half) && (init || (address != m.address && data != m.data)) {
        init := false;
        address, data, ctrl := m.address, m.data, m.mem;
        unaligned := true;
      }
    }
  }

  class RegisterFile {
    const registers: array<U32>

    ghost predicate Valid() { registers.Length == 32 }

    function View(): Registers
      reads registers
      requires Valid()
    {
      registers[..]
    }

    constructor ()
      ensures Valid() && fresh(registers) && View() == seq<U32>(32, _ => 0)
    {
      registers := new U32[32](_ => 0);
    }

    /** Register 0 is never written. */
    method Clock(write: bool, dest: Reg, value: U32)
      requires Valid()
      modifies registers
      ensures View() == if write && dest != 0 then old(View())[dest := value] else old(View())
    {
      if write && dest != 0 {
        registers[dest] := value;
      }
    }
  }

  class Cpu {
    const registers: RegisterFile
    const idEx: StageIdEx
    const exMem: StageExMem
    const memWb: StageMemWb
    const access: MemoryAccess
    var ir: U32
    var regOpcode: nat
    var words: Words
    var din: U32

    ghost predicate Valid() { registers.Valid() }

    function View(): Pipeline
      reads this, registers.registers, idEx, exMem, memWb, access
      requires Valid()
    {
      Pipeline(ir, regOpcode, registers.View(), idEx.View(), exMem.View(), memWb.View(), access.View(), words, din)
    }

    constructor (first: U32, memory: Words, bus: U32)
      ensures Valid() && View() == Reset(first, seq<U32>(32, _ => 0), memory, bus)
      ensures fresh(registers.registers) && fresh(idEx) && fresh(exMem) && fresh(memWb) && fresh(access)
    {
      registers := new RegisterFile();
      idEx := new StageIdEx();
      exMem := new StageExMem();
      memWb := new StageMemWb();
      access := new MemoryAccess();
      ir, regOpcode, words, din := first, 0, memory, bus;
    }

    /** A rising edge: all outputs are taken before any register changes. */
    method Clock(next: U32, junk: U32)
      requires Valid()
      modifies this`ir, this`regOpcode, this`words, this`din, registers.registers, idEx, exMem, memWb, access
      ensures Valid() && View() == Cycle(old(View()), next, junk)
    {
      var p := View();
      var out := MemStage(p.access, p.exMem, p.din);
      var enable, stall := !out.busy, Stalls(p);
      ClockStages(p, enable);
      if enable {
        regOpcode := Opcode(ir);
        if !stall {
          ir := next;
        }
      }
      words := DataAfter(p.words, out);
      din := DinAfter(p.words, out, junk);
    }

    /** The register file, the stage registers and the memory access machine; p is what they show before the edge. */
    method ClockStages(p: Pipeline, enable: bool)
      requires Valid() && p == View()
      modifies registers.registers, idEx, exMem, memWb, access
      ensures Valid() && registers.View() == RegistersAfter(p.regs, p.memWb, WbData(p))
      ensures memWb.View() == if enable then MemWb(p.exMem.alu, p.exMem.dest, p.exMem.mem, p.exMem.wb) else p.memWb
      ensures access.View() == AccessAfter(p.access, p.exMem, MemStage(p.access, p.exMem, p.din))
      ensures exMem.View() == if enable then ExMemAfter(p.exMem, ExStage(p.idEx, p.exMem, p.memWb, WbData(p))) else p.exMem
      ensures idEx.View() == if enable then IdExAfter(p.idEx, IdStage(p)) else p.idEx
    {
      var wbData := WbData(p);
      var decoded, executed := IdStage(p), ExStage(p.idEx, p.exMem, p.memWb, wbData);
      registers.Clock(p.memWb.wb.write, p.memWb.dest, wbData);
      memWb.Clock(enable, p.exMem);
      access.Clock(p.exMem, p.din);
      exMem.Clock(enable, executed);
      idEx.Clock(enable, decoded);
    }

    /** One cycle with a program in front of decode. */
    method RunCycle(program: seq<U32>, issued: nat, junk: U32) returns (issued': nat)
      requires Valid()
      modifies this`ir, this`regOpcode, this`words, this`din, registers.registers, idEx, exMem, memWb, access
      ensures Valid() && Run(View(), issued') == OneMore(Run(old(View()), issued), program, junk)
    {
      ghost var p := View();
      var moves := Issues(View());
      Clock(Fetch(program, issued + 1), junk);
      issued' := issued + if moves then 1 else 0;
      assert View() == Cycle(p, Fetch(program, issued + 1), junk);
    }

    /** n cycles: no-operations follow the program's last instruction. */
    method RunCycles(program: seq<U32>, junk: nat -> U32, n: nat) returns (issued: nat)
      requires Valid()
      modifies this`ir, this`regOpcode, this`words, this`din, registers.registers, idEx, exMem, memWb, access
      ensures Valid() && Run(View(), issued) == RunFor(program, old(View()), junk, n)
    {
      issued := 0;
      ghost var p := View();
      for i := 0 to n
        invariant Valid() && Run(View(), issued) == RunFor(program, p, junk, i)
      {
        issued := RunCycle(program, issued, junk(i));
        OneCycleMore(program, p, junk, i);
      }
    }

    /** A whole program: afterwards registers and memory are those of the sequential machine. */
    method RunProgram(program: seq<U32>, junk: nat -> U32, n: nat, ghost start: Arch)
      requires Valid() && View() == Reset(Fetch(program, 0), start.regs, words, din)
      requires MipsIsa.Proper(program, start) && Agrees(start.mem, words) && n >= 2 * |program| + 3
      modifies this`ir, this`regOpcode, this`words, this`din, registers.registers, idEx, exMem, memWb, access
      ensures Valid() && Same(View(), After(program, start, |program|))
    {
      CostlyBound(program, |program|);
      PipelineIsSequential(program, start, words, din, junk, n);
      var _ := RunCycles(program, junk, n);
    }
  }
}
