/** The five-stage pipeline: stage registers, the memory access machine, and one clock cycle of the whole. The data
    memory answers in one cycle; the word read appears in the next. */
module MipsPipeline {
  import opened Bits
  import opened MipsIsa
  import opened MipsUnits
  import opened SubwordMemory

  datatype IdEx = IdEx(a: U32, b: U32, imm: U32, dest: Reg, rs: Reg, rt: Reg, aluSrc: bool, alu: AluOp, mem: MemCtrl, wb: WbCtrl)

  datatype ExMem = ExMem(alu: U32, address: U32, data: U32, dest: Reg, mem: MemCtrl, wb: WbCtrl)

  datatype MemWb = MemWb(alu: U32, dest: Reg, mem: MemCtrl, wb: WbCtrl)

  /** state, init and the saved store of memory_access. */
  datatype Access = Access(unaligned: bool, init: bool, address: U32, data: U32, ctrl: MemCtrl)

  datatype Pipeline = Pipeline(ir: U32, regOpcode: nat, regs: Registers, idEx: IdEx, exMem: ExMem, memWb: MemWb,
    access: Access, words: Words, din: U32)

  /** After reset, with the first instruction fetched. */
  function Reset(first: U32, regs: Registers, words: Words, din: U32): Pipeline {
    Pipeline(first, 0, regs, IdEx(0, 0, 0, 0, 0, 0, false, Sll, NO_MEM, NO_WB), ExMem(0, 0, 0, 0, NO_MEM, NO_WB),
             MemWb(0, 0, NO_MEM, NO_WB), Access(false, true, 0, 0, NO_MEM), words, din)
  }

  // ---- write back ----

  function WbData(p: Pipeline): U32 { WriteBack(p.memWb.wb, p.memWb.mem, p.memWb.alu, p.din) }

  function RegistersAfter(regs: Registers, w: MemWb, value: U32): Registers {
    if w.wb.write && w.dest != 0 then regs[w.dest := value] else regs
  }

  // ---- memory access ----

  datatype MemOut = MemOut(read: bool, write: bool, busy: bool, address: U32, data: U32, unaligned: bool)

  /** A byte or halfword store that has not fetched its word yet. */
  predicate MustFetch(s: Access, m: ExMem) {
    m.mem.write && (m.mem.byte || m.mem.half) && (s.init || (s.address != m.address && s.data != m.data))
  }

  function MemStage(s: Access, m: ExMem, din: U32): MemOut {
    if !s.unaligned then
      if MustFetch(s, m) then MemOut(true, false, false, m.address, din, true)
      else MemOut(m.mem.read, m.mem.write, false, m.address, if m.mem.write then m.data else din, false)
    else
      MemOut(false, true, m.mem.read || m.mem.write, s.address, Merge(din, s.ctrl.byte, s.ctrl.offset, s.data), false)
  }

  function AccessAfter(s: Access, m: ExMem, o: MemOut): Access {
    if s.unaligned then s.(unaligned := o.unaligned, init := true)
    else if MustFetch(s, m) then Access(o.unaligned, false, m.address, m.data, m.mem)
    else s.(unaligned := o.unaligned)
  }

  // ---- execute ----

  function Operand(d: Reg, read: U32, x: ExMem, w: MemWb, wbData: U32): U32 {
    Forward(d, read, x.wb.write, x.dest, x.alu, w.wb.write, w.dest, wbData)
  }

  /** What stage_ex_mem is offered; address stands for the result, which it may take as an address. */
  function ExStage(d: IdEx, x: ExMem, w: MemWb, wbData: U32): ExMem {
    var a, b := Operand(d.rs, d.a, x, w, wbData), Operand(d.rt, d.b, x, w, wbData);
    var result := Alu(d.alu, a, if d.aluSrc then d.imm else b, d.imm / 64 % 32);
    var split := SplitAddress(d.mem, result);
    ExMem(split.0, split.0, b, d.dest, d.mem.(offset := split.1), d.wb)
  }

  function ExMemAfter(m: ExMem, e: ExMem): ExMem {
    e.(address := if e.mem.read || e.mem.write then e.address else m.address, data := if e.mem.write then e.data else m.data)
  }

  // ---- decode ----

  predicate Stalls(p: Pipeline) { HazardStall(p.regOpcode, p.idEx.wb.write, p.idEx.dest, Rs(p.ir), Rt(p.ir)) }

  /** The register file read with write-through, then the forwarding unit. */
  function ReadOperand(p: Pipeline, r: Reg): U32 {
    var wbData := WbData(p);
    var through := if p.memWb.wb.write && p.memWb.dest != 0 && r == p.memWb.dest then wbData else p.regs[r];
    Operand(r, through, p.exMem, p.memWb, wbData)
  }

  function IdStage(p: Pipeline): IdEx {
    var c := Decode(p.ir);
    var a, b, imm := ReadOperand(p, Rs(p.ir)), ReadOperand(p, Rt(p.ir)), ImmediateOf(p.ir, c.signExtend);
    if Stalls(p) then IdEx(a, b, imm, 0, 0, 0, false, Nop, NO_MEM, NO_WB)
    else IdEx(a, b, imm, DestOf(p.ir, c.regdst), Rs(p.ir), Rt(p.ir), c.aluSrc, c.alu, c.mem, c.wb)
  }

  /** The register between ID and EX holds its operands on op_nop. */
  function IdExAfter(s: IdEx, d: IdEx): IdEx {
    var control := s.(rs := d.rs, rt := d.rt, mem := d.mem, wb := d.wb, dest := d.dest);
    if d.alu == Nop then control
    else control.(alu := d.alu, aluSrc := d.aluSrc, imm := d.imm, a := d.a, b := if !d.aluSrc || d.mem.write then d.b else s.b)
  }

  // ---- what the stages hold ----

  /** The register between ID and EX keeps its operands on op_nop, and the second one behind an immediate that is not
      stored; the one between EX and MEM keeps address and data without an access and a store. */
  lemma OperandsHeld(s: IdEx, d: IdEx, m: ExMem, e: ExMem)
    ensures d.alu == Nop ==> IdExAfter(s, d).a == s.a && IdExAfter(s, d).b == s.b && IdExAfter(s, d).imm == s.imm
    ensures d.alu != Nop ==> IdExAfter(s, d).a == d.a && IdExAfter(s, d).imm == d.imm
    ensures d.alu != Nop ==> IdExAfter(s, d).b == if d.aluSrc && !d.mem.write then s.b else d.b
    ensures ExMemAfter(m, e).address == if e.mem.read || e.mem.write then e.address else m.address
    ensures ExMemAfter(m, e).data == if e.mem.write then e.data else m.data
  {
  }

  /** A byte or halfword store is saved in the cycle that fetches its word, and only then does the machine wait. */
  lemma StoreSaved(s: Access, m: ExMem, din: U32)
    ensures var s' := AccessAfter(s, m, MemStage(s, m, din));
      && s'.unaligned == (!s.unaligned && m.mem.write && (m.mem.byte || m.mem.half)
                          && (s.init || (s.address != m.address && s.data != m.data)))
      && (s'.unaligned ==> s'.address == m.address && s'.data == m.data && s'.ctrl == m.mem && !s'.init)
      && (!s'.unaligned ==> s'.address == s.address && s'.data == s.data && s'.ctrl == s.ctrl)
      && (!s'.unaligned ==> s'.init == (s.unaligned || s.init))
  {
  }

  // ---- one clock cycle ----

  predicate Busy(p: Pipeline) { MemStage(p.access, p.exMem, p.din).busy }

  /** The instruction in decode moves on. */
  predicate Issues(p: Pipeline) { !Busy(p) && !Stalls(p) }

  function DataAfter(words: Words, o: MemOut): Words { if o.write then words[o.address / 4 := o.data] else words }

  function DinAfter(words: Words, o: MemOut, junk: U32): U32 { if o.read then WordAt(words, o.address / 4) else junk }

  /** One cycle. `next` is the instruction that fetch offers, `junk` what the data bus shows when nothing was read. */
  function Cycle(p: Pipeline, next: U32, junk: U32): Pipeline {
    var o := MemStage(p.access, p.exMem, p.din);
    var clocked := p.(regs := RegistersAfter(p.regs, p.memWb, WbData(p)), access := AccessAfter(p.access, p.exMem, o),
                      words := DataAfter(p.words, o), din := DinAfter(p.words, o, junk));
    if o.busy then clocked
    else clocked.(ir := if Stalls(p) then p.ir else next,
                  regOpcode := Opcode(p.ir),
                  idEx := IdExAfter(p.idEx, IdStage(p)),
                  exMem := ExMemAfter(p.exMem, ExStage(p.idEx, p.exMem, p.memWb, WbData(p))),
                  memWb := MemWb(p.exMem.alu, p.exMem.dest, p.exMem.mem, p.exMem.wb))
  }
}
