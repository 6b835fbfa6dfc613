/** The modelled instructions as an assembler writes them: what each is to do, how it is encoded, and that the sequential
    machine and the pipeline do just that with the encoded words. Formats and encodings are those of chapter 3 of MIPS32
    Architecture for Programmers, Volume II. */
module MipsAssembly {
  import opened Bits
  import opened Memory
  import opened MipsIsa
  import MipsUnits
  import SubwordMemory
  import MipsPipeline
  import MipsExecution

  datatype Shift = LeftLogical | RightLogical | RightArithmetic

  datatype Three = ADD | ADDU | SUB | SUBU | AND | OR | XOR | NOR | SLT | SLTU

  datatype Signed16 = ADDI | ADDIU | SLTI | SLTIU

  datatype Mask16 = ANDI | ORI | XORI

  datatype Loading = LB | LH | LW | LBU | LHU

  datatype Storing = SB | SH | SW

  datatype Instruction =
    | ShiftBits(shift: Shift, rd: Reg, rt: Reg, sa: nat)
    | ShiftBy(shift: Shift, rd: Reg, rt: Reg, rs: Reg)
    | Combine(three: Three, rd: Reg, rs: Reg, rt: Reg)
    | WithNumber(arith: Signed16, rt: Reg, rs: Reg, number: int)
    | WithMask(logic: Mask16, rt: Reg, rs: Reg, mask: nat)
    | LoadUpper(rt: Reg, mask: nat)
    | LoadFrom(load: Loading, rt: Reg, offset: int, base: Reg)
    | StoreTo(store: Storing, rt: Reg, offset: int, base: Reg)

  predicate Half(v: int) { -0x8000 <= v < 0x8000 }

  /** The operands fit their fields. */
  predicate Encodable(x: Instruction) {
    match x
    case ShiftBits(_, _, _, sa) => sa < 32
    case WithNumber(_, _, _, number) => Half(number)
    case WithMask(_, _, _, mask) => mask < 0x1_0000
    case LoadUpper(_, mask) => mask < 0x1_0000
    case LoadFrom(_, _, offset, _) => Half(offset)
    case StoreTo(_, _, offset, _) => Half(offset)
    case _ => true
  }

  // ---- what the instructions do ----

  /** Register 0 stays 0. */
  function Put(s: Arch, r: Reg, v: U32): Arch { if r == 0 then s else s.(regs := s.regs[r := v]) }

  function Shifted(shift: Shift, v: U32, n: nat): U32 {
    match shift
    case LeftLogical => v * Pow2(n) % WORD
    case RightLogical => v / Pow2(n) % WORD
    case RightArithmetic => SignedWord(v) / Pow2(n) % WORD
  }

  function Combined(three: Three, a: U32, b: U32): U32 {
    match three
    case ADD => (a + b) % WORD
    case ADDU => (a + b) % WORD
    case SUB => (a - b) % WORD
    case SUBU => (a - b) % WORD
    case AND => BitAnd(a, b) % WORD
    case OR => BitOr(a, b) % WORD
    case XOR => BitXor(a, b) % WORD
    case NOR => (WORD - 1 - BitOr(a, b)) % WORD
    case SLT => One(SignedWord(a) < SignedWord(b))
    case SLTU => One(a < b)
  }

  function WithSigned(arith: Signed16, a: U32, v: int): U32 {
    match arith
    case ADDI => (a + v) % WORD
    case ADDIU => (a + v) % WORD
    case SLTI => One(SignedWord(a) < v)
    case SLTIU => One(a < v % WORD)
  }

  function Masked(logic: Mask16, a: U32, m: nat): U32 {
    match logic
    case ANDI => BitAnd(a, m) % WORD
    case ORI => BitOr(a, m) % WORD
    case XORI => BitXor(a, m) % WORD
  }

  /** Base register plus signed offset, in 32 bits. */
  function Effective(s: Arch, base: Reg, offset: int): U32 { (s.regs[base] + offset) % WORD }

  function Loaded(load: Loading, m: Memory, a: U32): U32 {
    match load
    case LB => Signed(Load(m, a, 1), 8) % WORD
    case LH => Signed(Load(m, a, 2), 16) % WORD
    case LW => Load(m, a, 4) % WORD
    case LBU => Load(m, a, 1) % WORD
    case LHU => Load(m, a, 2) % WORD
  }

  function Moves(x: Instruction): nat {
    match x
    case LoadFrom(load, _, _, _) => (match load case LB | LBU => 1 case LH | LHU => 2 case LW => 4)
    case StoreTo(store, _, _, _) => (match store case SB => 1 case SH => 2 case SW => 4)
    case _ => 1
  }

  function Meaning(x: Instruction, s: Arch): Arch {
    match x
    case ShiftBits(shift, rd, rt, sa) => Put(s, rd, Shifted(shift, s.regs[rt], sa))
    case ShiftBy(shift, rd, rt, rs) => Put(s, rd, Shifted(shift, s.regs[rt], s.regs[rs] % 32))
    case Combine(three, rd, rs, rt) => Put(s, rd, Combined(three, s.regs[rs], s.regs[rt]))
    case WithNumber(arith, rt, rs, number) => Put(s, rt, WithSigned(arith, s.regs[rs], number))
    case WithMask(logic, rt, rs, mask) => Put(s, rt, Masked(logic, s.regs[rs], mask))
    case LoadUpper(rt, mask) => Put(s, rt, mask * 0x1_0000 % WORD)
    case LoadFrom(load, rt, offset, base) => Put(s, rt, Loaded(load, s.mem, Effective(s, base, offset)))
    case StoreTo(_, rt, offset, base) => s.(mem := Store(s.mem, Effective(s, base, offset), Moves(x), s.regs[rt]))
  }

  /** A load's or store's address is a multiple of the number of bytes it moves. */
  predicate InPlace(x: Instruction, s: Arch) {
    match x
    case LoadFrom(_, _, offset, base) => Effective(s, base, offset) % Moves(x) == 0
    case StoreTo(_, _, offset, base) => Effective(s, base, offset) % Moves(x) == 0
    case _ => true
  }

  // ---- how they are encoded ----

  function RegisterFormat(rs: Reg, rt: Reg, rd: Reg, sa: nat, funct: nat): nat {
    (((rs * 32 + rt) * 32 + rd) * 32 + sa) * 64 + funct
  }

  function ImmediateFormat(op: nat, rs: Reg, rt: Reg, immediate: nat): nat {
    ((op * 32 + rs) * 32 + rt) * 0x1_0000 + immediate
  }

  function ShiftCode(shift: Shift): nat { match shift case LeftLogical => 0 case RightLogical => 2 case RightArithmetic => 3 }

  function ThreeCode(three: Three): nat {
    match three
    case ADD => 0x20
    case ADDU => 0x21
    case SUB => 0x22
    case SUBU => 0x23
    case AND => 0x24
    case OR => 0x25
    case XOR => 0x26
    case NOR => 0x27
    case SLT => 0x2A
    case SLTU => 0x2B
  }

  function NumberCode(arith: Signed16): nat { match arith case ADDI => 8 case ADDIU => 9 case SLTI => 10 case SLTIU => 11 }

  function MaskCode(logic: Mask16): nat { match logic case ANDI => 12 case ORI => 13 case XORI => 14 }

  function LoadCode(load: Loading): nat {
    match load
    case LB => 0x20
    case LH => 0x21
    case LW => 0x23
    case LBU => 0x24
    case LHU => 0x25
  }

  function StoreCode(store: Storing): nat { match store case SB => 0x28 case SH => 0x29 case SW => 0x2B }

  function Encode(x: Instruction): nat {
    match x
    case ShiftBits(shift, rd, rt, sa) => RegisterFormat(0, rt, rd, sa, ShiftCode(shift))
    case ShiftBy(shift, rd, rt, rs) => RegisterFormat(rs, rt, rd, 0, ShiftCode(shift) + 4)
    case Combine(three, rd, rs, rt) => RegisterFormat(rs, rt, rd, 0, ThreeCode(three))
    case WithNumber(arith, rt, rs, number) => ImmediateFormat(NumberCode(arith), rs, rt, number % 0x1_0000)
    case WithMask(logic, rt, rs, mask) => ImmediateFormat(MaskCode(logic), rs, rt, mask)
    case LoadUpper(rt, mask) => ImmediateFormat(15, 0, rt, mask)
    case LoadFrom(load, rt, offset, base) => ImmediateFormat(LoadCode(load), base, rt, offset % 0x1_0000)
    case StoreTo(store, rt, offset, base) => ImmediateFormat(StoreCode(store), base, rt, offset % 0x1_0000)
  }

  /** One field more at the low end. */
  lemma FieldSplits(high: nat, low: nat, d: nat)
    requires low < d
    ensures (high * d + low) / d == high && (high * d + low) % d == low
  {
    DivModUnique(high * d + low, d, high, low);
  }

  /** The fields of a word in the register format. */
  lemma RegisterFields(rs: Reg, rt: Reg, rd: Reg, sa: nat, funct: nat)
    requires sa < 32 && funct < 64
    ensures var i := RegisterFormat(rs, rt, rd, sa, funct);
      i < WORD && Opcode(i) == 0 && Rs(i) == rs && Rt(i) == rt && Rd(i) == rd && Shamt(i) == sa && Funct(i) == funct
  {
    var h2 := rs * 32 + rt;
    var h3 := h2 * 32 + rd;
    var h4 := h3 * 32 + sa;
    var i := h4 * 64 + funct;
    FieldSplits(h4, funct, 64);
    FieldSplits(h3, sa, 32);
    FieldSplits(h2, rd, 32);
    FieldSplits(rs, rt, 32);
    FieldSplits(h3, sa * 64 + funct, 0x800);
    FieldSplits(h2, rd * 0x800 + sa * 64 + funct, 0x1_0000);
    FieldSplits(rs, rt * 0x1_0000 + rd * 0x800 + sa * 64 + funct, 0x20_0000);
  }

  /** The fields of a word in the immediate format. */
  lemma ImmediateFields(op: nat, rs: Reg, rt: Reg, immediate: nat)
    requires op < 64 && immediate < 0x1_0000
    ensures var i := ImmediateFormat(op, rs, rt, immediate);
      i < WORD && Opcode(i) == op && Rs(i) == rs && Rt(i) == rt && Immediate(i) == immediate
  {
    var h1 := op * 32 + rs;
    var h2 := h1 * 32 + rt;
    FieldSplits(h2, immediate, 0x1_0000);
    FieldSplits(h1, rt, 32);
    FieldSplits(op, rs, 32);
    FieldSplits(h1, rt * 0x1_0000 + immediate, 0x20_0000);
    FieldSplits(op, rs * 0x20_0000 + rt * 0x1_0000 + immediate, 0x400_0000);
  }

  /** A signed number survives its 16-bit field. */
  lemma NumberArrives(v: int)
    requires Half(v)
    ensures Signed(v % 0x1_0000, 16) == v
  {
    WordPowers();
    assert Pow2(15) == 0x8000;
  }

  lemma CodeInRange(x: Instruction)
    requires Encodable(x)
    ensures Encode(x) < WORD
  {
    match x
    case ShiftBits(shift, rd, rt, sa) => RegisterFields(0, rt, rd, sa, ShiftCode(shift));
    case ShiftBy(shift, rd, rt, rs) => RegisterFields(rs, rt, rd, 0, ShiftCode(shift) + 4);
    case Combine(three, rd, rs, rt) => RegisterFields(rs, rt, rd, 0, ThreeCode(three));
    case WithNumber(arith, rt, rs, number) => ImmediateFields(NumberCode(arith), rs, rt, number % 0x1_0000);
    case WithMask(logic, rt, rs, mask) => ImmediateFields(MaskCode(logic), rs, rt, mask);
    case LoadUpper(rt, mask) => ImmediateFields(15, 0, rt, mask);
    case LoadFrom(load, rt, offset, base) => ImmediateFields(LoadCode(load), base, rt, offset % 0x1_0000);
    case StoreTo(store, rt, offset, base) => ImmediateFields(StoreCode(store), base, rt, offset % 0x1_0000);
  }

  function Assemble(x: Instruction): U32
    requires Encodable(x)
  {
    CodeInRange(x);
    Encode(x)
  }

  // ---- the sequential machine does what they mean ----

  ghost predicate Does(x: Instruction, s: Arch)
    requires Encodable(x)
  {
    && Supported(Assemble(x)) && Execute(Assemble(x), s) == Meaning(x, s)
    && (Aligned(Assemble(x), s) <==> InPlace(x, s))
  }

  /** Instructions that only set a register. */
  lemma Sets(i: U32, s: Arch, r: Reg, v: U32)
    requires Supported(i) && !IsStore(i) && Dest(i) == r && Value(i, s) == v
    ensures Execute(i, s) == Put(s, r, v)
  {
  }

  lemma ShiftDoes(x: Instruction, s: Arch)
    requires Encodable(x) && (x.ShiftBits? || x.ShiftBy?)
    ensures Does(x, s)
  {
    if x.ShiftBits? {
      RegisterFields(0, x.rt, x.rd, x.sa, ShiftCode(x.shift));
      ShiftBitsWord(x.shift, Assemble(x), s, x.rd, x.rt, x.sa);
    } else {
      RegisterFields(x.rs, x.rt, x.rd, 0, ShiftCode(x.shift) + 4);
      ShiftByWord(x.shift, Assemble(x), s, x.rd, x.rt, x.rs);
    }
  }

  lemma ShiftBitsWord(shift: Shift, i: U32, s: Arch, rd: Reg, rt: Reg, sa: nat)
    requires Opcode(i) == 0 && Funct(i) == ShiftCode(shift) && Rd(i) == rd && Rt(i) == rt && Shamt(i) == sa
    ensures Supported(i) && Aligned(i, s) && Execute(i, s) == Put(s, rd, Shifted(shift, s.regs[rt], sa))
  {
    Sets(i, s, rd, Shifted(shift, s.regs[rt], sa));
  }

  lemma ShiftByWord(shift: Shift, i: U32, s: Arch, rd: Reg, rt: Reg, rs: Reg)
    requires Opcode(i) == 0 && Funct(i) == ShiftCode(shift) + 4 && Rd(i) == rd && Rt(i) == rt && Rs(i) == rs
    ensures Supported(i) && Aligned(i, s) && Execute(i, s) == Put(s, rd, Shifted(shift, s.regs[rt], s.regs[rs] % 32))
  {
    Sets(i, s, rd, Shifted(shift, s.regs[rt], s.regs[rs] % 32));
  }

  lemma CombineDoes(x: Instruction, s: Arch)
    requires x.Combine?
    ensures Does(x, s)
  {
    RegisterFields(x.rs, x.rt, x.rd, 0, ThreeCode(x.three));
    CombineMeans(x.three, Assemble(x), s.regs[x.rs], s.regs[x.rt]);
    CombineWord(x.three, Assemble(x), s, x.rd, x.rs, x.rt);
  }

  lemma CombineWord(three: Three, i: U32, s: Arch, rd: Reg, rs: Reg, rt: Reg)
    requires IsRegister(i) && Rd(i) == rd && Rt(i) == rt && Rs(i) == rs
    requires RegisterValue(i, s.regs[rs], s.regs[rt]) == Combined(three, s.regs[rs], s.regs[rt])
    ensures Supported(i) && Aligned(i, s) && Execute(i, s) == Put(s, rd, Combined(three, s.regs[rs], s.regs[rt]))
  {
    Sets(i, s, rd, Combined(three, s.regs[rs], s.regs[rt]));
  }

  lemma CombineMeans(three: Three, i: U32, a: U32, b: U32)
    requires Opcode(i) == 0 && Funct(i) == ThreeCode(three)
    ensures IsRegister(i) && RegisterValue(i, a, b) == Combined(three, a, b)
  {
    match three
    case ADD => MipsUnits.SignedSum(a, b);
    case SUB => MipsUnits.SignedDifference(a, b);
    case NOR => OneRound(-1 - BitOr(a, b));
    case _ =>
  }

  lemma OneRound(v: int)
    ensures v % WORD == (v + WORD) % WORD
  {
    DivModWitness(v, WORD);
    DivModUnique(v + WORD, WORD, v / WORD + 1, v % WORD);
  }

  lemma NumberDoes(x: Instruction, s: Arch)
    requires Encodable(x) && x.WithNumber?
    ensures Does(x, s)
  {
    ImmediateFields(NumberCode(x.arith), x.rs, x.rt, x.number % 0x1_0000);
    NumberArrives(x.number);
    NumberWord(x.arith, Assemble(x), s, x.rt, x.rs, x.number);
  }

  lemma NumberWord(arith: Signed16, i: U32, s: Arch, rt: Reg, rs: Reg, number: int)
    requires Opcode(i) == NumberCode(arith) && Rt(i) == rt && Rs(i) == rs && Offset(i) == number
    ensures Supported(i) && Aligned(i, s) && Execute(i, s) == Put(s, rt, WithSigned(arith, s.regs[rs], number))
  {
    NumberMeans(arith, i, s.regs[rs]);
    Sets(i, s, rt, WithSigned(arith, s.regs[rs], number));
  }

  lemma NumberMeans(arith: Signed16, i: U32, a: U32)
    requires Opcode(i) == NumberCode(arith)
    ensures IsImmediate(i) && ImmediateValue(i, a) == WithSigned(arith, a, Offset(i))
  {
    SignedAdds(a, Offset(i));
  }

  lemma SignedAdds(a: U32, v: int)
    ensures Wrap(SignedWord(a) + v) == (a + v) % WORD
  {
    if SignedWord(a) != a { OneRound(SignedWord(a) + v); }
  }

  lemma MaskDoes(x: Instruction, s: Arch)
    requires Encodable(x) && (x.WithMask? || x.LoadUpper?)
    ensures Does(x, s)
  {
    if x.WithMask? {
      ImmediateFields(MaskCode(x.logic), x.rs, x.rt, x.mask);
      MaskWord(x.logic, Assemble(x), s, x.rt, x.rs, x.mask);
    } else {
      ImmediateFields(15, 0, x.rt, x.mask);
      UpperWord(Assemble(x), s, x.rt, x.mask);
    }
  }

  lemma MaskWord(logic: Mask16, i: U32, s: Arch, rt: Reg, rs: Reg, mask: nat)
    requires Opcode(i) == MaskCode(logic) && Rt(i) == rt && Rs(i) == rs && Immediate(i) == mask
    ensures Supported(i) && Aligned(i, s) && Execute(i, s) == Put(s, rt, Masked(logic, s.regs[rs], mask))
  {
    Sets(i, s, rt, Masked(logic, s.regs[rs], mask));
  }

  lemma UpperWord(i: U32, s: Arch, rt: Reg, mask: nat)
    requires Opcode(i) == 15 && Rt(i) == rt && Immediate(i) == mask
    ensures Supported(i) && Aligned(i, s) && Execute(i, s) == Put(s, rt, mask * 0x1_0000 % WORD)
  {
    SmallRemainder(mask * 0x1_0000, WORD);
    Sets(i, s, rt, mask * 0x1_0000 % WORD);
  }

  lemma LoadDoes(x: Instruction, s: Arch)
    requires Encodable(x) && x.LoadFrom?
    ensures Does(x, s)
  {
    ImmediateFields(LoadCode(x.load), x.base, x.rt, x.offset % 0x1_0000);
    NumberArrives(x.offset);
    LoadWord(x.load, Assemble(x), s, x.rt, x.offset, x.base);
  }

  lemma LoadWord(load: Loading, i: U32, s: Arch, rt: Reg, offset: int, base: Reg)
    requires Opcode(i) == LoadCode(load) && Rt(i) == rt && Rs(i) == base && Offset(i) == offset
    ensures Supported(i) && Execute(i, s) == Put(s, rt, Loaded(load, s.mem, Effective(s, base, offset)))
    ensures Aligned(i, s) <==> InPlace(LoadFrom(load, rt, offset, base), s)
  {
    LoadMeans(load, i, s);
    Sets(i, s, rt, Loaded(load, s.mem, Effective(s, base, offset)));
  }

  lemma LoadMeans(load: Loading, i: U32, s: Arch)
    requires Opcode(i) == LoadCode(load)
    ensures IsLoad(i) && LoadValue(i, s) == Loaded(load, s.mem, Address(i, s))
  {
    var a := Address(i, s);
    LoadExtends(s.mem, a);
    match load
    case LB => ByteWraps(Load(s.mem, a, 1));
    case LBU => ByteWraps(Load(s.mem, a, 1));
    case LH => HalfWraps(Load(s.mem, a, 2));
    case LHU => HalfWraps(Load(s.mem, a, 2));
    case LW =>
  }

  lemma ByteWraps(v: nat)
    requires v < 0x100
    ensures Wrap(v) == v && Wrap(v - 0x100) == (v - 0x100) % WORD
  {
  }

  lemma HalfWraps(v: nat)
    requires v < 0x1_0000
    ensures Wrap(v) == v && Wrap(v - 0x1_0000) == (v - 0x1_0000) % WORD
  {
  }

  lemma LoadExtends(m: Memory, a: U32)
    ensures Load(m, a, 1) < 0x100 && Load(m, a, 2) < 0x1_0000
    ensures Signed(Load(m, a, 1), 8) == if Load(m, a, 1) >= 0x80 then Load(m, a, 1) - 0x100 else Load(m, a, 1)
    ensures Signed(Load(m, a, 2), 16) == if Load(m, a, 2) >= 0x8000 then Load(m, a, 2) - 0x1_0000 else Load(m, a, 2)
  {
    NumberBound(Bytes(m, a, 1));
    NumberBound(Bytes(m, a, 2));
    WordPowers();
    assert Pow2(8) == 0x100 && Pow2(7) == 0x80 && Pow2(15) == 0x8000;
  }

  lemma StoreDoes(x: Instruction, s: Arch)
    requires Encodable(x) && x.StoreTo?
    ensures Does(x, s)
  {
    ImmediateFields(StoreCode(x.store), x.base, x.rt, x.offset % 0x1_0000);
    NumberArrives(x.offset);
    StoreWord(x.store, Assemble(x), s, x.rt, x.offset, x.base);
  }

  lemma StoreWord(store: Storing, i: U32, s: Arch, rt: Reg, offset: int, base: Reg)
    requires Opcode(i) == StoreCode(store) && Rt(i) == rt && Rs(i) == base && Offset(i) == offset
    ensures Supported(i) && Execute(i, s) == Meaning(StoreTo(store, rt, offset, base), s)
    ensures Aligned(i, s) <==> InPlace(StoreTo(store, rt, offset, base), s)
  {
  }

  /** Every instruction, encoded, is one of the modelled ones and does what it means; it asks for an aligned address
      exactly when its own address is not a multiple of its width. */
  lemma AssembledMeaning(x: Instruction, s: Arch)
    requires Encodable(x)
    ensures Supported(Assemble(x)) && Execute(Assemble(x), s) == Meaning(x, s)
    ensures Aligned(Assemble(x), s) <==> InPlace(x, s)
  {
    match x
    case ShiftBits(_, _, _, _) => ShiftDoes(x, s);
    case ShiftBy(_, _, _, _) => ShiftDoes(x, s);
    case Combine(_, _, _, _) => CombineDoes(x, s);
    case WithNumber(_, _, _, _) => NumberDoes(x, s);
    case WithMask(_, _, _, _) => MaskDoes(x, s);
    case LoadUpper(_, _) => MaskDoes(x, s);
    case LoadFrom(_, _, _, _) => LoadDoes(x, s);
    case StoreTo(_, _, _, _) => StoreDoes(x, s);
  }

  /** The instructions that can cost a cycle more: loads, and stores of a byte or halfword. */
  lemma AssembledCost(x: Instruction)
    requires Encodable(x)
    ensures MipsExecution.MayWait(Assemble(x)) <==> x.LoadFrom? || (x.StoreTo? && x.store != SW)
  {
    AssembledCode(x);
  }

  lemma AssembledCode(x: Instruction)
    requires Encodable(x)
    ensures Opcode(Assemble(x)) == match x
      case WithNumber(arith, _, _, _) => NumberCode(arith)
      case WithMask(logic, _, _, _) => MaskCode(logic)
      case LoadUpper(_, _) => 15
      case LoadFrom(load, _, _, _) => LoadCode(load)
      case StoreTo(store, _, _, _) => StoreCode(store)
      case _ => 0
  {
    match x
    case ShiftBits(shift, rd, rt, sa) => RegisterFields(0, rt, rd, sa, ShiftCode(shift));
    case ShiftBy(shift, rd, rt, rs) => RegisterFields(rs, rt, rd, 0, ShiftCode(shift) + 4);
    case Combine(three, rd, rs, rt) => RegisterFields(rs, rt, rd, 0, ThreeCode(three));
    case WithNumber(arith, rt, rs, number) => ImmediateFields(NumberCode(arith), rs, rt, number % 0x1_0000);
    case WithMask(logic, rt, rs, mask) => ImmediateFields(MaskCode(logic), rs, rt, mask);
    case LoadUpper(rt, mask) => ImmediateFields(15, 0, rt, mask);
    case LoadFrom(load, rt, offset, base) => ImmediateFields(LoadCode(load), base, rt, offset % 0x1_0000);
    case StoreTo(store, rt, offset, base) => ImmediateFields(StoreCode(store), base, rt, offset % 0x1_0000);
  }

  // ---- and so does the pipeline ----

  predicate AllEncodable(program: seq<Instruction>) { forall k :: 0 <= k < |program| ==> Encodable(program[k]) }

  function AssembleAll(program: seq<Instruction>): (words: seq<U32>)
    requires AllEncodable(program)
    ensures |words| == |program|
  {
    seq<U32>(|program|, k requires 0 <= k < |program| => Assemble(program[k]))
  }

  /** The first k instructions one after the other. */
  function MeaningAfter(program: seq<Instruction>, s: Arch, k: nat): Arch
    requires k <= |program|
  {
    if k == 0 then s else Meaning(program[k - 1], MeaningAfter(program, s, k - 1))
  }

  /** Each access of the program is in place when its turn comes. */
  ghost predicate AllInPlace(program: seq<Instruction>, s: Arch) {
    forall k: nat :: k < |program| ==> InPlace(program[k], MeaningAfter(program, s, k))
  }

  lemma {:induction false} SameAfter(program: seq<Instruction>, s: Arch, k: nat)
    requires AllEncodable(program) && k <= |program|
    ensures After(AssembleAll(program), s, k) == MeaningAfter(program, s, k)
  {
    if k > 0 {
      SameAfter(program, s, k - 1);
      AssembledAt(program, k - 1);
      AssembledMeaning(program[k - 1], MeaningAfter(program, s, k - 1));
    }
  }

  lemma AssembledAt(program: seq<Instruction>, k: nat)
    requires AllEncodable(program) && k < |program|
    ensures Encodable(program[k]) && Fetch(AssembleAll(program), k) == Assemble(program[k])
  {
  }

  lemma AssembledProper(program: seq<Instruction>, s: Arch)
    requires AllEncodable(program) && AllInPlace(program, s)
    ensures Proper(AssembleAll(program), s)
  {
    forall k: nat | k < |program| ensures Fits(AssembleAll(program), s, k) {
      SameAfter(program, s, k);
      AssembledAt(program, k);
      AssembledMeaning(program[k], MeaningAfter(program, s, k));
    }
  }

  /** Every program of these instructions: after twice as many cycles as it has instructions, and three, the registers of
      the pipeline and each byte of its word memory are what the instructions mean, one after the other. */
  lemma PipelineRunsPrograms(program: seq<Instruction>, start: Arch, words: SubwordMemory.Words, din: U32, junk: nat -> U32,
                             n: nat)
    requires AllEncodable(program) && AllInPlace(program, start) && n >= 2 * |program| + 3
    requires forall a :: 0 <= a < WORD ==>
      Read(start.mem, a) == SubwordMemory.WordAt(words, a / 4) / Pow2(8 * (a % 4)) % 0x100
    ensures var code := AssembleAll(program);
      var p := MipsExecution.RunFor(code, MipsPipeline.Reset(Fetch(code, 0), start.regs, words, din), junk, n).p;
      && p.regs == MeaningAfter(program, start, |program|).regs
      && forall a :: 0 <= a < WORD ==>
           Read(MeaningAfter(program, start, |program|).mem, a) == SubwordMemory.WordAt(p.words, a / 4) / Pow2(8 * (a % 4)) % 0x100
  {
    var code := AssembleAll(program);
    BytesAgree(start.mem, words);
    AssembledProper(program, start);
    MipsExecution.CostlyBound(code, |code|);
    MipsExecution.PipelineIsSequential(code, start, words, din, junk, n);
    SameAfter(program, start, |program|);
    var p := MipsExecution.RunFor(code, MipsPipeline.Reset(Fetch(code, 0), start.regs, words, din), junk, n).p;
    BytesAgree(MeaningAfter(program, start, |program|).mem, p.words);
  }

  /** Byte k of a word, counted from its low end. */
  lemma ByteOfWord(w: U32, k: nat)
    requires k < 4
    ensures MipsUnits.ByteAt(w, k) == w / Pow2(8 * k) % 0x100
  {
    WordPowers();
    assert Pow2(8) == 0x100;
    Pow2Add(8, 16);
    if k == 3 { assert w / 0x100_0000 < 0x100; }
  }

  lemma BytesAgree(m: Memory, words: SubwordMemory.Words)
    ensures SubwordMemory.Agrees(m, words) <==> forall a :: 0 <= a < WORD ==>
      Read(m, a) == SubwordMemory.WordAt(words, a / 4) / Pow2(8 * (a % 4)) % 0x100
  {
    forall a | 0 <= a < WORD
      ensures MipsUnits.ByteAt(SubwordMemory.WordAt(words, a / 4), a % 4)
        == SubwordMemory.WordAt(words, a / 4) / Pow2(8 * (a % 4)) % 0x100
    {
      ByteOfWord(SubwordMemory.WordAt(words, a / 4), a % 4);
    }
  }
}
