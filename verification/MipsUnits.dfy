/** The combinational units of the MIPS32 pipeline: decoder, forwarding, hazard detection, arithmetic, byte-offset
    split, read-modify-write and write back. */
module MipsUnits {
  import opened Bits
  import opened MipsIsa

  datatype AluOp = Sll | Srl | Sra | Sllv | Srlv | Srav | Add | Addu | Sub | Subu | And | Or | Xor | Nor | Slt | Sltu | Lui | Nop

  /** ctrl_mem */
  datatype MemCtrl = MemCtrl(write: bool, read: bool, byte: bool, half: bool, unsigned: bool, offset: nat)

  /** ctrl_wb: regwrite and memtoreg */
  datatype WbCtrl = WbCtrl(write: bool, fromMemory: bool)

  datatype Control = Control(wb: WbCtrl, regdst: bool, aluSrc: bool, mem: MemCtrl, signExtend: bool, alu: AluOp)

  const NO_MEM := MemCtrl(false, false, false, false, false, 0)
  const NO_WB := WbCtrl(false, false)

  function RegisterOp(funct: nat): AluOp {
    match funct
    case 0x00 => Sll
    case 0x02 => Srl
    case 0x03 => Sra
    case 0x04 => Sllv
    case 0x06 => Srlv
    case 0x07 => Srav
    case 0x20 => Add
    case 0x21 => Addu
    case 0x22 => Sub
    case 0x23 => Subu
    case 0x24 => And
    case 0x25 => Or
    case 0x26 => Xor
    case 0x27 => Nor
    case 0x2A => Slt
    case 0x2B => Sltu
    case _ => Nop
  }

  function ImmediateOp(op: nat, alu: AluOp, signExtend: bool): Control {
    Control(WbCtrl(true, false), false, true, NO_MEM, signExtend, alu)
  }

  function LoadOp(byte: bool, half: bool, unsigned: bool): Control {
    Control(WbCtrl(true, true), false, true, MemCtrl(false, true, byte, half, unsigned, 0), true, Add)
  }

  function StoreOp(byte: bool, half: bool): Control {
    Control(NO_WB, false, true, MemCtrl(true, false, byte, half, false, 0), true, Add)
  }

  /** The decoder on the modelled opcodes. */
  function Decode(i: U32): Control {
    match Opcode(i)
    case 0x00 => Control(WbCtrl(true, false), true, false, NO_MEM, true, RegisterOp(Funct(i)))
    case 0x08 => ImmediateOp(0x08, Add, true)
    case 0x09 => ImmediateOp(0x09, Addu, true)
    case 0x0A => ImmediateOp(0x0A, Slt, true)
    case 0x0B => ImmediateOp(0x0B, Sltu, true)
    case 0x0C => ImmediateOp(0x0C, And, false)
    case 0x0D => ImmediateOp(0x0D, Or, false)
    case 0x0E => ImmediateOp(0x0E, Xor, false)
    case 0x0F => ImmediateOp(0x0F, Lui, true)
    case 0x20 => LoadOp(true, false, false)
    case 0x24 => LoadOp(true, false, true)
    case 0x21 => LoadOp(false, true, false)
    case 0x25 => LoadOp(false, true, true)
    case 0x23 => LoadOp(false, false, false)
    case 0x28 => StoreOp(true, false)
    case 0x29 => StoreOp(false, true)
    case 0x2B => StoreOp(false, false)
    case _ => Control(NO_WB, false, false, NO_MEM, true, Nop)
  }

  /** Sixteen copies of bit 15, or of zero, in front of the immediate. */
  function ImmediateOf(i: U32, signExtend: bool): U32 {
    if signExtend && i / 0x8000 % 2 == 1 then 0xFFFF * 0x1_0000 + i % 0x1_0000 else i % 0x1_0000
  }

  /** The decode unit's extension keeps the value of the signed immediate. */
  lemma ExtensionMeaning(i: U32)
    ensures SignedWord(ImmediateOf(i, true)) == Signed(Immediate(i), 16) && ImmediateOf(i, true) == Wrap(Offset(i))
    ensures ImmediateOf(i, false) == Immediate(i)
  {
    WordPowers();
    HalfwordPowers();
    var high, low := i / 0x1_0000, i % 0x1_0000;
    DivModUnique(i, 0x8000, 2 * high + low / 0x8000, low % 0x8000);
  }

  lemma HalfwordPowers()
    ensures Pow2(15) == 0x8000 && Pow2(16) == 0x1_0000
  {
    WordPowers();
  }

  function DestOf(i: U32, regdst: bool): Reg { if regdst then Rd(i) else Rt(i) }

  /** shift_right on a signed vector, one bit at a time. */
  function ShrSigned(x: U32, n: nat): U32
    decreases n
  {
    if n == 0 then x else ShrSigned(x / 2 + (if x >= 0x8000_0000 then 0x8000_0000 else 0), n - 1)
  }

  lemma {:induction false} ShrShrinks(x: nat, n: nat)
    ensures Shr(x, n) <= x
  {
    if n > 0 {
      ShrShrinks(x / 2, n - 1);
    }
  }

  lemma {:induction false} AndBound(a: nat, b: nat)
    ensures BitAnd(a, b) <= a
  {
    if a != 0 && b != 0 {
      AndBound(a / 2, b / 2);
    }
  }

  lemma {:induction false} XorBound(a: nat, b: nat, k: nat)
    requires a < Pow2(k) && b < Pow2(k)
    ensures BitXor(a, b) < Pow2(k)
  {
    if a != 0 && b != 0 {
      XorBound(a / 2, b / 2, k - 1);
    }
  }

  function ShiftLeft(x: U32, n: nat): U32 {
    WordPowers();
    var bits := 32;
    Shl(x, n, bits)
  }

  function ShiftRight(x: U32, n: nat): U32 {
    ShrShrinks(x, n);
    Shr(x, n)
  }

  function Conjunction(a: U32, b: U32): U32 {
    AndBound(a, b);
    BitAnd(a, b)
  }

  function Disjunction(a: U32, b: U32): U32 {
    WordPowers();
    var bits := 32;
    OrBound(a, b, bits);
    BitOr(a, b)
  }

  function Difference(a: U32, b: U32): U32 {
    WordPowers();
    var bits := 32;
    XorBound(a, b, bits);
    BitXor(a, b)
  }

  function Alu(op: AluOp, a: U32, b: U32, shamt: nat): U32 {
    match op
    case Sll => ShiftLeft(b, shamt)
    case Srl => ShiftRight(b, shamt)
    case Sra => ShrSigned(b, shamt)
    case Sllv => ShiftLeft(b, a % 32)
    case Srlv => ShiftRight(b, a % 32)
    case Srav => ShrSigned(b, a % 32)
    case Add | Addu => (a + b) % WORD
    case Sub | Subu => (a - b) % WORD
    case And => Conjunction(a, b)
    case Or => Disjunction(a, b)
    case Xor => Difference(a, b)
    case Nor => Difference(Disjunction(a, b), WORD - 1)
    case Slt => if SignedWord(a) < SignedWord(b) then 1 else 0
    case Sltu => if a < b then 1 else 0
    case Lui => b % 0x1_0000 * 0x1_0000
    case Nop => 0
  }

  lemma ShiftLeftMeaning(x: U32, n: nat)
    ensures ShiftLeft(x, n) == Wrap(x * Pow2(n))
  {
    var bits := 32;
    WordPowers();
    ScaleIsProduct(x, n);
    LowIsModulo(Scale(x, n), bits);
  }

  lemma ShiftRightMeaning(x: U32, n: nat)
    ensures ShiftRight(x, n) == Wrap(Floor(x, Pow2(n)))
  {
    LowIsModulo(x, n);
  }

  lemma HalfFloor(v: int, p: nat)
    requires p > 0
    ensures Floor(v, 2 * p) == Floor(v / 2, p)
  {
    DivModWitness(v / 2, p);
    DivModUnique(v, 2 * p, v / 2 / p, v / 2 % p * 2 + v % 2);
  }

  /** Shifting in copies of the sign bit divides the two's complement value, rounding down. */
  lemma {:induction false} ShrSignedMeaning(x: U32, n: nat)
    ensures ShrSigned(x, n) == Wrap(Floor(SignedWord(x), Pow2(n)))
    decreases n
  {
    if n == 0 {
      FloorByOne(x);
    } else {
      var half := x / 2 + if x >= 0x8000_0000 then 0x8000_0000 else 0;
      assert SignedWord(half) == SignedWord(x) / 2;
      HalfFloor(SignedWord(x), Pow2(n - 1));
      ShrSignedMeaning(half, n - 1);
    }
  }

  lemma FloorByOne(x: U32)
    ensures Wrap(Floor(SignedWord(x), 1)) == x
  {
  }

  lemma NorMeaning(a: U32, b: U32)
    ensures Difference(Disjunction(a, b), WORD - 1) == Wrap(-1 - BitOr(a, b))
  {
    var bits := 32;
    WordPowers();
    XorAllOnes(Disjunction(a, b), bits);
  }

  lemma BitwiseMeaning(a: U32, b: U32)
    ensures Conjunction(a, b) == Wrap(BitAnd(a, b))
    ensures Disjunction(a, b) == Wrap(BitOr(a, b))
    ensures Difference(a, b) == Wrap(BitXor(a, b))
  {
  }

  /** The decoder and the arithmetic unit compute what the manual says. */
  lemma RegisterOpCorrect(i: U32, a: U32, b: U32)
    requires IsRegister(i)
    ensures Alu(Decode(i).alu, a, b, Shamt(i)) == RegisterValue(i, a, b)
  {
    BitwiseMeaning(a, b);
    match Funct(i)
    case 0x00 => ShiftLeftMeaning(b, Shamt(i));
    case 0x02 => ShiftRightMeaning(b, Shamt(i));
    case 0x03 => ShrSignedMeaning(b, Shamt(i));
    case 0x04 => ShiftLeftMeaning(b, a % 32);
    case 0x06 => ShiftRightMeaning(b, a % 32);
    case 0x07 => ShrSignedMeaning(b, a % 32);
    case 0x20 => SignedSum(a, b);
    case 0x22 => SignedDifference(a, b);
    case 0x27 => NorMeaning(a, b);
    case _ =>
  }

  lemma SignedSum(a: U32, b: U32)
    ensures (a + b) % WORD == Wrap(SignedWord(a) + SignedWord(b))
  {
  }

  lemma SignedDifference(a: U32, b: U32)
    ensures (a - b) % WORD == Wrap(SignedWord(a) - SignedWord(b))
  {
  }

  lemma ImmediateOpCorrect(i: U32, a: U32)
    requires IsImmediate(i)
    ensures Alu(Decode(i).alu, a, ImmediateOf(i, Decode(i).signExtend), Shamt(i)) == ImmediateValue(i, a)
  {
    DecodedImmediate(i);
    if Opcode(i) <= 0x0B {
      ArithmeticImmediate(i, a, ImmediateOf(i, true));
    } else if Opcode(i) <= 0x0E {
      LogicalImmediate(i, a, Immediate(i));
    } else {
      UpperImmediate(i, a, ImmediateOf(i, true));
    }
  }

  lemma DecodedImmediate(i: U32)
    requires IsImmediate(i)
    ensures Decode(i).signExtend == (Opcode(i) <= 0x0B || Opcode(i) == 0x0F)
    ensures Decode(i).alu == match Opcode(i)
      case 0x08 => Add
      case 0x09 => Addu
      case 0x0A => Slt
      case 0x0B => Sltu
      case 0x0C => And
      case 0x0D => Or
      case 0x0E => Xor
      case _ => Lui
    ensures ImmediateOf(i, false) == Immediate(i)
  {
  }

  lemma UpperImmediate(i: U32, a: U32, b: U32)
    requires b == ImmediateOf(i, true) && Opcode(i) == 0x0F
    ensures Alu(Lui, a, b, Shamt(i)) == ImmediateValue(i, a)
  {
    if b != Immediate(i) { DivModUnique(b, 0x1_0000, 0xFFFF, Immediate(i)); }
  }

  lemma ArithmeticImmediate(i: U32, a: U32, b: U32)
    requires b == ImmediateOf(i, true)
    ensures Opcode(i) == 0x08 ==> Alu(Add, a, b, Shamt(i)) == ImmediateValue(i, a)
    ensures Opcode(i) == 0x09 ==> Alu(Addu, a, b, Shamt(i)) == ImmediateValue(i, a)
    ensures Opcode(i) == 0x0A ==> Alu(Slt, a, b, Shamt(i)) == ImmediateValue(i, a)
    ensures Opcode(i) == 0x0B ==> Alu(Sltu, a, b, Shamt(i)) == ImmediateValue(i, a)
  {
    ExtensionMeaning(i);
    SignedSum(a, b);
    SumWraps(a, Offset(i));
    assert Wrap(SignedWord(a) + Offset(i)) == (a + b) % WORD;
  }

  lemma SumWraps(a: U32, v: int)
    ensures (a + Wrap(v)) % WORD == Wrap(a + v)
  {
  }

  /** The arithmetic unit adds the address of a load or store. */
  lemma AddressAdds(i: U32, s: Arch)
    ensures (s.regs[Rs(i)] + ImmediateOf(i, true)) % WORD == Address(i, s)
  {
    ExtensionMeaning(i);
    SumWraps(s.regs[Rs(i)], Offset(i));
  }

  lemma LogicalImmediate(i: U32, a: U32, b: U32)
    requires b == Immediate(i)
    ensures Opcode(i) == 0x0C ==> Alu(And, a, b, Shamt(i)) == ImmediateValue(i, a)
    ensures Opcode(i) == 0x0D ==> Alu(Or, a, b, Shamt(i)) == ImmediateValue(i, a)
    ensures Opcode(i) == 0x0E ==> Alu(Xor, a, b, Shamt(i)) == ImmediateValue(i, a)
  {
    BitwiseMeaning(a, b);
  }

  /** Operand selection: the result in EX/MEM first, then the one in MEM/WB, then what was read. */
  function Forward(r: Reg, read: U32, exWrites: bool, exDest: Reg, exValue: U32, wbWrites: bool, wbDest: Reg, wbValue: U32): U32 {
    if exWrites && exDest != 0 && r == exDest then exValue
    else if wbWrites && wbDest != 0 && r == wbDest then wbValue
    else read
  }

  predicate IsLoadOpcode(op: nat) { op in {0x20, 0x21, 0x23, 0x24, 0x25} }

  /** hazard_stall without the teq and tne term. */
  predicate HazardStall(regOpcode: nat, exWrites: bool, exDest: Reg, rs: Reg, rt: Reg) {
    IsLoadOpcode(regOpcode) && exWrites && (exDest == rs || exDest == rt)
  }

  /** The address as it goes to memory, and the byte offset beside it. */
  function SplitAddress(mem: MemCtrl, address: U32): (r: (U32, nat)) {
    if (mem.write || mem.read) && (mem.byte || mem.half) then
      var cleared := if mem.byte then address - address % 4 else address - address / 2 % 2 * 2;
      (cleared, address % 4)
    else (address, 0)
  }

  /** The word read back with the stored byte or halfword in place. A halfword at an odd offset changes nothing. */
  function Merge(word: U32, byte: bool, offset: nat, data: U32): U32 {
    if byte then MergeByte(word, offset, data % 0x100)
    else if offset == 0 then word / 0x1_0000 * 0x1_0000 + data % 0x1_0000
    else if offset == 2 then data % 0x1_0000 * 0x1_0000 + word % 0x1_0000
    else word
  }

  function MergeByte(word: U32, offset: nat, b: nat): U32
    requires b < 0x100
  {
    if offset == 0 then
      assert word / 0x100 <= 0xFF_FFFF;
      word / 0x100 * 0x100 + b
    else if offset == 1 then
      assert word / 0x1_0000 <= 0xFFFF;
      word / 0x1_0000 * 0x1_0000 + b * 0x100 + word % 0x100
    else if offset == 2 then
      assert word / 0x100_0000 <= 0xFF;
      word / 0x100_0000 * 0x100_0000 + b * 0x1_0000 + word % 0x1_0000
    else b * 0x100_0000 + word % 0x100_0000
  }

  function ByteAt(word: U32, offset: nat): U32 {
    if offset == 0 then word % 0x100
    else if offset == 1 then word / 0x100 % 0x100
    else if offset == 2 then word / 0x1_0000 % 0x100
    else word / 0x100_0000
  }

  function HalfAt(word: U32, offset: nat): U32 { if offset == 2 then word / 0x1_0000 else word % 0x1_0000 }

  function Extract(mem: MemCtrl, word: U32): U32 {
    if !mem.read then word
    else if mem.byte then
      var v := ByteAt(word, mem.offset);
      if mem.unsigned || v < 0x80 then v else v + 0xFFFF_FF00
    else if mem.half then
      var v := HalfAt(word, mem.offset);
      if mem.unsigned || v < 0x8000 then v else v + 0xFFFF_0000
    else word
  }

  function WriteBack(wb: WbCtrl, mem: MemCtrl, alu: U32, word: U32): U32 {
    if wb.fromMemory then Extract(mem, word) else alu
  }
}
