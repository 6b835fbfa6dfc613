/** The modelled part of the MIPS32 instruction set, one instruction after the other: chapter 3 of MIPS32
    Architecture for Programmers, Volume II. Arithmetic overflow does not trap. */
module MipsIsa {
  import opened Bits
  import opened Memory

  type Reg = x: int | 0 <= x < 32

  type Registers = r: seq<U32> | |r| == 32 witness seq<U32>(32, _ => 0)

  /** What a program sees: registers and byte-addressed, little-endian memory. */
  datatype Arch = Arch(regs: Registers, mem: Memory)

  function Opcode(i: U32): (op: nat)
    ensures op < 64
  {
    i / 0x400_0000
  }

  function Rs(i: U32): Reg { i / 0x20_0000 % 32 }

  function Rt(i: U32): Reg { i / 0x1_0000 % 32 }

  function Rd(i: U32): Reg { i / 0x800 % 32 }

  function Shamt(i: U32): (n: nat)
    ensures n < 32
  {
    i / 0x40 % 32
  }

  function Funct(i: U32): nat { i % 0x40 }

  function Immediate(i: U32): U32 { i % 0x1_0000 }

  /** The immediate as a signed 16-bit number. */
  function Offset(i: U32): int { Signed(Immediate(i), 16) }

  function Wrap(v: int): U32 { v % WORD }

  predicate IsRegister(i: U32) {
    Opcode(i) == 0 && Funct(i) in {0x00, 0x02, 0x03, 0x04, 0x06, 0x07, 0x20, 0x21, 0x22, 0x23, 0x24, 0x25, 0x26, 0x27, 0x2A, 0x2B}
  }

  predicate IsImmediate(i: U32) { 0x08 <= Opcode(i) <= 0x0F }

  predicate IsLoad(i: U32) { Opcode(i) in {0x20, 0x21, 0x23, 0x24, 0x25} }

  predicate IsStore(i: U32) { Opcode(i) in {0x28, 0x29, 0x2B} }

  predicate Supported(i: U32) { IsRegister(i) || IsImmediate(i) || IsLoad(i) || IsStore(i) }

  predicate Writes(i: U32) { !IsStore(i) }

  function Dest(i: U32): Reg { if IsRegister(i) then Rd(i) else Rt(i) }

  /** How many bytes a load or store moves. */
  function Width(i: U32): nat {
    if Opcode(i) in {0x20, 0x24, 0x28} then 1 else if Opcode(i) in {0x21, 0x25, 0x29} then 2 else 4
  }

  predicate Subword(i: U32) { Width(i) < 4 }

  function Address(i: U32, s: Arch): U32 { Wrap(s.regs[Rs(i)] + Offset(i)) }

  /** Divisible by a width of 1, 2 or 4. */
  predicate AlignedTo(a: int, width: nat) { if width == 4 then a % 4 == 0 else if width == 2 then a % 2 == 0 else true }

  predicate Aligned(i: U32, s: Arch) { IsLoad(i) || IsStore(i) ==> AlignedTo(Address(i, s), Width(i)) }

  function Floor(v: int, d: nat): int
    requires d > 0
  {
    v / d
  }

  function RegisterValue(i: U32, a: U32, b: U32): U32
    requires IsRegister(i)
  {
    match Funct(i)
    case 0x00 => Wrap(b * Pow2(Shamt(i)))
    case 0x02 => Wrap(Floor(b, Pow2(Shamt(i))))
    case 0x03 => Wrap(Floor(SignedWord(b), Pow2(Shamt(i))))
    case 0x04 => Wrap(b * Pow2(a % 32))
    case 0x06 => Wrap(Floor(b, Pow2(a % 32)))
    case 0x07 => Wrap(Floor(SignedWord(b), Pow2(a % 32)))
    case 0x20 => Wrap(SignedWord(a) + SignedWord(b))
    case 0x21 => Wrap(a + b)
    case 0x22 => Wrap(SignedWord(a) - SignedWord(b))
    case 0x23 => Wrap(a - b)
    case 0x24 => Wrap(BitAnd(a, b))
    case 0x25 => Wrap(BitOr(a, b))
    case 0x26 => Wrap(BitXor(a, b))
    case 0x27 => Wrap(-1 - BitOr(a, b))
    case 0x2A => if SignedWord(a) < SignedWord(b) then 1 else 0
    case _ => if a < b then 1 else 0
  }

  function ImmediateValue(i: U32, a: U32): U32
    requires IsImmediate(i)
  {
    match Opcode(i)
    case 0x08 => Wrap(SignedWord(a) + Offset(i))
    case 0x09 => Wrap(a + Offset(i))
    case 0x0A => if SignedWord(a) < Offset(i) then 1 else 0
    case 0x0B => if a < Wrap(Offset(i)) then 1 else 0
    case 0x0C => Wrap(BitAnd(a, Immediate(i)))
    case 0x0D => Wrap(BitOr(a, Immediate(i)))
    case 0x0E => Wrap(BitXor(a, Immediate(i)))
    case _ => Immediate(i) * 0x1_0000
  }

  /** lb and lh sign-extend, lbu and lhu do not. */
  function LoadValue(i: U32, s: Arch): U32 {
    var v := Wrap(Load(s.mem, Address(i, s), Width(i)));
    if Opcode(i) == 0x20 && v >= 0x80 then Wrap(v - 0x100)
    else if Opcode(i) == 0x21 && v >= 0x8000 then Wrap(v - 0x1_0000)
    else v
  }

  function Value(i: U32, s: Arch): U32 {
    if IsRegister(i) then RegisterValue(i, s.regs[Rs(i)], s.regs[Rt(i)])
    else if IsImmediate(i) then ImmediateValue(i, s.regs[Rs(i)])
    else LoadValue(i, s)
  }

  function Execute(i: U32, s: Arch): Arch {
    if IsStore(i) then s.(mem := Store(s.mem, Address(i, s), Width(i), s.regs[Rt(i)]))
    else if Supported(i) && Dest(i) != 0 then s.(regs := s.regs[Dest(i) := Value(i, s)])
    else s
  }

  /** The program followed by no-operations. */
  function Fetch(program: seq<U32>, k: nat): U32 { if k < |program| then program[k] else 0 }

  /** The state after the first k instructions. */
  function After(program: seq<U32>, s: Arch, k: nat): Arch {
    if k == 0 then s else Execute(Fetch(program, k - 1), After(program, s, k - 1))
  }

  /** Instruction k is a modelled one and its access, if any, is aligned. */
  predicate Fits(program: seq<U32>, s: Arch, k: nat) {
    Supported(Fetch(program, k)) && Aligned(Fetch(program, k), After(program, s, k))
  }

  /** A program of modelled instructions whose accesses are aligned. */
  ghost predicate Proper(program: seq<U32>, s: Arch) { forall k: nat :: k < |program| ==> Fits(program, s, k) }
}
