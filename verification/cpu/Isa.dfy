/** The instruction set of firmwareLearning/cpu_isa.c: the 32-bit encoding, the micro-operations and
    everything one core does without touching memory, its cache or the bus. Machine words are integers
    below 2^32; the source's shifts and masks by powers of two are written as division and remainder. */
module Isa {

  const WORD_LIMIT := 0x1_0000_0000

  type Word = x: int | 0 <= x < WORD_LIMIT
  type Byte = x: int | 0 <= x < 0x100
  type Nibble = x: int | 0 <= x < 0x10
  type Mode = x: int | 0 <= x < 4
  type Immediate = x: int | 0 <= x < 0x4000
  type Registers = s: seq<Word> | |s| == 16 witness seq(16, i => 0)

  /** The register that CMPXCHG compares with. */
  const EXP: Nibble := 15

  const OPC_LOAD: Byte := 0
  const OPC_STORE: Byte := 1
  const OPC_LIC: Byte := 2
  const OPC_ADD: Byte := 3
  const OPC_SUB: Byte := 4
  const OPC_CMP: Byte := 5
  const OPC_JMP: Byte := 6
  const OPC_JEQ: Byte := 7
  const OPC_JNE: Byte := 8
  const OPC_JLT: Byte := 9
  const OPC_JGT: Byte := 10
  const OPC_LOCK_INC: Byte := 11
  const OPC_CMPXCHG: Byte := 12
  const OPC_FENCE: Byte := 13
  const OPC_HALT: Byte := 14

  datatype MicroOp =
    | Fetch | Decode
    | LoadAddr | LoadMem | LoadWb
    | StoreAddr | StoreMem
    | LicWb
    | AddExec | AddWb
    | SubExec | SubWb
    | CmpExec
    | JmpExec | JeqExec | JneExec | JltExec | JgtExec
    | LockIncAddr | LockIncLoad | LockIncStore
    | CmpxchgAddr | CmpxchgLoad | CmpxchgCompare | CmpxchgStore | CmpxchgFail
    | FenceExec
    | HaltExec

  /** opcode(8) | dst(4) | src(4) | mode(2) | immediate(14) */
  datatype Fields = Fields(opc: Byte, dest: Nibble, src: Nibble, mode: Mode, imm: Immediate)

  /** The part of a core that no other core can reach. */
  datatype Cpu = Cpu(
    regs: Registers, pc: Word, halted: bool, zero: bool, sign: bool, cmpResult: Word,
    op: MicroOp, instr: Word, fields: Fields, addr: Word, temp: Word)

  /** Unsigned 32-bit addition and subtraction. */
  function Plus(a: int, b: int): Word {
    (a + b) % WORD_LIMIT
  }

  function Minus(a: int, b: int): Word {
    (a - b) % WORD_LIMIT
  }

  function Encode(f: Fields): Word {
    (((f.opc * 0x10 + f.dest) * 0x10 + f.src) * 4 + f.mode) * 0x4000 + f.imm
  }

  /** Successive right shifts by 14, 16, 20 and 24 bits, masked to the width of each field. */
  function Decoded(instr: Word): Fields {
    var shift14 := instr / 0x4000;
    var shift16 := shift14 / 4;
    var shift20 := shift16 / 0x10;
    var shift24 := shift20 / 0x10;
    Fields(shift24 % 0x100, shift20 % 0x10, shift16 % 0x10, shift14 % 4, instr % 0x4000)
  }

  lemma DecodeInvertsEncode(f: Fields)
    ensures Decoded(Encode(f)) == f
  {
    var shift20 := f.opc * 0x10 + f.dest;
    var shift16 := shift20 * 0x10 + f.src;
    var shift14 := shift16 * 4 + f.mode;
    assert Encode(f) / 0x4000 == shift14 && Encode(f) % 0x4000 == f.imm;
    assert shift14 / 4 == shift16 && shift14 % 4 == f.mode;
    assert shift16 / 0x10 == shift20 && shift16 % 0x10 == f.src;
    assert shift20 / 0x10 == f.opc && shift20 % 0x10 == f.dest;
  }

  lemma EncodeInvertsDecode(w: Word)
    ensures Encode(Decoded(w)) == w
  {
    var shift14 := w / 0x4000;
    var shift16 := shift14 / 4;
    var shift20 := shift16 / 0x10;
    var shift24 := shift20 / 0x10;
    assert shift24 < 0x100;
    assert w == shift14 * 0x4000 + w % 0x4000;
    assert shift14 == shift16 * 4 + shift14 % 4;
    assert shift16 == shift20 * 0x10 + shift16 % 0x10;
    assert shift20 == shift24 * 0x10 + shift20 % 0x10;
  }

  /** The micro-op that the DECODE switch selects. An unknown opcode selects none: the core decodes the same
      word again on its next step. */
  function FirstMicroOp(opc: Byte): MicroOp {
    if opc == OPC_LOAD then LoadAddr
    else if opc == OPC_STORE then StoreAddr
    else if opc == OPC_LIC then LicWb
    else if opc == OPC_ADD then AddExec
    else if opc == OPC_SUB then SubExec
    else if opc == OPC_CMP then CmpExec
    else if opc == OPC_JMP then JmpExec
    else if opc == OPC_JEQ then JeqExec
    else if opc == OPC_JNE then JneExec
    else if opc == OPC_JLT then JltExec
    else if opc == OPC_JGT then JgtExec
    else if opc == OPC_LOCK_INC then LockIncAddr
    else if opc == OPC_CMPXCHG then CmpxchgAddr
    else if opc == OPC_FENCE then FenceExec
    else if opc == OPC_HALT then HaltExec
    else Decode
  }

  /** The operand address, and also the target of a jump. */
  function Target(c: Cpu): Word {
    if c.fields.mode == 0 then c.fields.imm else c.regs[c.fields.src]
  }

  function SetDest(c: Cpu, v: Word): Cpu {
    c.(regs := c.regs[c.fields.dest := v])
  }

  function JumpIf(c: Cpu, taken: bool): Cpu {
    c.(pc := if taken then Target(c) else c.pc, op := Fetch)
  }

  predicate IsLocal(op: MicroOp) {
    !(op.Fetch? || op.LoadMem? || op.StoreMem? || op.FenceExec?
      || op.LockIncAddr? || op.LockIncLoad? || op.LockIncStore?
      || op.CmpxchgAddr? || op.CmpxchgLoad? || op.CmpxchgStore? || op.CmpxchgFail?)
  }

  /** One micro-op of a core that reads and writes nothing but its own registers. */
  function LocalStep(c: Cpu): Cpu
    requires IsLocal(c.op)
  {
    match c.op
    case Decode => c.(fields := Decoded(c.instr), op := FirstMicroOp(Decoded(c.instr).opc))
    case LoadAddr => c.(addr := Target(c), op := LoadMem)
    case LoadWb => SetDest(c, c.temp).(op := Fetch)
    case StoreAddr => c.(addr := Target(c), op := StoreMem)
    case LicWb => SetDest(c, c.fields.imm).(op := Fetch)
    case AddExec => c.(temp := Plus(c.regs[c.fields.dest], c.regs[c.fields.src]), op := AddWb)
    case AddWb => SetDest(c, c.temp).(op := Fetch)
    case SubExec => c.(temp := Minus(c.regs[c.fields.dest], c.regs[c.fields.src]), op := SubWb)
    case SubWb => SetDest(c, c.temp).(op := Fetch)
    case CmpExec =>
      var a, b := c.regs[c.fields.dest], c.regs[c.fields.src];
      c.(cmpResult := Minus(a, b), zero := a == b, sign := a < b, op := Fetch)
    case JmpExec => JumpIf(c, true)
    case JeqExec => JumpIf(c, c.zero)
    case JneExec => JumpIf(c, !c.zero)
    case JltExec => JumpIf(c, c.sign)
    case JgtExec => JumpIf(c, !c.zero && !c.sign)
    case CmpxchgCompare =>
      if c.temp == c.regs[EXP] then c.(op := CmpxchgStore)
      else c.(regs := c.regs[EXP := c.temp], zero := false, op := CmpxchgFail)
    case HaltExec => c.(halted := true)
    case _ => assert false; c
  }
}
