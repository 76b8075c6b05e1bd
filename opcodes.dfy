/** The LS-8 instruction set: the opcode bytes the dispatch loop compares the
    instruction register against, and their decoding into a closed enumeration. */
module Opcodes {

  // Opcode bytes. The two high bits of each give its operand count, bit 5 marks
  // an ALU instruction and bit 4 an instruction that sets the program counter.
  const ADD: int := 0xA0   // 0b10100000
  const HLT: int := 0x01   // 0b00000001
  const LDI: int := 0x82   // 0b10000010
  const MUL: int := 0xA2   // 0b10100010
  const PRN: int := 0x47   // 0b01000111
  const PUSH: int := 0x45  // 0b01000101
  const POP: int := 0x46   // 0b01000110
  const CALL: int := 0x50  // 0b01010000
  const RET: int := 0x11   // 0b00010001
  const CMP: int := 0xA7   // 0b10100111
  const JMP: int := 0x54   // 0b01010100
  const JEQ: int := 0x55   // 0b01010101
  const JNE: int := 0x56   // 0b01010110
  const AND: int := 0xA8   // 0b10101000
  const OR: int := 0xAA    // 0b10101010
  const XOR: int := 0xAB   // 0b10101011
  const NOT: int := 0x69   // 0b01101001
  const SHL: int := 0xAC   // 0b10101100
  const SHR: int := 0xAD   // 0b10101101
  const MOD: int := 0xA4   // 0b10100100

  datatype Opcode =
    | Add | Hlt | Ldi | Mul | Prn | Push | Pop | Call | Ret | Cmp
    | Jmp | Jeq | Jne | And | Or | Xor | Not | Shl | Shr | Mod

  datatype Option<T> = None | Some(value: T)

  /** The byte that stands for an opcode. */
  function Encode(op: Opcode): (b: int)
    ensures 0 <= b < 256
  {
    match op
    case Add => ADD
    case Hlt => HLT
    case Ldi => LDI
    case Mul => MUL
    case Prn => PRN
    case Push => PUSH
    case Pop => POP
    case Call => CALL
    case Ret => RET
    case Cmp => CMP
    case Jmp => JMP
    case Jeq => JEQ
    case Jne => JNE
    case And => AND
    case Or => OR
    case Xor => XOR
    case Not => NOT
    case Shl => SHL
    case Shr => SHR
    case Mod => MOD
  }

  /** The instruction-register comparison chain: the opcode a byte stands for,
      or None for a byte the dispatch loop does not recognise. */
  function Decode(b: int): (r: Option<Opcode>)
    ensures r.Some? ==> Encode(r.value) == b
    ensures r.None? ==> forall op: Opcode :: Encode(op) != b
  {
    if b == ADD then Some(Add)
    else if b == HLT then Some(Hlt)
    else if b == LDI then Some(Ldi)
    else if b == MUL then Some(Mul)
    else if b == PRN then Some(Prn)
    else if b == PUSH then Some(Push)
    else if b == POP then Some(Pop)
    else if b == CALL then Some(Call)
    else if b == RET then Some(Ret)
    else if b == JMP then Some(Jmp)
    else if b == JEQ then Some(Jeq)
    else if b == JNE then Some(Jne)
    else if b == CMP then Some(Cmp)
    else if b == AND then Some(And)
    else if b == OR then Some(Or)
    else if b == XOR then Some(Xor)
    else if b == NOT then Some(Not)
    else if b == SHL then Some(Shl)
    else if b == SHR then Some(Shr)
    else if b == MOD then Some(Mod)
    else None
  }

  /** Decoding inverts encoding. */
  lemma DecodeEncode(op: Opcode)
    ensures Decode(Encode(op)) == Some(op)
  {
  }

  /** Number of operand bytes that follow the opcode in memory. */
  function OperandCount(op: Opcode): (n: nat)
    ensures n <= 2
  {
    match op
    case Hlt | Ret => 0
    case Prn | Push | Pop | Call | Jmp | Jeq | Jne | Not => 1
    case Add | Ldi | Mul | Cmp | And | Or | Xor | Shl | Shr | Mod => 2
  }

  /** Instructions that assign the program counter themselves. */
  predicate SetsPc(op: Opcode) {
    op in {Call, Ret, Jmp, Jeq, Jne}
  }

  /** The encoding carries the operand count in its two high bits and the
      "sets the program counter" mark in bit 4. */
  lemma EncodingFields(op: Opcode)
    ensures OperandCount(op) == Encode(op) / 64
    ensures SetsPc(op) <==> (Encode(op) / 16) % 2 == 1
  {
  }
}
