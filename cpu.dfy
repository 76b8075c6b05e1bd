/** The emulator object: memory and registers as arrays, and pc, sp, the
    flags and the printed output as fields, all updated in place. Every method
    is proved to do to the object's state what the functions of module
    Machine do to a State value. */
module Cpu {
  import opened Opcodes
  import opened Alu
  import opened Machine

  class CPU {
    var ram: array<int>
    var reg: array<int>
    var pc: int
    var sp: int
    var E: int
    var L: int
    var G: int
    var output: seq<int>

    ghost predicate Valid()
      reads this
    {
      ram.Length == RAM_SIZE && reg.Length == REG_COUNT && ram != reg
    }

    /** The machine state the object holds. */
    ghost function Snapshot(): (s: State)
      reads this, ram, reg
      requires Valid()
      ensures WellFormed(s)
    {
      State(ram[..], reg[..], pc, sp, E, L, G, output)
    }

    constructor ()
      ensures Valid() && fresh(ram) && fresh(reg)
      ensures Snapshot() == Initial()
    {
      reg := new int[REG_COUNT](_ => 0);
      pc := 0;
      ram := new int[RAM_SIZE](_ => 0);
      sp := RAM_SIZE;
      E, L, G := 0, 0, 0;
      output := [];
    }

    method RamRead(address: int) returns (value: int)
      requires Valid() && 0 <= address < RAM_SIZE
      ensures Read(Snapshot(), address) == Ok(value)
    {
      value := ram[address];
    }

    method RamWrite(address: int, value: int)
      requires Valid() && 0 <= address < RAM_SIZE
      modifies ram
      ensures Snapshot() == old(Snapshot()).(ram := old(ram[..])[address := value])
    {
      ram[address] := value;
    }

    /** Copies the program image into memory from address 0 on. */
    method Load(program: seq<int>)
      requires Valid() && |program| <= RAM_SIZE
      modifies ram
      ensures Snapshot() == old(Snapshot()).(ram := Loaded(old(ram[..]), program))
    {
      var image := Image(program);
      var address := 0;
      while address < |image|
        invariant 0 <= address <= |image|
        invariant forall a :: 0 <= a < address ==> ram[a] == image[a]
        invariant forall a :: address <= a < RAM_SIZE ==> ram[a] == old(ram[a])
      {
        ram[address] := image[address];
        address := address + 1;
      }
      assert ram[..] == Loaded(old(ram[..]), program);
    }

    /** The binary cases of the ALU: register a := reg[a] op reg[b]. */
    method AluBinary(op: BinOp, a: Reg, b: Reg) returns (outcome: AluResult)
      requires Valid()
      modifies reg
      ensures outcome == Apply(op, old(reg[a]), old(reg[b]))
      ensures reg[..] == if outcome.Value? then old(reg[..])[a := outcome.v] else old(reg[..])
    {
      var x, y := reg[a], reg[b];
      match op {
        case Add => outcome := Value(x + y);
        case Sub => outcome := Value(x - y);
        case Mul => outcome := Value(x * y);
        case And => outcome := Value(BitAnd(x, y));
        case Or => outcome := Value(BitOr(x, y));
        case Xor => outcome := Value(BitXor(x, y));
        case Shl => outcome := if y < 0 then NegativeShiftCount(y) else Value(ShiftLeft(x, y));
        case Shr => outcome := if y < 0 then NegativeShiftCount(y) else Value(ShiftRight(x, y));
        case Mod => outcome := if y == 0 then ZeroDivisor else Value(FloorMod(x, y));
      }
      if outcome.Value? {
        reg[a] := outcome.v;
      }
    }

    /** The CMP case of the ALU: clear the flags, then set the one that holds. */
    method AluCompare(a: Reg, b: Reg)
      requires Valid()
      modifies this`E, this`L, this`G
      ensures Flags(E, L, G) == Compare(reg[a], reg[b])
    {
      E, L, G := 0, 0, 0;
      if reg[a] == reg[b] {
        E := 1;
      } else if reg[a] < reg[b] {
        L := 1;
      } else {
        G := 1;
      }
    }

    /** The NOT case of the ALU, with the one operand it needs. */
    method AluNot(a: Reg)
      requires Valid()
      modifies reg
      ensures reg[..] == old(reg[..])[a := Complement(old(reg[a]))]
    {
      reg[a] := -reg[a] - 1;
    }

    method PushValue(value: int)
      requires Valid() && 0 < sp <= RAM_SIZE
      modifies this`sp, ram
      ensures Snapshot() == StackPush(old(Snapshot()), value)
    {
      sp := sp - 1;
      ram[sp] := value;
    }

    method PopValue() returns (value: int)
      requires Valid() && 0 <= sp < RAM_SIZE
      modifies this`sp
      ensures (value, Snapshot()) == StackPop(old(Snapshot()))
    {
      value := ram[sp];
      sp := sp + 1;
    }

    // -------------------------------------------------------------------
    // The instructions of the dispatch loop

    method Ldi() returns (outcome: Outcome)
      requires Valid()
      modifies this`pc, reg
      ensures (outcome, Snapshot()) == Settle(old(Snapshot()), ExecLdi(old(Snapshot())))
    {
      if !(0 <= pc + 1 < RAM_SIZE) { return Trap(AddressOutOfRange(pc + 1)); }
      var operand1 := RamRead(pc + 1);
      if !(0 <= pc + 2 < RAM_SIZE) { return Trap(AddressOutOfRange(pc + 2)); }
      var operand2 := RamRead(pc + 2);
      if !(0 <= operand1 < REG_COUNT) { return Trap(RegisterOutOfRange(operand1)); }
      reg[operand1] := operand2;
      pc := pc + 3;
      outcome := Continue;
    }

    method Prn() returns (outcome: Outcome)
      requires Valid()
      modifies this`pc, this`output
      ensures (outcome, Snapshot()) == Settle(old(Snapshot()), ExecPrn(old(Snapshot())))
    {
      if !(0 <= pc + 1 < RAM_SIZE) { return Trap(AddressOutOfRange(pc + 1)); }
      var operand1 := RamRead(pc + 1);
      if !(0 <= operand1 < REG_COUNT) { return Trap(RegisterOutOfRange(operand1)); }
      output := output + [reg[operand1]];
      pc := pc + 2;
      outcome := Continue;
    }

    method Binary(op: BinOp) returns (outcome: Outcome)
      requires Valid()
      modifies this`pc, reg
      ensures (outcome, Snapshot()) == Settle(old(Snapshot()), ExecBinary(old(Snapshot()), op))
    {
      if !(0 <= pc + 1 < RAM_SIZE) { return Trap(AddressOutOfRange(pc + 1)); }
      var operand1 := RamRead(pc + 1);
      if !(0 <= pc + 2 < RAM_SIZE) { return Trap(AddressOutOfRange(pc + 2)); }
      var operand2 := RamRead(pc + 2);
      if !(0 <= operand1 < REG_COUNT) { return Trap(RegisterOutOfRange(operand1)); }
      if !(0 <= operand2 < REG_COUNT) { return Trap(RegisterOutOfRange(operand2)); }
      var result := AluBinary(op, operand1, operand2);
      match result
      case Value(_) =>
        pc := pc + 3;
        outcome := Continue;
      case ZeroDivisor =>
        outcome := ModByZero;
      case NegativeShiftCount(n) =>
        outcome := Trap(NegativeShift(n));
    }

    method Cmp() returns (outcome: Outcome)
      requires Valid()
      modifies this`pc, this`E, this`L, this`G
      ensures (outcome, Snapshot()) == Settle(old(Snapshot()), ExecCmp(old(Snapshot())))
    {
      if !(0 <= pc + 1 < RAM_SIZE) { return Trap(AddressOutOfRange(pc + 1)); }
      var operand1 := RamRead(pc + 1);
      if !(0 <= pc + 2 < RAM_SIZE) { return Trap(AddressOutOfRange(pc + 2)); }
      var operand2 := RamRead(pc + 2);
      if !(0 <= operand1 < REG_COUNT) { return Trap(RegisterOutOfRange(operand1)); }
      if !(0 <= operand2 < REG_COUNT) { return Trap(RegisterOutOfRange(operand2)); }
      AluCompare(operand1, operand2);
      pc := pc + 3;
      outcome := Continue;
    }

    method Not() returns (outcome: Outcome)
      requires Valid()
      modifies this`pc, reg
      ensures (outcome, Snapshot()) == Settle(old(Snapshot()), ExecNot(old(Snapshot())))
    {
      if !(0 <= pc + 1 < RAM_SIZE) { return Trap(AddressOutOfRange(pc + 1)); }
      var operand1 := RamRead(pc + 1);
      if !(0 <= operand1 < REG_COUNT) { return Trap(RegisterOutOfRange(operand1)); }
      AluNot(operand1);
      pc := pc + 2;
      outcome := Continue;
    }

    method PushInstruction() returns (outcome: Outcome)
      requires Valid()
      modifies this`pc, this`sp, ram
      ensures (outcome, Snapshot()) == Settle(old(Snapshot()), ExecPush(old(Snapshot())))
    {
      if !(0 <= pc + 1 < RAM_SIZE) { return Trap(AddressOutOfRange(pc + 1)); }
      var regNum := RamRead(pc + 1);
      if !(0 <= regNum < REG_COUNT) { return Trap(RegisterOutOfRange(regNum)); }
      if !(0 < sp <= RAM_SIZE) { return Trap(StackOutOfRange(sp - 1)); }
      var value := reg[regNum];
      sp := sp - 1;
      ram[sp] := value;
      pc := pc + 2;
      outcome := Continue;
    }

    method PopInstruction() returns (outcome: Outcome)
      requires Valid()
      modifies this`pc, this`sp, reg
      ensures (outcome, Snapshot()) == Settle(old(Snapshot()), ExecPop(old(Snapshot())))
    {
      if !(0 <= sp < RAM_SIZE) { return Trap(StackOutOfRange(sp)); }
      var value := ram[sp];
      if !(0 <= pc + 1 < RAM_SIZE) { return Trap(AddressOutOfRange(pc + 1)); }
      var regNum := RamRead(pc + 1);
      if !(0 <= regNum < REG_COUNT) { return Trap(RegisterOutOfRange(regNum)); }
      reg[regNum] := value;
      sp := sp + 1;
      pc := pc + 2;
      outcome := Continue;
    }

    method CallInstruction() returns (outcome: Outcome)
      requires Valid()
      modifies this`pc, this`sp, ram
      ensures (outcome, Snapshot()) == Settle(old(Snapshot()), ExecCall(old(Snapshot())))
    {
      if !(0 < sp <= RAM_SIZE) { return Trap(StackOutOfRange(sp - 1)); }
      if !(0 <= pc + 1 < RAM_SIZE) { return Trap(AddressOutOfRange(pc + 1)); }
      var returnAddress := pc + 2;
      // The operand is read after the push, so it is the return address
      // when the push overwrites it. It is read first here so that a fault
      // leaves the object unchanged.
      var regNum := returnAddress;
      if sp - 1 != pc + 1 {
        regNum := RamRead(pc + 1);
      }
      if !(0 <= regNum < REG_COUNT) { return Trap(RegisterOutOfRange(regNum)); }
      PushValue(returnAddress);
      pc := reg[regNum];
      outcome := Continue;
    }

    method RetInstruction() returns (outcome: Outcome)
      requires Valid()
      modifies this`pc, this`sp
      ensures (outcome, Snapshot()) == Settle(old(Snapshot()), ExecRet(old(Snapshot())))
    {
      if !(0 <= sp < RAM_SIZE) { return Trap(StackOutOfRange(sp)); }
      var returnAddress := PopValue();
      pc := returnAddress;
      outcome := Continue;
    }

    /** JMP (taken always), JEQ (taken when E == 1), JNE (taken when E == 0). */
    method Jump(taken: bool) returns (outcome: Outcome)
      requires Valid()
      modifies this`pc
      ensures (outcome, Snapshot()) == Settle(old(Snapshot()), ExecJump(old(Snapshot()), taken))
    {
      if taken {
        if !(0 <= pc + 1 < RAM_SIZE) { return Trap(AddressOutOfRange(pc + 1)); }
        var regNum := RamRead(pc + 1);
        if !(0 <= regNum < REG_COUNT) { return Trap(RegisterOutOfRange(regNum)); }
        pc := reg[regNum];
      } else {
        pc := pc + 2;
      }
      outcome := Continue;
    }

    /** One iteration of the dispatch loop. */
    method Step() returns (outcome: Outcome)
      requires Valid()
      modifies this`pc, this`sp, this`E, this`L, this`G, this`output, ram, reg
      ensures (outcome, Snapshot()) == Machine.Step(old(Snapshot()))
    {
      if !(0 <= pc < RAM_SIZE) { return Trap(AddressOutOfRange(pc)); }
      var ir := RamRead(pc);
      if ir == ADD {
        outcome := Binary(BinOp.Add);
      } else if ir == HLT {
        outcome := Halt;
      } else if ir == LDI {
        outcome := Ldi();
      } else if ir == MUL {
        outcome := Binary(BinOp.Mul);
      } else if ir == PRN {
        outcome := Prn();
      } else if ir == PUSH {
        outcome := PushInstruction();
      } else if ir == POP {
        outcome := PopInstruction();
      } else if ir == CALL {
        outcome := CallInstruction();
      } else if ir == RET {
        outcome := RetInstruction();
      } else if ir == JMP {
        outcome := Jump(true);
      } else if ir == JEQ {
        outcome := Jump(E == 1);
      } else if ir == JNE {
        outcome := Jump(E == 0);
      } else if ir == CMP {
        outcome := Cmp();
      } else if ir == AND {
        outcome := Binary(BinOp.And);
      } else if ir == OR {
        outcome := Binary(BinOp.Or);
      } else if ir == XOR {
        outcome := Binary(BinOp.Xor);
      } else if ir == NOT {
        outcome := Not();
      } else if ir == SHL {
        outcome := Binary(BinOp.Shl);
      } else if ir == SHR {
        outcome := Binary(BinOp.Shr);
      } else if ir == MOD {
        outcome := Binary(BinOp.Mod);
      } else {
        outcome := Trap(UnknownInstruction(ir, pc));
      }
    }

    /** One iteration of the dispatch loop, stated in terms of the loop: with
        `remaining` iterations left, the rest of the run goes on from the new
        state or stops here. */
    method LoopIteration(ghost remaining: nat) returns (outcome: Outcome)
      requires Valid() && remaining > 0
      modifies this`pc, this`sp, this`E, this`L, this`G, this`output, ram, reg
      ensures Machine.Run(old(Snapshot()), remaining) ==
              if outcome == Continue then Machine.Run(Snapshot(), remaining - 1) else (outcome, Snapshot())
    {
      ghost var before := Snapshot();
      outcome := Step();
      RunUnfold(before, remaining, outcome, Snapshot());
    }

    /** The dispatch loop, run until it stops or `fuel` steps have been taken. */
    method Run(fuel: nat) returns (outcome: Outcome)
      requires Valid()
      modifies this`pc, this`sp, this`E, this`L, this`G, this`output, ram, reg
      ensures (outcome, Snapshot()) == Machine.Run(old(Snapshot()), fuel)
    {
      outcome := Continue;
      var remaining := fuel;
      while remaining > 0
        invariant outcome == Continue
        invariant Machine.Run(Snapshot(), remaining) == Machine.Run(old(Snapshot()), fuel)
      {
        outcome := LoopIteration(remaining);
        if outcome != Continue {
          return;
        }
        remaining := remaining - 1;
      }
    }
  }
}
