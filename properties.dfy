/** What the instructions of the dispatch loop promise, stated over module
    Machine's step function: what each changes, how far pc moves, and the
    stack linkage of PUSH/POP and CALL/RET. */
module Properties {
  import opened Opcodes
  import opened Alu
  import opened Machine

  /** The instruction at pc is `op`. */
  predicate At(s: State, op: Opcode) {
    WellFormed(s) && 0 <= s.pc < RAM_SIZE && s.ram[s.pc] == Encode(op)
  }

  /** The operand byte k cells after pc lies in memory. */
  predicate HasOperand(s: State, k: int) {
    WellFormed(s) && 0 <= s.pc + k < RAM_SIZE
  }

  /** The operand byte k cells after pc lies in memory and names a register. */
  predicate RegOperand(s: State, k: int) {
    HasOperand(s, k) && 0 <= s.ram[s.pc + k] < REG_COUNT
  }

  /** The binary ALU instructions and the ALU operation each performs. */
  function AluOf(op: Opcode): Option<BinOp> {
    match op
    case Add => Some(BinOp.Add)
    case Mul => Some(BinOp.Mul)
    case And => Some(BinOp.And)
    case Or => Some(BinOp.Or)
    case Xor => Some(BinOp.Xor)
    case Shl => Some(BinOp.Shl)
    case Shr => Some(BinOp.Shr)
    case Mod => Some(BinOp.Mod)
    case _ => None
  }

  // ---------------------------------------------------------------------
  // The stack primitives

  /** push_value then pop_value gives back the value and the stack pointer;
      the push wrote only the cell just below the old stack pointer. */
  lemma PopAfterPush(s: State, v: int)
    requires WellFormed(s) && CanPush(s)
    ensures StackPush(s, v).sp == s.sp - 1
    ensures forall a :: 0 <= a < RAM_SIZE && a != s.sp - 1 ==> StackPush(s, v).ram[a] == s.ram[a]
    ensures StackPop(StackPush(s, v)) == (v, s.(ram := s.ram[s.sp - 1 := v]))
  {
  }

  // ---------------------------------------------------------------------
  // Single instructions

  lemma HltHalts(s: State)
    requires At(s, Hlt)
    ensures Step(s) == (Halt, s)
  {
  }

  /** LDI writes the immediate into the named register and nothing else. */
  lemma LdiLoadsImmediate(s: State)
    requires At(s, Ldi) && RegOperand(s, 1) && HasOperand(s, 2)
    ensures Step(s) == (Continue, s.(reg := s.reg[s.ram[s.pc + 1] := s.ram[s.pc + 2]], pc := s.pc + 3))
  {
  }

  /** PRN appends the register's value to the output and changes nothing else. */
  lemma PrnOutputsRegister(s: State)
    requires At(s, Prn) && RegOperand(s, 1)
    ensures Step(s) == (Continue, s.(output := s.output + [s.reg[s.ram[s.pc + 1]]], pc := s.pc + 2))
  {
  }

  /** A binary ALU instruction whose operation succeeds writes reg[a] op reg[b]
      into register a only; memory, sp, flags and output are untouched. */
  lemma BinaryWritesFirstRegister(s: State, op: Opcode)
    requires At(s, op) && AluOf(op).Some?
    requires RegOperand(s, 1) && RegOperand(s, 2)
    requires Apply(AluOf(op).value, s.reg[s.ram[s.pc + 1]], s.reg[s.ram[s.pc + 2]]).Value?
    ensures var a, b := s.ram[s.pc + 1], s.ram[s.pc + 2];
            var v := Apply(AluOf(op).value, s.reg[a], s.reg[b]).v;
            Step(s) == (Continue, s.(reg := s.reg[a := v], pc := s.pc + 3))
  {
    DecodeEncode(op);
  }

  /** MOD halts with the divide-by-zero report exactly when the divisor
      register holds 0, and then changes nothing. */
  lemma ModByZeroHalts(s: State)
    requires At(s, Opcode.Mod) && RegOperand(s, 1) && RegOperand(s, 2)
    ensures Step(s).0 == ModByZero <==> s.reg[s.ram[s.pc + 2]] == 0
    ensures Step(s).0 == ModByZero ==> Step(s).1 == s
    ensures s.reg[s.ram[s.pc + 2]] != 0 ==>
              Step(s).0 == Continue &&
              Step(s).1.reg[s.ram[s.pc + 1]] == FloorMod(s.reg[s.ram[s.pc + 1]], s.reg[s.ram[s.pc + 2]])
  {
  }

  /** A shift by a negative count is an error that changes nothing. */
  lemma NegativeShiftFaults(s: State, op: Opcode)
    requires (op == Opcode.Shl || op == Opcode.Shr) && At(s, op) && RegOperand(s, 1) && RegOperand(s, 2)
    requires s.reg[s.ram[s.pc + 2]] < 0
    ensures Step(s) == (Trap(NegativeShift(s.reg[s.ram[s.pc + 2]])), s)
  {
    DecodeEncode(op);
  }

  /** CMP sets exactly one flag, the one matching the order of the two
      registers, and changes neither registers nor memory nor sp. */
  lemma CmpSetsExactlyOneFlag(s: State)
    requires At(s, Cmp) && RegOperand(s, 1) && RegOperand(s, 2)
    ensures var (o, t) := Step(s);
            var x, y := s.reg[s.ram[s.pc + 1]], s.reg[s.ram[s.pc + 2]];
            o == Continue && t.reg == s.reg && t.ram == s.ram && t.sp == s.sp &&
            t.output == s.output && t.pc == s.pc + 3 &&
            (t.E == 1 <==> x == y) && (t.L == 1 <==> x < y) && (t.G == 1 <==> x > y) &&
            t.E + t.L + t.G == 1
  {
  }

  /** NOT replaces the register by its complement. */
  lemma NotComplements(s: State)
    requires At(s, Not) && RegOperand(s, 1)
    ensures var a := s.ram[s.pc + 1];
            Step(s) == (Continue, s.(reg := s.reg[a := Complement(s.reg[a])], pc := s.pc + 2))
  {
  }

  /** JEQ jumps to the register's value iff E is 1 and otherwise moves past
      the instruction without reading its operand; JNE the same with E == 0.
      Neither changes registers, flags, memory or sp. */
  lemma ConditionalJumps(s: State, op: Opcode)
    requires op == Jeq || op == Jne
    requires At(s, op)
    requires (if op == Jeq then s.E == 1 else s.E == 0) ==> RegOperand(s, 1)
    ensures var taken := if op == Jeq then s.E == 1 else s.E == 0;
            Step(s) == (Continue, s.(pc := if taken then s.reg[s.ram[s.pc + 1]] else s.pc + 2))
  {
    DecodeEncode(op);
  }

  /** JMP sets pc to the register's value and changes nothing else. */
  lemma JmpJumps(s: State)
    requires At(s, Jmp) && RegOperand(s, 1)
    ensures Step(s) == (Continue, s.(pc := s.reg[s.ram[s.pc + 1]]))
  {
    DecodeEncode(Jmp);
  }

  /** PUSH stores the register one cell below sp, moves sp down to it and
      advances pc by 2. */
  lemma PushStores(s: State)
    requires At(s, Push) && RegOperand(s, 1) && CanPush(s)
    ensures Step(s) == (Continue, StackPush(s, s.reg[s.ram[s.pc + 1]]).(pc := s.pc + 2))
    ensures Step(s).1.ram[s.sp - 1] == s.reg[s.ram[s.pc + 1]] && Step(s).1.sp == s.sp - 1
  {
  }

  /** POP loads the cell at sp into the register, moves sp up by one and
      advances pc by 2; memory is untouched. */
  lemma PopLoads(s: State)
    requires At(s, Pop) && RegOperand(s, 1) && CanPop(s)
    ensures Step(s) == (Continue, s.(reg := s.reg[s.ram[s.pc + 1] := s.ram[s.sp]], sp := s.sp + 1, pc := s.pc + 2))
  {
  }

  /** A push with sp at the bottom of memory, or a pop with sp at the top,
      has no cell to use: the step faults and changes nothing. */
  lemma StackBoundsTrap(s: State, op: Opcode)
    requires At(s, op)
    requires (op == Push && RegOperand(s, 1)) || op == Call || op == Pop || op == Ret
    requires (op == Push || op == Call) ==> s.sp == 0
    requires (op == Pop || op == Ret) ==> s.sp == RAM_SIZE
    ensures op == Push || op == Call ==> Step(s) == (Trap(StackOutOfRange(-1)), s)
    ensures op == Pop || op == Ret ==> Step(s) == (Trap(StackOutOfRange(RAM_SIZE)), s)
  {
    DecodeEncode(op);
  }

  /** Every instruction that does not set pc itself, once it completes,
      advances pc by its width: one byte plus its operand count, which the
      two high bits of the opcode encode. */
  lemma PcAdvancesByWidth(s: State, op: Opcode)
    requires At(s, op) && !SetsPc(op)
    ensures Step(s).0 == Continue ==>
              Step(s).1.pc == s.pc + 1 + OperandCount(op) == s.pc + 1 + Encode(op) / 64
  {
    DecodeEncode(op);
    EncodingFields(op);
  }

  /** An opcode byte outside the instruction set is reported with its value
      and address, and nothing is executed. */
  lemma UnknownInstructionTraps(s: State)
    requires WellFormed(s) && 0 <= s.pc < RAM_SIZE && Decode(s.ram[s.pc]).None?
    ensures forall fuel: nat :: fuel > 0 ==>
              Run(s, fuel) == (Trap(UnknownInstruction(s.ram[s.pc], s.pc)), s)
  {
  }

  /** The changes one instruction may make: memory only in the cell a push
      writes, the output only by appending at most one value, and sp by at
      most one. */
  predicate Framed(s: State, t: State)
    requires WellFormed(s) && WellFormed(t)
  {
    (forall a :: 0 <= a < RAM_SIZE && a != s.sp - 1 ==> t.ram[a] == s.ram[a]) &&
    s.output <= t.output && |t.output| <= |s.output| + 1 &&
    s.sp - 1 <= t.sp <= s.sp + 1
  }

  /** Every instruction that completes stays within that frame. */
  lemma ExecuteFrame(s: State, op: Opcode)
    requires WellFormed(s) && Execute(s, op).Ok?
    ensures WellFormed(Execute(s, op).value) && Framed(s, Execute(s, op).value)
  {
  }

  /** What any one step may change: memory only in the cell a push writes,
      the output only by appending at most one value, and sp by at most one. */
  lemma StepFrame(s: State)
    requires WellFormed(s)
    ensures var t := Step(s).1;
            (forall a :: 0 <= a < RAM_SIZE && a != s.sp - 1 ==> t.ram[a] == s.ram[a]) &&
            s.output <= t.output && |t.output| <= |s.output| + 1 &&
            s.sp - 1 <= t.sp <= s.sp + 1
  {
    if 0 <= s.pc < RAM_SIZE && Decode(s.ram[s.pc]).Some? {
      var op := Decode(s.ram[s.pc]).value;
      if Execute(s, op).Ok? {
        ExecuteFrame(s, op);
      }
    }
  }

  // ---------------------------------------------------------------------
  // Stack linkage across two instructions

  /** PUSH ra followed by POP rb copies the value of ra into rb and leaves sp
      where it was before the PUSH. */
  lemma PushThenPop(s: State)
    requires At(s, Push) && RegOperand(s, 1) && CanPush(s)
    requires var t := Step(s).1; At(t, Pop) && RegOperand(t, 1)
    ensures Step(s).0 == Continue
    ensures var t := Step(s).1;
            var (o, u) := Step(t);
            o == Continue && u.reg[t.ram[t.pc + 1]] == s.reg[s.ram[s.pc + 1]] &&
            u.sp == s.sp && u.pc == s.pc + 4
  {
    var t := Step(s).1;
    assert t == StackPush(s, s.reg[s.ram[s.pc + 1]]).(pc := s.pc + 2);
    assert t.ram[t.sp] == s.reg[s.ram[s.pc + 1]];
  }

  /** CALL pushes the address just after itself and jumps to the value of
      the register named by its operand byte, read after the push; a RET met
      later with the stack pointer back where the CALL left it, and that stack
      cell intact, resumes just after the CALL with sp restored. */
  lemma CallThenRet(s: State, later: State)
    requires At(s, Call) && CanPush(s) && RegOperand(StackPush(s, s.pc + 2), 1)
    requires At(later, Ret)
    requires later.sp == Step(s).1.sp && later.ram[later.sp] == Step(s).1.ram[later.sp]
    ensures var (o, t) := Step(s);
            o == Continue && t.pc == s.reg[t.ram[s.pc + 1]] && t.sp == s.sp - 1 &&
            t.reg == s.reg && t.ram == s.ram[s.sp - 1 := s.pc + 2]
    ensures Step(later) == (Continue, later.(pc := s.pc + 2, sp := s.sp))
  {
    var t := Step(s).1;
    var pushed := StackPush(s, s.pc + 2);
    assert t == pushed.(pc := s.reg[pushed.ram[s.pc + 1]]);
  }

  /** When CALL's push overwrites its own operand byte, the register it
      jumps through is the one numbered by the return address. */
  lemma CallReadsOperandAfterPush(s: State)
    requires At(s, Call) && CanPush(s) && s.sp - 1 == s.pc + 1
    ensures s.pc + 2 < REG_COUNT ==>
              Step(s) == (Continue, StackPush(s, s.pc + 2).(pc := s.reg[s.pc + 2]))
    ensures s.pc + 2 >= REG_COUNT ==> Step(s) == (Trap(RegisterOutOfRange(s.pc + 2)), s)
  {
  }

  /** LDI r, v followed by PRN r prints v. */
  lemma LdiThenPrn(s: State)
    requires At(s, Ldi) && RegOperand(s, 1) && HasOperand(s, 2)
    requires var t := Step(s).1; At(t, Prn) && HasOperand(t, 1) && t.ram[t.pc + 1] == s.ram[s.pc + 1]
    ensures var (o, u) := Step(Step(s).1);
            o == Continue && u.output == s.output + [s.ram[s.pc + 2]]
  {
    LdiLoadsImmediate(s);
  }

  // ---------------------------------------------------------------------
  // The loop

  /** Once a loop has stopped, more fuel changes nothing. */
  lemma {:induction false} IterateStopsForGood(step: State --> (Outcome, State), s: State, fuel: nat, more: nat)
    requires Closed(step) && WellFormed(s) && Iterate(step, s, fuel).0 != Continue
    ensures Iterate(step, s, fuel + more) == Iterate(step, s, fuel)
    decreases fuel
  {
    if step(s).0 == Continue {
      IterateStopsForGood(step, step(s).1, fuel - 1, more);
    }
  }

  /** A loop whose step changes nothing when it stops ends, once stopped, in a
      state whose next step stops the same way. */
  lemma {:induction false} IterateEndsAtStop(step: State --> (Outcome, State), s: State, fuel: nat)
    requires Closed(step) && WellFormed(s) && Iterate(step, s, fuel).0 != Continue
    requires forall t :: WellFormed(t) && step(t).0 != Continue ==> step(t).1 == t
    ensures step(Iterate(step, s, fuel).1) == Iterate(step, s, fuel)
    decreases fuel
  {
    if step(s).0 == Continue {
      IterateEndsAtStop(step, step(s).1, fuel - 1);
    }
  }

  /** Running a loop m steps and then n more is running it m + n steps. */
  lemma {:induction false} IterateSplits(step: State --> (Outcome, State), s: State, m: nat, n: nat)
    requires Closed(step) && WellFormed(s) && Iterate(step, s, m).0 == Continue
    ensures Iterate(step, s, m + n) == Iterate(step, Iterate(step, s, m).1, n)
    decreases m
  {
    if m > 0 {
      IterateSplits(step, step(s).1, m - 1, n);
    }
  }

  /** Once the dispatch loop has stopped, more fuel changes nothing: Halted
      is terminal. */
  lemma RunStopsForGood(s: State, fuel: nat, more: nat)
    requires WellFormed(s) && Run(s, fuel).0 != Continue
    ensures Run(s, fuel + more) == Run(s, fuel)
  {
    StepClosed();
    IterateStopsForGood(Step, s, fuel, more);
  }

  /** A stopped run ends in a state whose next step stops the same way and
      changes nothing: the loop cannot resume. */
  lemma RunEndsAtStop(s: State, fuel: nat)
    requires WellFormed(s) && Run(s, fuel).0 != Continue
    ensures Step(Run(s, fuel).1) == Run(s, fuel)
  {
    StepClosed();
    IterateEndsAtStop(Step, s, fuel);
  }

  /** Running m steps of the dispatch loop and then n more is running m + n. */
  lemma RunSplits(s: State, m: nat, n: nat)
    requires WellFormed(s) && Run(s, m).0 == Continue
    ensures Run(s, m + n) == Run(Run(s, m).1, n)
  {
    StepClosed();
    IterateSplits(Step, s, m, n);
  }
}
